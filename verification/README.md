# Rivune: proofs about client and release-tool logic

This project models the parts of Rivune whose correctness depends on whole runs or on all inputs, and proves what they
promise. Each part has a specification made of functions over values, the code's own loops and in-place updates proved
against it, and theorems about every run or every input of the specification.

- **Progressive TV search** (`SearchIdentity`, `Dedup`, `SearchPublication`, `AddonPool`, `SearchMachine`,
  `SearchDiscard`, `SearchLoss`, `SearchOutcome`, `IdentityLaws`, `ViewerSearch`, `SearchClosure`). A step is one stretch of code between awaits: an addon outcome, the semantic answer,
  the timer, an abort, or a continuation. The publication and worker-pool theory is generic in the item type and its
  identity function; `ViewerSearch` instantiates it with media items and their search identities.
- **Playback-progress writes** (`ProgressQueue`, `ProgressVersions`, `ProgressPlayer`). The client is a state machine over calls, replies,
  conflicts and failures; a log of notes and a per-title register say independently what each request owes.
- **Command polling** (`CommandPolling`, `CommandDelivery`, `CommandPoller`). Successive effects share a cursor and a guard against a
  growing command log, each response being the stretch of the log that follows the cursor it was asked with.
- **Release manifest** (`UniqueJson`, `ManifestValues`, `Manifest`, `ManifestGeneration`, `ManifestAcceptance`,
  `ManifestConverse`, `WindowsBundle`, `SemVer`). Token streams, in-memory and decoded values, generation, validation, comparison with files.
- **Metadata cache** (`MetadataDocument`, `MetadataCache`). The document with its aliases, and a page with its timers,
  idle callbacks and store.
- **Media routes** (`PercentEncoding`, `UrlPath`, `Routes`, `Decimal`). Printing, the browser's path handling, parsing.
- **Home cache** (`StableJson`, `HomeCache`). Canonical text, signature, projection and eviction.
- **Reading queue** (`ReadingQueue`). Clients with cached queues against a server that counts revisions.

`Prelude.dfy` holds the option type, insertion-ordered sets and the string operations the clients use.
`dafny verify dfyconfig.toml` checks everything.

Environment as parameters: clocks, replies and their order, digests, file contents, ZIP entries, timestamp parsing
(`isTimestamp`), the length of serialized text, number printing and reading in routes (`Numerals`, shown satisfiable by
decimal notation), and whether the browser allows a write.

Where a promised property fails for some inputs, the code is kept, the exact condition is proved, and a concrete case is
given:

- a semantic item lost with discarded speculation: `SearchDiscard.AnswerItemIsRepresented` and
  `SearchDiscard.DiscardingResult` say exactly what stays and what is returned, `SearchLoss.ArrivalCanVanish` is a run;
- items of different types, or of different addons, that share a search identity because a part has a colon in it:
  `IdentityLaws.SharedIdentityIsSameTitle` for parts without one, `IdentityLaws.TypesWithColonCollide` and
  `IdentityLaws.ColonInAddonCollides` for the others;
- a lookup that changes to another snapshot when its target is evicted: `MetadataDocument.PersistSameOrMiss` and
  `MetadataDocument.EvictionCanExposeAnother`;
- routes that are not read back because an id is empty or a dot segment (`Routes.RouteIsReadBack`), or read back as another
  one because an id has outer white space (`Routes.PrintParsePrint`, `Routes.UntrimmedIdMoves`);
- a reload that adds an episode to a series path: `Routes.ReloadKeepsPath` and `Routes.StaleEpisodeAppears`. It takes a
  fractional or not-a-number `continueEpisodeNumber` in the history; the client's own writers of that field store whole
  numbers, nothing, or an episode number from the server (`Routes.WholeEpisodesReload`).

## Model

| member | source | states |
|---|---|---|
| ViewerSearch.CollectedItemsStayApart | clients/tv/common/ViewerSearch.ts:234-282 | In every reachable state, under any interleaving of outcomes, semantic answer, timer, discard and abort, the published and pending items have pairwise disjoint identity sets, all contained in the known identities. |
| ViewerSearch.FlushAppendsInOrder | clients/tv/common/ViewerSearch.ts:234-247 | A flush in any reachable state appends exactly the pending items, in (order, sequence) order, and drops none, although it merges with deduplication. |
| ViewerSearch.ResultIsFirstSightings | clients/tv/common/ViewerSearch.ts:248-369 | A search that returns and kept its speculation returns, as a multiset, exactly the arrivals that share no identity with an earlier arrival. |
| ViewerSearch.EveryArrivalIsRepresented | clients/tv/common/ViewerSearch.ts:248-369 | Every arrival of such a search is linked by a chain of shared identities to an item that is returned. |
| ViewerSearch.DiscardingSearchReturns | clients/tv/common/ViewerSearch.ts:319-369 | A search that discards its speculation and returns returns exactly the first sightings of what stayed after the discard followed by what the final phase brought. |
| ViewerSearch.CanonicalKeysAreUnique | clients/tv/common/ViewerSearch.ts:104-107 | No two items of any returned result have the same canonical identity. |
| ViewerSearch.CallsAreBounded | clients/tv/common/ViewerSearch.ts:172-204 | At most 16 addon calls in all and 4 in flight over both phases, no type index dispatched twice in a phase, and every slot filled once an unaborted phase is idle. |
| ViewerSearch.UnpartialResultIsComplete | clients/tv/common/ViewerSearch.ts:322-369 | A result with partial=false means that the semantic search neither failed nor was partial, and every type of the final plan was asked with the final query and answered without failure or errors. |
| ViewerSearch.ResultReports | clients/tv/common/ViewerSearch.ts:359-369 | A returned result is partial if and only if the semantic search failed or was partial, an answer of the deciding phase failed or had errors, or a type of some phase got no call; it has more if and only if the page has or an answer is as long as the limit; intents, media types and page are the page's, or the defaults. |
| ViewerSearch.ConfiguredExactly | clients/tv/common/ViewerSearch.ts:210-212 | The configured types are exactly the listed ones up to case and white space, not blank, only the requested one where one is, none twice. |
| ViewerSearch.PlanExactly | clients/tv/common/ViewerSearch.ts:322-330 | The final types are the configured ones that the page infers, if none was requested and there are any, and otherwise all; the final query is the residual title of two characters or more, and otherwise the query. |
| ViewerSearch.KeepInOrder | clients/tv/common/ViewerSearch.ts:324-324 | Narrowing the types keeps their order. |
| ViewerSearch.RequestIsClamped | clients/tv/common/ViewerSearch.ts:207-209 | Page and limit are those asked for, brought into range, with their defaults. |
| ViewerSearch.UpdatesGrow | clients/tv/common/ViewerSearch.ts:226-263 | Each update extends the one before it, no two consecutive updates are equal, and a pending batch always has its timer. |
| ViewerSearch.ResultIsLastUpdate | clients/tv/common/ViewerSearch.ts:361-369 | A non-empty returned result is the last list passed to the listener. |
| ViewerSearch.CancelledSearchIsSilent | clients/tv/common/ViewerSearch.ts:284-317 | After an abort nothing more is published and the search never returns a result, whatever events follow. |
| ViewerSearch.PlanStaysConfigured | clients/tv/common/ViewerSearch.ts:322-330 | Without a semantic page the speculation is kept, and a semantic page never adds a type that was not configured. |
| SearchMachine.RunInv | clients/tv/common/ViewerSearch.ts:206-370 | Every run keeps the whole invariant: publication, both worker pools, the shared budget and the phase the search is suspended in. |
| SearchMachine.ReturnedFacts | clients/tv/common/ViewerSearch.ts:353-369 | What a returned search guarantees: items apart, first sightings when the speculation was kept, last update equal to the result. |
| SearchMachine.PublicationFacts | clients/tv/common/ViewerSearch.ts:226-268 | In every run the updates grow, pending batches have a timer, and an aborted search holds nothing to publish. |
| SearchMachine.AbortSilences | clients/tv/common/ViewerSearch.ts:284-317 | From an aborted state on, no step changes the published items or the updates. |
| SearchMachine.DiscardingAnswer | clients/tv/common/ViewerSearch.ts:319-335 | When the semantic answer discards the speculation, what stays is what was published plus the answer's items that were new against everything known, discarded speculation included. |
| SearchOutcome.ReturnedReports | clients/tv/common/ViewerSearch.ts:359-369 | The same report, for a search over any kind of items. |
| SearchOutcome.UpdatesTell | clients/tv/common/ViewerSearch.ts:226-247 | In every run each update carries no metadata before the semantic page is known and the page's own after, and only the returned result the final ones. |
| SearchOutcome.AnswersAreReplies | clients/tv/common/ViewerSearch.ts:188-200 | In every run each stored answer is the reply that arrived for its own slot, unchanged. |
| SearchOutcome.ArrivalsAreAnswers | clients/tv/common/ViewerSearch.ts:283-321 | No answer is overlooked: while the speculation is kept, the arrivals are, as a multiset, all items of all speculative answers and of the semantic page. |
| SearchOutcome.LaterArrivalsAreAnswers | clients/tv/common/ViewerSearch.ts:333-348 | After a discard the later arrivals are all items of all answers of the final phase. |
| SearchOutcome.BatchesFollowTheirAnswers | clients/tv/common/ViewerSearch.ts:248-348 | In every run a pending batch stands at the slot of the answer its items come from, or behind all types if they come from the semantic page. |
| SearchPublication.DiscardAfterArrival | clients/tv/common/ViewerSearch.ts:248-282 | Items enqueued just before the discard stay exactly as far as they were new against all known identities, as an equality of multisets. |
| SearchDiscard.DiscardingResult | clients/tv/common/ViewerSearch.ts:319-369 | For every run that discards its speculation and returns: the result is, as a multiset, exactly the first sightings of what stayed after the discard followed by what the final phase brought. |
| SearchDiscard.RemainingIsRepresented | clients/tv/common/ViewerSearch.ts:319-369 | In such a run everything that stayed or came later is linked by a chain of shared identities to a returned item, so only discarded speculation and answer items that duplicated it can be lost. |
| SearchDiscard.AnswerItemIsRepresented | clients/tv/common/ViewerSearch.ts:319-333 | After the discard an item of the answer shares an identity with a collected item if and only if it shares one with what stayed or with an answer item that was new against everything known before. |
| SearchLoss.ArrivalCanVanish | clients/tv/common/ViewerSearch.ts:206-370 | A run from the start to its return, in which a semantic item that duplicated only pending speculation arrives and no returned item shares an identity with it: representation cannot be claimed for runs that discard. |
| SearchPublication.FlushAppends | clients/tv/common/ViewerSearch.ts:234-247 | Merging the sorted batches equals appending them when the collected items are apart; the sort is an ordered permutation. |
| SearchPublication.MergeAllAppends | clients/tv/common/ViewerSearch.ts:68-81 | Merging batches that are apart from the current items appends every one of them. |
| SearchPublication.OrderedIsUnique | clients/tv/common/ViewerSearch.ts:239-239 | Only one arrangement of the batches is in (order, sequence) order. |
| SearchPublication.SortOrders | clients/tv/common/ViewerSearch.ts:239-239 | The stable sort puts batches with distinct sequence numbers into that order. |
| SearchPublication.SortPermutes | clients/tv/common/ViewerSearch.ts:239-240 | The sort neither loses nor doubles a batch or an item. |
| SearchPublication.SameResultIsEquality | clients/tv/common/ViewerSearch.ts:83-92 | The field-by-field comparison holds exactly for equal results. |
| SearchPublication.FlushSound | clients/tv/common/ViewerSearch.ts:234-247 | A flush keeps apartness, the ledger of updates and the timer discipline, and the last update shows the snapshot. |
| SearchPublication.EnqueueSound | clients/tv/common/ViewerSearch.ts:248-263 | So does an enqueue, in each of its branches. |
| SearchPublication.DiscardSound | clients/tv/common/ViewerSearch.ts:269-282 | So does discarding the speculation, with the known identities rebuilt. |
| SearchPublication.CancelSound | clients/tv/common/ViewerSearch.ts:264-268 | So does cancelling the updates. |
| SearchPublication.EnqueueRepresents | clients/tv/common/ViewerSearch.ts:248-263 | While nothing is discarded, published and pending items stay the first sightings of all arrivals. |
| SearchPublication.FlushRepresents | clients/tv/common/ViewerSearch.ts:234-247 | A flush keeps that too. |
| Dedup.SightingsExact | clients/tv/common/ViewerSearch.ts:249-255 | The selected positions are exactly those whose item shares no identity with an earlier one. |
| Dedup.UnseenIsSightings | clients/tv/common/ViewerSearch.ts:249-255 | The running filter selects exactly those positions, in order. |
| Dedup.LinkedToSighting | clients/tv/common/ViewerSearch.ts:249-255 | From every position a chain of shared identities leads to a selected one. |
| AddonPool.LaunchSteady | clients/tv/common/ViewerSearch.ts:183-202 | Starting the workers dispatches an initial run of indices once each, within concurrency and budget. |
| AddonPool.ReplySteady | clients/tv/common/ViewerSearch.ts:188-201 | A settled call fills its slot and its worker takes the next index; the pool invariant is kept. |
| AddonPool.IdleIsComplete | clients/tv/common/ViewerSearch.ts:188-203 | An idle pool that was not aborted has an outcome in every slot. |
| AddonPool.DispatchedOnce | clients/tv/common/ViewerSearch.ts:187-190 | No index is dispatched twice. |
| SearchIdentity.SearchIdentities | clients/tv/common/ViewerSearch.ts:36-66 | The nested loops collect exactly the identities of the specification, in first-occurrence order, and never none. |
| IdentityLaws.ClaimsExactly | clients/tv/common/ViewerSearch.ts:36-58 | An item claims an identity exactly for each provider and value that an external id, its resource id or its id stands for. |
| IdentityLaws.SharedIdentityIsSameTitle | clients/tv/common/ViewerSearch.ts:36-66 | Two items share an identity if and only if they have one media type and stand for one value at some provider, or no provider knows either and addon, catalogue and id agree after normalisation; for types, and addons and catalogues of unknown items, without a colon. |
| IdentityLaws.NamedIdsShare | clients/tv/common/ViewerSearch.ts:48-57 | Items of one type with the ids p:v and p:w share an identity if and only if v and w agree up to case and outer white space. |
| IdentityLaws.EveryFormAgrees | clients/tv/common/ViewerSearch.ts:40-58 | An external id with or without the provider's name, a resource id or an id with it in any case, and a bare IMDb title all give one common identity. |
| IdentityLaws.ColonInTypeCollides | clients/tv/common/ViewerSearch.ts:44-53 | For media types m and m:p the parts run together: the whole colliding family. |
| IdentityLaws.TypesWithColonCollide | clients/tv/common/ViewerSearch.ts:44-53 | One such pair of items, of different types and with a shared identity. |
| IdentityLaws.ColonInAddonCollides | clients/tv/common/ViewerSearch.ts:60-63 | Moving the text between addon and catalogue across a colon leaves the opaque identity as it is. |
| SearchIdentity.CollectEntries | clients/tv/common/ViewerSearch.ts:41-47 | The loop over the external ids adds exactly their claims for one provider. |
| SearchIdentity.CollectProvider | clients/tv/common/ViewerSearch.ts:40-58 | One provider's turn adds exactly the claims of the external ids and of both candidates, in first-occurrence order. |
| SearchIdentity.CollectCandidate | clients/tv/common/ViewerSearch.ts:48-57 | One candidate adds its namespaced or bare IMDb claim, or nothing. |
| SearchIdentity.CanonicalPrefersProviders | clients/tv/common/ViewerSearch.ts:40-63 | The representative key is a provider identity whenever the item claims one, and the opaque addon key otherwise. |
| SearchClosure.Filter | clients/tv/common/ViewerSearch.ts:249-255 | The filter loop computes the unseen items and the enlarged set of known identities. |
| SearchClosure.MergeViewerSearchItems | clients/tv/common/ViewerSearch.ts:68-81 | The merge appends exactly the incoming items not seen among the current ones or before. |
| SearchClosure.MergeBatches | clients/tv/common/ViewerSearch.ts:240-240 | The loop over batches is the iterated merge. |
| SearchClosure.DropSpeculative | clients/tv/common/ViewerSearch.ts:270-272 | The backward splice loop keeps exactly the batches that are not speculative, in order. |
| SearchClosure.RememberBatches | clients/tv/common/ViewerSearch.ts:273-277 | The known identities are rebuilt from the batches that stay. |
| SearchClosure.Publisher.Flush | clients/tv/common/ViewerSearch.ts:234-247 | The in-place flush takes the closure state to the specified one, frame included. |
| SearchClosure.Publisher.TakeSnapshot | clients/tv/common/ViewerSearch.ts:226-233 | The snapshot prefers terminal metadata, then the semantic page, then the defaults. |
| SearchClosure.Publisher.Enqueue | clients/tv/common/ViewerSearch.ts:248-263 | The in-place enqueue takes the closure state to the specified one. |
| SearchClosure.Publisher.CancelUpdates | clients/tv/common/ViewerSearch.ts:264-268 | Cancelling clears the timer and the pending batches and nothing else. |
| SearchClosure.Publisher.DiscardPendingSpeculation | clients/tv/common/ViewerSearch.ts:269-282 | The in-place discard takes the closure state to the specified one. |
| SearchClosure.Workers.constructor | clients/tv/common/ViewerSearch.ts:183-202 | Reserves calls from the shared budget and starts the workers as specified. |
| SearchClosure.Workers.Turn | clients/tv/common/ViewerSearch.ts:188-190 | A worker takes the next index unless the phase is aborted or exhausted. |
| SearchClosure.Workers.Settle | clients/tv/common/ViewerSearch.ts:191-200 | A settled call stores its outcome, tells whether to hand it on, and its worker goes on. |
| ProgressQueue.RequestsCarryWhatIsOwed | web/src/media.tsx:2974-3041 | For every interleaving of calls, replies, conflicts and failures, each request carries the position and duration of the latest call for its title, and completed=true exactly when a call or a record read back was completed since the title was last at rest. |
| ProgressQueue.OneDrainAtATime | web/src/media.tsx:2982-3054 | At every await at most one drain runs, it is the one behind the request reference, and no write waits without it. |
| ProgressQueue.EveryCallIsSent | web/src/media.tsx:2994-3041 | No call is forgotten: once its title no longer waits, a request was sent for the title after the call. |
| ProgressQueue.SoloNeverConflicts | web/src/media.tsx:2982-3047 | With one title, no other writer, no failed request and a version in sync at the start, every request names the server's version; no conflict occurs in any run. |
| ProgressVersions.RequestsNameDueVersion | web/src/media.tsx:2982-3047 | In every run each request names the version due for its title: a retry exactly the version read back, 0 where nothing is stored; otherwise the one last saved for the title, or shown at its latest call, whichever is later. |
| ProgressVersions.RetryIsSavedUnlessOvertaken | web/src/media.tsx:3009-3040 | Against a server with other writers, a retry is saved if and only if no other write to its title landed between the read and the retry, and is otherwise rejected without effect. |
| ProgressVersions.RunVersions | web/src/media.tsx:2974-3054 | Every run keeps the correspondence between the version reference, the waiting writes and the log. |
| ProgressVersions.CallIsLogged | web/src/media.tsx:2974-2982 | A call with a title and a positive duration queues the whole seconds of its position, or of the duration when completed, and none below one second. |
| ProgressVersions.OtherCallsDoNothing | web/src/media.tsx:2977-2979 | Without a title or a positive duration a call changes nothing. |
| ProgressQueue.RegisterHoldsLatestCall | web/src/media.tsx:2982-2990 | What is owed for a title is the position and duration of the latest call. |
| ProgressQueue.RegisterCompletedExactly | web/src/media.tsx:2172-2174 | What is owed is completed exactly when something completed since the title was last at rest. |
| ProgressQueue.RestIsVisible | web/src/media.tsx:2983-2991 | A title is at rest exactly when it is neither waiting nor being sent. |
| ProgressQueue.RunInv | web/src/media.tsx:2974-3054 | Every run keeps the invariant that ties queue, request reference and drain to the per-title registers. |
| ProgressPlayer.Player.PersistProgress | web/src/media.tsx:2974-2992 | A call updates the pending map by coalescing as specified and starts a drain only when no request is out. |
| ProgressPlayer.Player.TakeNext | web/src/media.tsx:2995-2999 | The loop head takes the oldest pending write and makes it the request, or ends the drain. |
| ProgressPlayer.Player.EndRequest | web/src/media.tsx:3050-3053 | The request reference is cleared and the drain goes on. |
| ProgressPlayer.Player.UpdateSucceeded | web/src/media.tsx:3042-3047 | A saved write renews the version of the current title and of a waiting write. |
| ProgressPlayer.Player.UpdateRejected | web/src/media.tsx:3009-3013 | A first conflict leads to a refresh; any other failure ends the request. |
| ProgressPlayer.Player.Refreshed | web/src/media.tsx:3014-3040 | After a refresh the stored completion and a waiting write are merged in and one retry is sent at the stored version. |
| ProgressPlayer.Player.RefreshRejected | web/src/media.tsx:3015-3018 | A failed refresh ends the request. |
| ProgressPlayer.Player.Handle | web/src/media.tsx:2974-3054 | The in-place code for any event takes the player to the specified state. |
| ProgressPlayer.RunPlayer | web/src/media.tsx:2974-3054 | The in-place code over a whole sequence of events ends in the state of the model's run. |
| CommandPolling.HandledIsPrefixOfLog | web/src/playbackCoordination.ts:106-125 | Across failures, visibility changes and effect restarts, the commands handled are exactly the first commands of the server's log: none skipped, repeated or reordered. |
| CommandPolling.ActionsFitCommands | web/src/playbackCoordination.ts:81-100 | In every run the i-th handling is of the i-th command of the log, and is decided by its status, its expiry at that moment, its kind and the player: nothing already settled or expired is ever loaded or dispatched, each outcome in both directions. |
| CommandDelivery.FetchedCommandsAreHandled | web/src/playbackCoordination.ts:112-118 | A poll of an active effect that receives the commands up to some point handles one at once and one more with each execution that succeeds, until all of them are handled, unless an execution fails or the effect ends. |
| CommandDelivery.PollEndsForAReason | web/src/playbackCoordination.ts:111-124 | In every run a poll ends only because everything it fetched is handled, its request or an execution failed, or its effect ended. |
| CommandDelivery.PollsOnlyWhenWanted | web/src/playbackCoordination.ts:106-112 | In every run a poll starts only for an active effect on a visible page, and asks from the cursor. |
| CommandPolling.OnePollAtATime | web/src/playbackCoordination.ts:109-124 | At most one poll is past the in-flight guard, whichever effect started it, and the guard is set exactly then. |
| CommandPolling.PollingContinues | web/src/playbackCoordination.ts:101-143 | While an effect is active and the page visible, its poll timer is armed or its own poll is in flight. |
| CommandPolling.RunInv | web/src/playbackCoordination.ts:57-144 | Every run of effects, timers, responses and failures keeps the invariant behind these. |
| CommandPolling.AfterCursor | web/src/playbackCoordination.ts:112-115 | In a log with distinct ids the stretch after a handled prefix starts where the prefix ends. |
| CommandPoller.Coordination.SchedulePoll | web/src/playbackCoordination.ts:101-105 | Arms the effect's timer only while it is active and the page visible. |
| CommandPoller.Coordination.Poll | web/src/playbackCoordination.ts:106-112 | Passes the guard at most once and otherwise re-arms the timer. |
| CommandPoller.Coordination.Resume | web/src/playbackCoordination.ts:126-131 | Clears the timer and polls at once on a visible page. |
| CommandPoller.Coordination.Release | web/src/playbackCoordination.ts:121-124 | Releases the guard and schedules the effect's next poll. |
| CommandPoller.Coordination.Advance | web/src/playbackCoordination.ts:113-118 | Moves the cursor before executing a command and stops when the effect has ended. |
| CommandPoller.Coordination.Handle | web/src/playbackCoordination.ts:57-144 | The in-place code for any event takes the page to the specified state. |
| CommandPoller.RunPage | web/src/playbackCoordination.ts:57-144 | The in-place code over a whole sequence of events ends in the state of the model's run, so what holds of every run holds of the code. |
| UniqueJson.ConsumeTokens | clients/update/manifest.go:288-330 | For every JSON document, the streaming check consumes exactly its tokens if no object at any depth repeats a key, and fails otherwise (section 4 of RFC 8259). |
| UniqueJson.AcceptedIsDocument | clients/update/manifest.go:288-330 | Whatever token stream the check accepts starts with the tokens of a document without repeated keys, and exactly those are consumed. |
| UniqueJson.UniqueIsLossless | clients/update/manifest.go:267-287 | A document has no repeated key exactly when decoding it into maps loses no member at any depth. |
| UniqueJson.MemberSurvives | clients/update/manifest.go:279-285 | Every member of an accepted object is found under its key after decoding. |
| UniqueJson.ConsumeUniqueJsonValue | clients/update/manifest.go:288-330 | The stateful decoder consumes one value as specified. |
| UniqueJson.ConsumeUniqueMembers | clients/update/manifest.go:298-318 | The object loop with its map of seen keys consumes the members as specified. |
| UniqueJson.ConsumeUniqueItems | clients/update/manifest.go:319-326 | The array loop consumes the items as specified. |
| ManifestGeneration.GenerateThenValidate | clients/update/manifest.go:106-287 | If generation accepts options, then whatever order its fields are written in, the text decodes to a manifest that is valid, and that meets given expectations if and only if each text they give is the one generated from and each file they name has the same name, size, digest and bundled executables. |
| ManifestGeneration.GeneratedIsAccepted | clients/update/manifest.go:245-257 | A text for the generated manifest exists and is accepted by validation while the files are unchanged. |
| ManifestGeneration.BuiltIsExpected | clients/update/manifest.go:657-749 | The manifest assembled from some options meets the expectations of others if and only if each text they give is the same and each file they name is unchanged. |
| ManifestGeneration.ExpectedSurvivesWire | clients/update/manifest.go:657-749 | Comparing with expected values gives the same verdict for a manifest in memory and for its decoded text. |
| ManifestAcceptance.BuildSucceeds | clients/update/manifest.go:106-191 | Generation succeeds if and only if the files are readable within their limits, carry the release's names and addresses, and the release's own values are well formed: the generator's constants are those the validator demands. |
| ManifestAcceptance.SpecialIsValid | clients/update/manifest.go:206-243 | The fixed fields of each package kind satisfy the validator of that kind; only the Android identity values and the bundled digests are left to check. |
| ManifestAcceptance.BuiltCommonIsValid | clients/update/manifest.go:630-655 | The common fields pass exactly for the expected file name, the exact release address and a well-formed digest. |
| ManifestConverse.ValidIsGenerated | clients/update/manifest.go:332-416 | The converse: a manifest is valid if and only if its document is one that the generator writes for some files and options, so every field of an accepted manifest is pinned. |
| ManifestConverse.PackageDetermined | clients/update/manifest.go:490-655 | Two valid packages of one kind and release with the same size, digest and, for Android and Windows, identity values and executables are written alike. |
| ManifestConverse.RootDetermined | clients/update/manifest.go:426-477 | Two valid roots with the same version, time and packages are written alike. |
| ManifestConverse.CanonicalDecimal | clients/update/manifest.go:969-978 | A number text that is accepted is the decimal notation of its number. |
| Manifest.VerdictSurvivesWire | clients/update/manifest.go:332-416 | For every value, the validator's verdict does not depend on int or int64 versus json.Number, or []string versus []any. |
| Manifest.PackageSurvivesWire | clients/update/manifest.go:490-655 | The same for each package validator. |
| Manifest.RootSurvivesWire | clients/update/manifest.go:426-488 | The same for the schema version, the release fields and the channel. |
| ManifestValues.IntegersSurviveWire | clients/update/manifest.go:969-1011 | The three integer helpers give the same answer for a number in memory and for its decimal text. |
| ManifestValues.StringsSurviveWire | clients/update/manifest.go:926-945 | Reading a list of strings gives the same answer for []string and for the decoded []any. |
| ManifestValues.WrittenIsDecoded | clients/update/manifest.go:267-287 | A written value passes the duplicate-key check and decodes to its wire form. |
| ManifestValues.WritingExists | clients/update/main.go:131-146 | Every value has a JSON document. |
| ManifestValues.RequireStringArray | clients/update/manifest.go:926-956 | The loops accept exactly a list, of either type, that equals the expected strings. |
| ManifestValues.RejectUnknownFields | clients/update/manifest.go:878-892 | The loops accept exactly objects whose fields are all allowed, in whatever order they are visited. |
| WindowsBundle.BundleIsComplete | clients/update/manifest.go:777-823 | Pigeonhole: three entries with distinct expected names are all three, each with the metadata of its own entry and a size within the limit. |
| WindowsBundle.BundleIsAccepted | clients/update/manifest.go:787-818 | A bundle is accepted if and only if it has three entries, all regular, deflated and read to their declared size within the limit, and each expected name occurs. |
| WindowsBundle.ReadEntries | clients/update/manifest.go:787-821 | The loop over the archive, with its two maps, accepts exactly runs of acceptable entries without a repeated name and returns their metadata. |
| WindowsBundle.WindowsBundleMetadata | clients/update/manifest.go:777-823 | The metadata of the bundle, or failure, as specified. |
| SemVer.ChannelFollowsPreRelease | clients/update/manifest.go:479-488 | For every version in the grammar, the demanded channel is prerelease if and only if a pre-release part is present, whatever hyphens the build metadata contains (sections 9 and 10 of Semantic Versioning 2.0.0). |
| SemVer.NumericIsDecimal | clients/update/manifest.go:42-42 | The numeric parts are exactly the decimal notations of numbers, and so are pre-release identifiers of digits only (section 9 of Semantic Versioning 2.0.0). |
| SemVer.PreReleaseIsDetermined | clients/update/manifest.go:42-42 | Whether a version has a pre-release part does not depend on how the string is taken apart. |
| MetadataCache.ChangedIsScheduledOnce | web/src/metadataCache.ts:175-214 | In every run of a page no alias dangles, and a document changed since it was last loaded or persisted has exactly one scheduled callback; without a pending write there is none. |
| MetadataCache.PendingIsWritten | web/src/metadataCache.ts:186-207 | Leaving the page, and each callback that ends the wait, stores a document that loads as the one in memory and leaves nothing scheduled. |
| MetadataCache.ClearingForgets | web/src/metadataCache.ts:243-252 | After any run, clearing makes what follows the run of a new page, with an empty store or, where the browser refuses, the store as it was: no callback survives that could write the cleared document. |
| MetadataCache.ClearedStaysEmpty | web/src/metadataCache.ts:243-252 | After clearing, whatever fires, the store stays empty until another item is cached. |
| MetadataCache.LoadedIsValid | web/src/metadataCache.ts:45-69 | Whatever the store holds, the loaded document has no dangling alias. |
| MetadataCache.LoadedExactly | web/src/metadataCache.ts:45-69 | Of a stored document of version 2 exactly the entries with a finite time and an object as value are loaded, and the aliases that name one of those; of anything else, nothing. |
| MetadataCache.WrittenLoads | web/src/metadataCache.ts:45-69 | A document that is written and loaded again is the same document. |
| MetadataCache.RunInv | web/src/metadataCache.ts:175-252 | Every run keeps the correspondence between the module's handles, the browser's callbacks and the pending flag. |
| MetadataCache.LoadDocument | web/src/metadataCache.ts:52-64 | The two loops load exactly the well-formed entries and the aliases with an existing target. |
| MetadataCache.FindCachedEntry | web/src/metadataCache.ts:103-111 | The loop finds the first key that resolves to an unexpired snapshot. |
| MetadataCache.PointAliases | web/src/metadataCache.ts:234-239 | The loop points every key at the target and reports exactly whether an alias changed. |
| MetadataCache.Module.CacheDocument | web/src/metadataCache.ts:45-69 | Loads the document once. |
| MetadataCache.Module.CancelScheduledPersistence | web/src/metadataCache.ts:175-184 | Cancels the timer and the idle callback it knows of. |
| MetadataCache.Module.SchedulePersistence | web/src/metadataCache.ts:192-208 | Replaces whatever was scheduled by one timer. |
| MetadataCache.Module.PersistLoaded | web/src/metadataCache.ts:159-173 | Evicts in memory, and writes what is left where the browser allows. |
| MetadataCache.Module.OnTimer | web/src/metadataCache.ts:195-207 | The debounce callback hands over to an idle callback, or persists. |
| MetadataCache.Module.OnIdle | web/src/metadataCache.ts:198-202 | The idle callback persists. |
| MetadataCache.Module.FlushMetadataCache | web/src/metadataCache.ts:186-191 | Persists at once if a write is pending. |
| MetadataCache.Module.CacheMediaItem | web/src/metadataCache.ts:216-241 | Stores the details under every key of the item and schedules a write exactly when the document changed. |
| MetadataCache.Module.CachedMediaItem | web/src/metadataCache.ts:117-143 | Returns the item completed from the first unexpired snapshot among its keys. |
| MetadataCache.Module.ClearMetadataCache | web/src/metadataCache.ts:243-252 | Cancels, forgets the document and empties the store. |
| MetadataDocument.StoredResolves | web/src/metadataCache.ts:216-241 | Storing keeps every alias valid, and right after it every key of the item resolves in one step to the same unexpired snapshot, the new details over what was known. |
| MetadataDocument.StoredDetailsAreReturned | web/src/metadataCache.ts:117-157 | An item looked up right after it was stored shows every populated text, every finite vote value, and the genres and cast of the stored details. |
| MetadataDocument.LookupKeysAreStored | web/src/metadataCache.ts:75-101 | The keys of a lookup are among the keys of a store with a resolved title. |
| MetadataDocument.StoredKeepsKnown | web/src/metadataCache.ts:216-226 | A partial refresh keeps every field that the new details leave out, and adds none that neither has. |
| MetadataDocument.OverlayKeepsOwn | web/src/metadataCache.ts:117-143 | What the cache does not know is shown as the item itself has it. |
| MetadataDocument.LookupIsFresh | web/src/metadataCache.ts:103-111 | A key leads to a snapshot if and only if it resolves to it in one step and it is at most thirty days old. |
| MetadataDocument.IdentitiesExactly | web/src/metadataCache.ts:75-101 | An item is kept under an identity if and only if a title id, an external id, or its resource within each source it names, or alone where it names none, stands for it. |
| MetadataDocument.SharedKeyMeansSame | web/src/metadataCache.ts:75-101 | Two items share a key only in one language, for one media type and with one identity, for locales and types without a bar. |
| MetadataDocument.TitleKeyComesFirst | web/src/metadataCache.ts:77-82 | The key under which a new snapshot is stored is that of the resolved title, else of the item's own, wherever there is one. |
| MetadataDocument.PersistKeepsNewest | web/src/metadataCache.ts:159-167 | Persisting leaves at most 256 snapshots, all unexpired, none older than an unexpired one it drops, drops an unexpired one only when full, and leaves no dangling alias. |
| MetadataDocument.PersistKeepsLookups | web/src/metadataCache.ts:159-167 | A key whose target was kept resolves as before; a key whose target was dropped stands for itself. |
| MetadataDocument.PersistSameOrMiss | web/src/metadataCache.ts:159-167 | A lookup after persisting is the same as before or a miss if and only if the target of the key was kept or the key has no kept snapshot of its own. |
| MetadataDocument.EvictionExposesOwn | web/src/metadataCache.ts:159-167 | In every full document whose oldest snapshot is the target of an alias with a snapshot of its own, persisting changes the lookup from the target to that other snapshot. |
| MetadataDocument.EvictionCanExposeAnother | web/src/metadataCache.ts:159-167 | One such document of 257 snapshots, with the lookup before and after. |
| Routes.PrintParsePrint | web/src/App.tsx:224-242 | For every item and context whose route ids are non-empty and no dot segments, the printed path survives the browser and is read with no stored item; the item read has the same ids, season and episode, and prints the same path, if and only if the ids that the code trims are trimmed already, or blank and found again elsewhere. Trimmed ids always survive. |
| Routes.ItemHasRoute | web/src/App.tsx:78-163 | The same for the item made of a route: exactly when its texts survive trimming. |
| Routes.UntrimmedIdMoves | web/src/App.tsx:130-145 | A channel whose id is a space and x is read back as another channel. |
| Routes.RouteIsReadBack | web/src/App.tsx:89-163 | A printed route is read back if and only if none of its texts is empty or a dot segment. |
| Routes.EnteredPathHasCanonicalForm | web/src/App.tsx:89-163 | Whatever path is entered, the route it is read as has a printed path that is read as the same route. |
| Routes.PathsDiffer | web/src/App.tsx:224-242 | Printed paths are equal exactly for equal routes, whatever texts they name. |
| Routes.ReloadKeepsPath | web/src/App.tsx:94-129 | With the item itself in the browser history, reloading leads to the same path if and only if the series id survives trimming and the item is not a series with a whole season, a whole episode number and a continueEpisodeNumber that is a number but not a whole one. |
| Routes.WholeEpisodesReload | web/src/App.tsx:94-129 | With a continueEpisodeNumber that is whole or absent and a trimmed series id, reloading always keeps the path. |
| Routes.StaleEpisodeAppears | web/src/App.tsx:105-127 | A series with a fractional continueEpisodeNumber and the episode number 2: its path names no episode, and after a reload it does. |
| Routes.ImdbIdsAgree | web/src/App.tsx:73-76 | IMDb route ids are equal if and only if the titles agree up to case and outer white space, and there is one exactly for an IMDb title. |
| Routes.EpisodeIdNamesSeries | web/src/App.tsx:78-86 | The series of an episode id in the form the parser gives it is recovered by the pattern. |
| Routes.DecimalIsFaithful | web/src/App.tsx:95-97 | Decimal notation satisfies what is asked of number printing and reading. |
| Routes.MediaRouteUrl | web/src/App.tsx:224-242 | Appending the pieces gives the path of the item's route. |
| Routes.SeriesUrl | web/src/App.tsx:228-236 | The series branch appends a season, and an episode only after a season, where they are whole numbers. |
| Routes.CleanMediaRoute | web/src/App.tsx:89-163 | The parser's branches give the item of the route that the path names, or none. |
| Routes.ReadSeasonItem | web/src/App.tsx:94-129 | The season branch fills in the fields of the fresh or stored item as specified. |
| PercentEncoding.RestoreIsAligned | web/src/App.tsx:70-72 | For every text, rewriting %3A to a colon after encoding equals encoding that leaves the text's own colons alone: no misaligned escape is touched (section 2.1 of RFC 3986). |
| PercentEncoding.DecodeUndoesEncode | web/src/App.tsx:54-72 | Decoding undoes both the plain and the route encoding, for every text, through UTF-8. |
| UrlPath.PlainPathIsKept | web/src/App.tsx:90-90 | A path of plain segments is kept by the browser, and splitting it gives the segments back. |
| UrlPath.BrowserSegmentsArePlain | web/src/App.tsx:90-90 | Whatever the path, the non-empty segments a browser shows contain no dot segment. |
| StableJson.StableIsCanonical | web/src/homeCache.ts:68-73 | Two JSON values have equal stable text if and only if they are equal up to the order of object members. |
| StableJson.StablePrints | web/src/homeCache.ts:68-73 | The stable text of a document depends only on its decoded value. |
| StableJson.PrintPrefixFree | web/src/homeCache.ts:68-73 | No stable text is a proper prefix of another within a larger text, so the text determines the value. |
| HomeCache.SignatureDecides | web/src/homeCache.ts:75-77 | Signatures are equal exactly for collections equal up to member order, and then the same collections are cached whole. |
| HomeCache.FolderWriteKeepsFolders | web/src/homeCache.ts:174-180 | Caching one folder keeps the old folders exactly when the collections are the same up to member order; kept folders stay as they were, in order, and a folder without an id is not cached. |
| HomeCache.ProjectionIdempotent | web/src/homeCache.ts:131-139 | Projecting twice is projecting once, and the folder keeps its key. |
| HomeCache.CachedFolderShows | web/src/homeCache.ts:131-143 | A folder of a collection that follows the layout is cached whole; of any other exactly its first five items are, and where that leaves some out it claims page 0 and more to come. |
| HomeCache.DirectFollowsLayout | web/src/homeCache.ts:142-142 | A collection is cached whole if and only if its document says that it follows the layout. |
| HomeCache.FoldersOfStored | web/src/homeCache.ts:141-143 | Rewriting stored folders projects each in place and changes nothing else. |
| HomeCache.WriteHomeCache | web/src/homeCache.ts:141-160 | The eviction loop ends within the limit or with no folders, keeping the longest initial run that fits, all of it projected and under its own keys. |
| HomeCache.WriteHomeFolderCache | web/src/homeCache.ts:174-180 | The folder write keeps the longest initial run that fits of the kept folders and the new one. |
| ReadingQueue.CachedQueuesAreGenuine | web/src/readingQueue.ts:45-76 | With any number of clients and replies delayed, lost or overtaken, and whatever the server's queues were before, every cached queue is the server's queue at that revision, and each new revision differs from the one before by one adjacent swap, one item appended, or one item removed. |
| ReadingQueue.ReorderIsOneSwap | web/src/readingQueue.ts:96-105 | A reorder that reaches the server is accepted if and only if it expects the current revision; then it swaps two neighbours of the current queue and neither loses nor doubles an item. |
| ReadingQueue.MarksDoNotStick | web/src/readingQueue.ts:45-76 | In every run a client that shows itself loading has a fetch outstanding, and one that shows itself busy has a mutation outstanding, whatever fails or overlaps. |
| ReadingQueue.RunInv | web/src/readingQueue.ts:45-105 | Every run keeps the invariant on cached queues, replies under way and requests under way. |
| ReadingQueue.MoveIsSwap | web/src/readingQueue.ts:96-103 | The ids that a move sends are those of its queue with two neighbours swapped. |
| ReadingQueue.MoveGoesOnePlace | web/src/readingQueue.ts:96-103 | A moved item changes places with the next one later or earlier, as asked, all others stay, and there is no move if and only if it is at that end. |
| ReadingQueue.MissingIsNotMoved | web/src/readingQueue.ts:97-99 | An item that is not in the queue is not moved. |
| ReadingQueue.ConflictStaysShown | web/src/readingQueue.ts:67-71 | A conflict stays shown while the queue is fetched again, until the next refresh or change begins. |
| ReadingQueue.SwapProperties | server/internal/readingqueue/service.go:122-140 | The server accepts such ids and arranges its items by the same swap. |
| ReadingQueue.WorkIsChange | server/internal/readingqueue/service.go:58-170 | Each accepted request is one swap, addition or removal and keeps ids distinct. |
| ReadingQueue.MoveIds | web/src/readingQueue.ts:97-103 | The search and the swap in place give the moved ids, or nothing at an end or for a missing item. |
| ReadingQueue.States.BeginRefresh | web/src/readingQueue.ts:45-47 | Publishes the loading state of one profile and leaves the others alone. |
| ReadingQueue.States.BeginMutate | web/src/readingQueue.ts:62-66 | Up to its first request: busy, then the action on the cached queue or a fetch. |
| ReadingQueue.States.Perform | web/src/readingQueue.ts:78-105 | The request carries the revision of the queue it was computed from. |
| ReadingQueue.States.OnFetched | web/src/readingQueue.ts:48-52 | Publishes a fetched queue and goes on with the action that waited for it. |
| ReadingQueue.States.OnAnswered | web/src/readingQueue.ts:65-71 | After an answer: refresh, conflict refresh that keeps the conflict mark, or failure. |
| ReadingQueue.States.OnFailed | web/src/readingQueue.ts:52-75 | After a lost call: the error that the purpose of the call calls for. |

## Left out

- React rendering, focus, DOM and media elements, HLS, network code, signatures and their cryptography, translations and the Swift packages: foreign objects or no state worth a proof.
- Full Unicode: lower-casing covers ASCII letters; characters are Unicode scalar values rather than UTF-16 units, so lone surrogates, the 1024-unit clip inside a surrogate pair and the UTF-16 order of object keys beyond the basic plane are not modelled.
- Object identity: media items are compared by value where the search compares references, and lists handed to the listener are values, so mutation by a listener is not modelled; neither is a listener that calls back into the search.
- SearchLoss: items are numbers with two identities; the run is one of the generic search that `ViewerSearch` instantiates.
- ViewerSearch: the semantic deadline is one of the possible semantic answers, and an update list that the caller keeps is not modelled beyond its value. The classes of `SearchClosure` are proved one operation at a time; their composition over a run is at the level of the specification. The intent field `label` is called `caption`.
- SearchIdentity: external ids are given in enumeration order, and an absent resource id or addon id is distinguished as the code distinguishes it.
- ProgressQueue: the last saved position, notifications, and the choice between declared and media duration are inputs or omitted; positions are integers after rounding down.
- IdentityLaws.SharedIdentityIsSameTitle: with a colon in a type, or in the addon or catalogue of an item that no provider knows, identities of different items can be equal; the families are given, a condition on the pair beyond the absence of colons is not.
- ProgressVersions.RetryIsSavedUnlessOvertaken: a write that lands after its caller has given up counts as one of another writer.
- ProgressQueue.SoloNeverConflicts: its runs have no failed request; a reply that is lost after the server has saved leaves the version behind, and the next request conflicts.
- ProgressPlayer.Player: a suspended drain is a field holding its local variable instead of a coroutine.
- CommandPolling: heartbeats, poll delays and the completion reports' own failures beyond ending the poll; a response is assumed to be the stretch of the log after the cursor, and a command's action is recorded when it starts.
- UniqueJson: works on tokens; the byte-level scanner of the standard library and its error texts are not modelled.
- ManifestValues.WritingExists: shows that a document exists; that the encoder sorts fields and escapes characters is covered by allowing any order and by taking strings as decoded.
- Manifest.VerdictSurvivesWire: error messages are not modelled, only acceptance; texts are valid Unicode.
- ManifestGeneration.GenerateThenValidate: file reading is a map from paths to contents' size, digest and archive entries; paths follow the slash convention.
- SemVer.ChannelFollowsPreRelease: the pattern is modelled as the grammar it describes, not by a regular-expression engine.
- MetadataDocument: the clock is read once in an operation; `updatedAt` is an integer; entry values are typed snapshots, and arbitrary properties of a damaged entry are not kept; object keys that name built-in prototype members are not modelled.
- MetadataDocument.SharedKeyMeansSame: a bar in a locale or type can make keys of different ones equal.
- MetadataDocument.StoredDetailsAreReturned: external ids are in the model but not in this statement.
- MetadataCache.Module.CacheMediaItem: the two branches for a previous entry under another key than the target cannot be taken, since the target is that key, and are not modelled.
- MetadataCache: a browser has both idle-callback functions or neither; the installation of the page listeners is not modelled, a flush may come at any time.
- Routes: the origin view, titles and the legacy hash routes; absent texts are empty ones; negative zero.
- StableJson: numbers are their JSON text, and values without JSON text (undefined, functions, not-a-number) are not values of the model.
- HomeCache: reading and validating a stored cache, demo profiles, and the fall-back between stores; a folder key made of digits only, which JavaScript would enumerate first, cannot arise because keys contain a colon.
- HomeCache.WriteHomeCache: the serialized length is an arbitrary function of the document.
- ReadingQueue: one profile on the server; title edits, operation identifiers and the retry window are not modelled, since every call uses a new identifier; consuming is removing.
- Custom video grouping, notification timers and the authentication boot effect.
