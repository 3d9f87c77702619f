/** The TV client's search: request planning, the closure state it updates in place, and the whole-run guarantees. */
module ViewerSearch {
  import opened Prelude
  import opened Text
  import opened Dedup
  import opened SearchIdentity
  import opened SearchPublication
  import opened AddonPool
  import opened SearchMachine
  import opened SearchDiscard
  import opened SearchOutcome

  // ---------------------------------------------------------------- planning

  datatype Request = Request(
    query: string, configuredTypes: seq<string>, semanticAvailable: bool,
    mediaType: Option<string>, page: Option<int>, limit: Option<int>)

  function NormalizedAll(types: seq<string>): seq<string> {
    seq(|types|, i requires 0 <= i < |types| => Normalized(types[i]))
  }

  function Keep(types: seq<string>, allowed: set<string>): seq<string> {
    if types == [] then []
    else Keep(types[..|types| - 1], allowed) + (if types[|types| - 1] in allowed then [types[|types| - 1]] else [])
  }

  function NonEmpty(types: seq<string>): seq<string> {
    if types == [] then []
    else NonEmpty(types[..|types| - 1]) + (if types[|types| - 1] != "" then [types[|types| - 1]] else [])
  }

  function ConfiguredTypes(r: Request): seq<string> {
    var available := Distinct(NonEmpty(NormalizedAll(r.configuredTypes)));
    var requested := Normalized(r.mediaType.GetOr(""));
    if requested == "" then available else Keep(available, {requested})
  }

  /** The final types and query: inferred types that are configured, and the residual title query. */
  function Refine(r: Request, page: Option<SemanticPage<MediaItem>>): (seq<string>, string) {
    var configured, query := ConfiguredTypes(r), Trim(r.query);
    match page
    case None => (configured, query)
    case Some(m) =>
      var inferred := Keep(configured, set t | t in NormalizedAll(m.mediaTypes));
      var residual := Trim(m.titleQuery);
      (if r.mediaType.GetOr("") == "" && inferred != [] then inferred else configured,
       if |residual| >= 2 then residual else query)
  }

  function SetupOf(r: Request): Setup<MediaItem> {
    var limit := r.limit.GetOr(30);
    Setup(ConfiguredTypes(r), Trim(r.query),
          if r.page.GetOr(1) < 1 then 1 else r.page.GetOr(1),
          if limit < 1 then 1 else if limit > 40 then 40 else limit,
          r.semanticAvailable,
          page => Refine(r, page))
  }

  /** The state of a search for `r` after any sequence of outside events. */
  ghost function Search(r: Request, events: seq<Event<MediaItem>>): State<MediaItem> {
    Run(Ids, SetupOf(r), events)
  }

  lemma {:induction false} KeepSubset(types: seq<string>, allowed: set<string>)
    ensures forall t | t in Keep(types, allowed) :: t in types && t in allowed
  {
    if types != [] {
      KeepSubset(types[..|types| - 1], allowed);
    }
  }

  /** Without a semantic page the speculation is kept, and a page never adds a type that is not configured. */
  lemma PlanStaysConfigured(r: Request, page: Option<SemanticPage<MediaItem>>)
    ensures Keeps(SetupOf(r), None)
    ensures forall t | t in Refine(r, page).0 :: t in ConfiguredTypes(r)
  {
    if page.Some? {
      KeepSubset(ConfiguredTypes(r), set t | t in NormalizedAll(page.value.mediaTypes));
    }
  }

  // ---------------------------------------------------------------- what the plan is

  /** A type is configured if and only if it is listed, up to case and outer white space, is not blank, and is the one
      requested where one is; none is listed twice. */
  lemma ConfiguredExactly(r: Request, t: string)
    ensures NoRepeats(ConfiguredTypes(r))
    ensures t in ConfiguredTypes(r) <==>
            && t != "" && (exists i :: 0 <= i < |r.configuredTypes| && Normalized(r.configuredTypes[i]) == t)
            && (Normalized(r.mediaType.GetOr("")) != "" ==> t == Normalized(r.mediaType.GetOr("")))
  {
    var all := NormalizedAll(r.configuredTypes);
    var available := Distinct(NonEmpty(all));
    var requested := Normalized(r.mediaType.GetOr(""));
    NonEmptyExactly(all, t);
    if t in all {
      var i :| 0 <= i < |all| && all[i] == t;
      assert Normalized(r.configuredTypes[i]) == t;
    }
    if i :| 0 <= i < |r.configuredTypes| && Normalized(r.configuredTypes[i]) == t {
      assert all[i] == t;
    }
    if requested != "" {
      KeepExactly(available, {requested}, t);
      KeepNoRepeats(available, {requested});
    }
  }

  lemma {:induction false} NonEmptyExactly(types: seq<string>, t: string)
    ensures t in NonEmpty(types) <==> t in types && t != ""
  {
    if types != [] {
      NonEmptyExactly(types[..|types| - 1], t);
      assert types == types[..|types| - 1] + [types[|types| - 1]];
    }
  }

  lemma {:induction false} KeepExactly(types: seq<string>, allowed: set<string>, t: string)
    ensures t in Keep(types, allowed) <==> t in types && t in allowed
  {
    if types != [] {
      KeepExactly(types[..|types| - 1], allowed, t);
      assert types == types[..|types| - 1] + [types[|types| - 1]];
    }
  }

  lemma {:induction false} KeepNoRepeats(types: seq<string>, allowed: set<string>)
    requires NoRepeats(types)
    ensures NoRepeats(Keep(types, allowed))
  {
    if types != [] {
      var front, last := types[..|types| - 1], types[|types| - 1];
      KeepNoRepeats(front, allowed);
      KeepExactly(front, allowed, last);
      forall i | 0 <= i < |front| ensures front[i] != last {
        assert types[i] != types[|front|];
      }
    }
  }

  /** Keeping types keeps their order. */
  lemma {:induction false} KeepInOrder(types: seq<string>, allowed: set<string>, i: nat, j: nat) returns (p: nat, q: nat)
    requires i < j < |Keep(types, allowed)|
    ensures p < q < |types| && types[p] == Keep(types, allowed)[i] && types[q] == Keep(types, allowed)[j]
  {
    var front := types[..|types| - 1];
    var kept := Keep(front, allowed);
    if j < |kept| {
      p, q := KeepInOrder(front, allowed, i, j);
    } else {
      KeepExactly(front, allowed, kept[i]);
      p :| 0 <= p < |front| && front[p] == kept[i];
      q := |types| - 1;
    }
  }

  predicate Infers(m: SemanticPage<MediaItem>, t: string) {
    exists i | 0 <= i < |m.mediaTypes| :: Normalized(m.mediaTypes[i]) == t
  }

  /** The final plan: the configured types that the page infers, if no type was requested and there are any, and otherwise
      all configured ones; the page's residual title if it has two characters or more, and otherwise the query. */
  lemma PlanExactly(r: Request, m: SemanticPage<MediaItem>, t: string)
    ensures var (types, query) := Refine(r, Some(m));
            var narrowed := r.mediaType.GetOr("") == "" && exists u :: u in ConfiguredTypes(r) && Infers(m, u);
            && (t in types <==> t in ConfiguredTypes(r) && (narrowed ==> Infers(m, t)))
            && (!narrowed ==> types == ConfiguredTypes(r))
            && query == (if |Trim(m.titleQuery)| >= 2 then Trim(m.titleQuery) else Trim(r.query))
    ensures Refine(r, None) == (ConfiguredTypes(r), Trim(r.query))
  {
    var all := NormalizedAll(m.mediaTypes);
    var inferred := set u | u in all;
    forall u ensures u in inferred <==> Infers(m, u) {
      if u in all {
        var i :| 0 <= i < |all| && all[i] == u;
        assert Normalized(m.mediaTypes[i]) == u;
      }
      if i :| 0 <= i < |m.mediaTypes| && Normalized(m.mediaTypes[i]) == u {
        assert all[i] == u;
      }
    }
    var kept := Keep(ConfiguredTypes(r), inferred);
    KeepExactly(ConfiguredTypes(r), inferred, t);
    if kept != [] {
      KeepExactly(ConfiguredTypes(r), inferred, kept[0]);
      assert kept[0] in ConfiguredTypes(r) && Infers(m, kept[0]);
    }
    if u :| u in ConfiguredTypes(r) && Infers(m, u) {
      KeepExactly(ConfiguredTypes(r), inferred, u);
    }
  }

  /** Page and limit are those asked for, brought into range: a page from 1, a limit from 1 to 40, and 30 by default. */
  lemma RequestIsClamped(r: Request)
    ensures var s := SetupOf(r);
            && s.page >= 1 && (r.page.Some? && r.page.value >= 1 ==> s.page == r.page.value) && (r.page.GetOr(1) <= 1 ==> s.page == 1)
            && 1 <= s.limit <= 40 && (r.limit.Some? && 1 <= r.limit.value <= 40 ==> s.limit == r.limit.value)
            && (r.limit.None? ==> s.limit == 30)
            && (r.limit.Some? && r.limit.value < 1 ==> s.limit == 1) && (r.limit.Some? && r.limit.value > 40 ==> s.limit == 40)
            && s.types == ConfiguredTypes(r) && s.query == Trim(r.query) && s.semanticAvailable == r.semanticAvailable
  {
  }

  // ---------------------------------------------------------------- whole-run guarantees

  /** In every reachable state no two collected items share an identity, and every identity collected is known. */
  lemma {:induction false} CollectedItemsStayApart(r: Request, events: seq<Event<MediaItem>>)
    ensures var p := Search(r, events).pub;
            var items := p.published + Flatten(p.pending);
            && (forall i, j | 0 <= i < j < |items| :: Ids(items[i]) !! Ids(items[j]))
            && (forall i | 0 <= i < |items| :: Ids(items[i]) <= p.known)
  {
    RunInv(Ids, SetupOf(r), events);
    var p := Search(r, events).pub;
    var items := p.published + Flatten(p.pending);
    forall i, j | 0 <= i < j < |items| ensures Ids(items[i]) !! Ids(items[j]) {
      ApartPair(Ids, items, i, j);
    }
    forall i | 0 <= i < |items| ensures Ids(items[i]) <= p.known {
      IdsAllContains(Ids, items, i);
    }
  }

  /** So a flush appends exactly the pending items, ordered by (order, sequence). */
  lemma {:induction false} FlushAppendsInOrder(r: Request, events: seq<Event<MediaItem>>, sorted: seq<Batch<MediaItem>>,
                            aborted: bool, terminal: Option<Terminal>)
    requires Ordered(sorted) && multiset(sorted) == multiset(Search(r, events).pub.pending)
    ensures var p := Search(r, events).pub;
            Flush(Ids, p, SetupOf(r).page, aborted, terminal).published == p.published + Flatten(sorted)
  {
    RunInv(Ids, SetupOf(r), events);
    var p := Search(r, events).pub;
    FlushAppends(Ids, p, SetupOf(r).page, aborted, terminal);
    OrderedIsUnique(sorted, Sort(p.pending));
  }

  /** A search that returns and kept its speculation returns exactly the first sightings among all arrivals;
      every arrival is linked to one of them by a chain of shared identities. */
  lemma {:induction false} ResultIsFirstSightings(r: Request, events: seq<Event<MediaItem>>)
    requires var s := Search(r, events);
             s.phase.Returned? && s.answer.Some? && Keeps(SetupOf(r), s.answer.value.page)
    ensures var s := Search(r, events);
            multiset(s.phase.result.items) == multiset(Select(s.pub.arrived, Sightings(Ids, s.pub.arrived)))
  {
    ReturnedFacts(Ids, SetupOf(r), events);
    UnseenIsSightings(Ids, Search(r, events).pub.arrived);
  }

  lemma {:induction false} EveryArrivalIsRepresented(r: Request, events: seq<Event<MediaItem>>, k: nat) returns (path: seq<nat>)
    requires var s := Search(r, events);
             && s.phase.Returned? && s.answer.Some? && Keeps(SetupOf(r), s.answer.value.page)
             && k < |s.pub.arrived|
    ensures var s := Search(r, events);
            && LeadsToSighting(Ids, s.pub.arrived, k, path)
            && s.pub.arrived[path[|path| - 1]] in s.phase.result.items
  {
    ReturnedFacts(Ids, SetupOf(r), events);
    path := SightingIsReturned(Ids, Search(r, events).pub.arrived, k, Search(r, events).phase.result.items);
  }

  /** A search that returns after throwing its speculation away returns exactly the first sightings of what stayed after
      the discard, followed by what the final phase brought. */
  lemma {:induction false} DiscardingSearchReturns(
    r: Request, before: seq<Event<MediaItem>>, a: SemanticAnswer<MediaItem>, after: seq<Event<MediaItem>>)
    requires Discards(SetupOf(r), Search(r, before), a)
    requires Search(r, before + [SemanticReply(a)] + after).phase.Returned?
    ensures var d, t := Search(r, before + [SemanticReply(a)]), Search(r, before + [SemanticReply(a)] + after);
            && |d.pub.arrived| <= |t.pub.arrived|
            && multiset(t.phase.result.items)
               == multiset(Unseen(Ids, {}, Gathered(d.pub) + t.pub.arrived[|d.pub.arrived|..]))
  {
    DiscardingResult(Ids, SetupOf(r), before, a, after);
  }

  /** No two items of a result have the same representative key, whatever the run. */
  lemma {:induction false} CanonicalKeysAreUnique(r: Request, events: seq<Event<MediaItem>>, i: nat, j: nat)
    requires var s := Search(r, events); s.phase.Returned? && i < j < |s.phase.result.items|
    ensures var items := Search(r, events).phase.result.items;
            CanonicalIdentity(items[i]) != CanonicalIdentity(items[j])
  {
    ReturnedFacts(Ids, SetupOf(r), events);
    var items := Search(r, events).phase.result.items;
    ApartPair(Ids, items, i, j);
    assert CanonicalIdentity(items[i]) in Ids(items[i]);
  }

  /** At most 16 addon calls are made, at most 4 are in flight over both phases, and no type is asked twice in one. */
  lemma {:induction false} CallsAreBounded(r: Request, events: seq<Event<MediaItem>>)
    ensures var s := Search(r, events);
            && Calls(s) <= MAX_CALLS && InFlight(s) <= MAX_CONCURRENCY
            && NoRepeats(s.spec.dispatched) && (s.final.Some? ==> NoRepeats(s.final.value.dispatched))
            && Filled(s.spec) && (s.final.Some? ==> Filled(s.final.value))
  {
    RunBounded(Ids, SetupOf(r), events);
  }

  /** A result that does not call itself partial is complete: the semantic search answered in full, and every type of
      the final plan was asked with the final query and answered without a failure or an error. */
  lemma {:induction false} UnpartialResultIsComplete(r: Request, events: seq<Event<MediaItem>>)
    requires Search(r, events).phase.Returned? && !Search(r, events).phase.result.partial
    ensures var s := Search(r, events);
            && s.answer.Some? && !s.answer.value.failed && (s.answer.value.page.Some? ==> !s.answer.value.page.value.partial)
            && var pool := Deciding(SetupOf(r), s);
            && (pool.types, pool.query) == Refine(r, s.answer.value.page)
            && |pool.outcomes| == |pool.types|
            && forall i | 0 <= i < |pool.types| ::
                 pool.outcomes[i].Some? && !pool.outcomes[i].value.failed && !pool.outcomes[i].value.hasErrors
  {
    RunInv(Ids, SetupOf(r), events);
    var s := Search(r, events);
    var pool := Deciding(SetupOf(r), s);
    IdleIsComplete(pool);
    AnswersOfComplete(pool.outcomes);
    forall i | 0 <= i < |pool.types| ensures !pool.outcomes[i].value.failed && !pool.outcomes[i].value.hasErrors {
      assert Answers(pool.outcomes)[i] == pool.outcomes[i].value;
    }
  }

  /** What a result reports: partial, and more to come, if and only if the answers behind it say so. */
  lemma {:induction false} ResultReports(r: Request, events: seq<Event<MediaItem>>)
    requires Search(r, events).phase.Returned?
    ensures var s := Search(r, events);
            && s.answer.Some?
            && var deciding := if Keeps(SetupOf(r), s.answer.value.page) || s.final.None? then s.spec else s.final.value;
            Reports(SetupOf(r), s.answer.value, deciding.outcomes,
                    Unasked(s.spec) || (s.final.Some? && Unasked(s.final.value)), s.phase.result)
  {
    ReturnedReports(Ids, SetupOf(r), events);
  }

  /** Updates only grow and never repeat, and a pending batch always has its timer. */
  lemma {:induction false} UpdatesGrow(r: Request, events: seq<Event<MediaItem>>)
    ensures Growing(Search(r, events).pub.updates)
    ensures Search(r, events).pub.pending != [] ==> Search(r, events).pub.timer
  {
    PublicationFacts(Ids, SetupOf(r), events);
  }

  /** A non-empty result is the last update. */
  lemma {:induction false} ResultIsLastUpdate(r: Request, events: seq<Event<MediaItem>>)
    requires Search(r, events).phase.Returned? && Search(r, events).phase.result.items != []
    ensures var s := Search(r, events);
            s.pub.updates != [] && s.pub.updates[|s.pub.updates| - 1] == s.phase.result
  {
    ReturnedFacts(Ids, SetupOf(r), events);
  }

  /** After cancellation no list is published any more. */
  lemma {:induction false} CancelledSearchIsSilent(r: Request, events: seq<Event<MediaItem>>, more: seq<Event<MediaItem>>)
    requires Search(r, events).aborted
    ensures Search(r, events + more).pub.updates == Search(r, events).pub.updates
    ensures !Search(r, events + more).phase.Returned?
  {
    AbortSilences(Ids, SetupOf(r), events, more);
    PublicationFacts(Ids, SetupOf(r), events + more);
  }
}
