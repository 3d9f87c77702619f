/** What a search reports, and where it comes from: the metadata of a result, and the answers behind arrivals and batches. */
module SearchOutcome {
  import opened Prelude
  import opened Dedup
  import opened SearchPublication
  import opened AddonPool
  import opened SearchMachine
  import opened SearchDiscard

  // ---------------------------------------------------------------- the metadata of a result

  predicate Failing<T>(o: Option<Outcome<T>>) {
    o.Some? && (o.value.failed || o.value.hasErrors)
  }

  predicate AtLimit<T>(limit: nat, o: Option<Outcome<T>>) {
    o.Some? && |o.value.items| >= limit
  }

  /** Some type of the phase got no call, because the budget was spent. */
  predicate Unasked<T>(p: Pool<T>) {
    |p.outcomes| < |p.types|
  }

  ghost predicate AnyFailing<T(!new)>(outcomes: seq<Option<Outcome<T>>>) {
    exists i | 0 <= i < |outcomes| :: Failing(outcomes[i])
  }

  ghost predicate AnyAtLimit<T(!new)>(limit: nat, outcomes: seq<Option<Outcome<T>>>) {
    exists i | 0 <= i < |outcomes| :: AtLimit(limit, outcomes[i])
  }

  /** What the metadata of a result say, in terms of the semantic answer and of the phases' answers. */
  ghost predicate Reports<T(!new)>(setup: Setup<T>, a: SemanticAnswer<T>, deciding: seq<Option<Outcome<T>>>, unasked: bool,
                                   r: SearchResult<T>)
  {
    && (r.partial <==> a.failed || (a.page.Some? && a.page.value.partial) || AnyFailing(deciding) || unasked)
    && (r.hasMore <==> (a.page.Some? && a.page.value.hasMore) || AnyAtLimit(setup.limit, deciding))
    && r.intents == (if a.page.Some? then a.page.value.intents else [])
    && r.mediaTypes == (if a.page.Some? then a.page.value.mediaTypes else [])
    && r.page == (if a.page.Some? then a.page.value.page else setup.page)
  }

  lemma FailingAnswers<T(!new)>(outcomes: seq<Option<Outcome<T>>>)
    requires forall i | 0 <= i < |outcomes| :: outcomes[i].Some?
    ensures var answers := Answers(outcomes);
            (exists i | 0 <= i < |answers| :: answers[i].failed || answers[i].hasErrors) <==> AnyFailing(outcomes)
  {
    AnswersOfComplete(outcomes);
    var answers := Answers(outcomes);
    if i :| 0 <= i < |outcomes| && Failing(outcomes[i]) {
      assert answers[i].failed || answers[i].hasErrors;
    }
    if i :| 0 <= i < |answers| && (answers[i].failed || answers[i].hasErrors) {
      assert Failing(outcomes[i]);
    }
  }

  lemma LimitAnswers<T(!new)>(limit: nat, outcomes: seq<Option<Outcome<T>>>)
    requires forall i | 0 <= i < |outcomes| :: outcomes[i].Some?
    ensures var answers := Answers(outcomes);
            (exists i | 0 <= i < |answers| :: |answers[i].items| >= limit) <==> AnyAtLimit(limit, outcomes)
  {
    AnswersOfComplete(outcomes);
    var answers := Answers(outcomes);
    if i :| 0 <= i < |outcomes| && AtLimit(limit, outcomes[i]) {
      assert |answers[i].items| >= limit;
    }
    if i :| 0 <= i < |answers| && |answers[i].items| >= limit {
      assert AtLimit(limit, outcomes[i]);
    }
  }

  lemma TerminalReports<T(!new)>(setup: Setup<T>, a: SemanticAnswer<T>, outcomes: seq<Option<Outcome<T>>>, truncated: bool,
                                 p: Publication<T>)
    requires forall i | 0 <= i < |outcomes| :: outcomes[i].Some?
    ensures Reports(setup, a, outcomes, truncated, Snapshot(p, setup.page, Some(TerminalOf(setup, a, Answers(outcomes), truncated))))
  {
    FailingAnswers(outcomes);
    LimitAnswers(setup.limit, outcomes);
  }

  lemma StateReports<T(!new)>(setup: Setup<T>, s: State<T>)
    requires PoolsOk(setup, s) && PhaseOk(setup, s) && s.phase.Returned?
    ensures s.answer.Some?
    ensures Reports(setup, s.answer.value, Deciding(setup, s).outcomes, Unasked(s.spec) || (s.final.Some? && Unasked(s.final.value)),
                    s.phase.result)
  {
    var pool := Deciding(setup, s);
    IdleIsComplete(pool);
    TerminalReports(setup, s.answer.value, pool.outcomes, s.budget.truncated, s.pub);
  }

  /** A returned search is partial if and only if the semantic search failed or was partial, an answer of the phase that
      decides failed or had errors, or a type of some phase got no call; it has more if and only if the semantic page has
      or an answer is as long as the limit; its other metadata are the page's, or the defaults. */
  lemma {:induction false} ReturnedReports<T(!new)>(ids: T -> set<string>, setup: Setup<T>, events: seq<Event<T>>)
    requires Run(ids, setup, events).phase.Returned?
    ensures var s := Run(ids, setup, events);
            && s.answer.Some?
            && var deciding := if Keeps(setup, s.answer.value.page) || s.final.None? then s.spec else s.final.value;
            Reports(setup, s.answer.value, deciding.outcomes, Unasked(s.spec) || (s.final.Some? && Unasked(s.final.value)), s.phase.result)
  {
    RunInv(ids, setup, events);
    StateReports(setup, Run(ids, setup, events));
  }

  // ---------------------------------------------------------------- the metadata of an update

  /** An update before the semantic page is known promises nothing more. */
  predicate TellsNothing<T>(setup: Setup<T>, u: SearchResult<T>) {
    u.intents == [] && u.mediaTypes == [] && u.page == setup.page && !u.hasMore && !u.partial
  }

  predicate TellsPage<T>(m: SemanticPage<T>, u: SearchResult<T>) {
    u.intents == m.intents && u.mediaTypes == m.mediaTypes && u.page == m.page && u.hasMore == m.hasMore && u.partial == m.partial
  }

  ghost predicate Tells<T(!new)>(setup: Setup<T>, s: State<T>, u: SearchResult<T>) {
    || TellsNothing(setup, u)
    || (s.answer.Some? && s.answer.value.page.Some? && TellsPage(s.answer.value.page.value, u))
    || (s.phase.Returned? && u == s.phase.result)
  }

  ghost predicate AllTell<T(!new)>(setup: Setup<T>, s: State<T>) {
    && (!s.aborted ==> s.pub.semantic == if s.answer.Some? then s.answer.value.page else None)
    && forall u | u in s.pub.updates :: Tells(setup, s, u)
  }

  lemma FlushedUpdate<T(!new)>(ids: T -> set<string>, p: Publication<T>, page: int, terminal: Option<Terminal>, u: SearchResult<T>)
    ensures var q := Flush(ids, p, page, false, terminal);
            q.semantic == p.semantic && (u in q.updates ==> u in p.updates || u == Snapshot(q, page, terminal))
  {
  }

  lemma SnapshotTells<T>(setup: Setup<T>, p: Publication<T>)
    ensures var u := Snapshot(p, setup.page, None);
            if p.semantic.Some? then TellsPage(p.semantic.value, u) else TellsNothing(setup, u)
  {
  }

  lemma EnqueuedUpdate<T(!new)>(ids: T -> set<string>, setup: Setup<T>, p: Publication<T>, items: seq<T>, order: nat,
                                metadataChanged: bool, speculative: bool, u: SearchResult<T>)
    ensures var q := Enqueue(ids, p, setup.page, false, items, order, metadataChanged, speculative);
            && q.semantic == p.semantic
            && (u in q.updates ==>
                  u in p.updates || if p.semantic.Some? then TellsPage(p.semantic.value, u) else TellsNothing(setup, u))
  {
    if Unseen(ids, p.known, items) != [] && p.last.None? {
      var queued := Queued(ids, p, items, order, speculative);
      FlushedUpdate(ids, queued, setup.page, None, u);
      SnapshotTells(setup, Flush(ids, queued, setup.page, false, None));
    }
  }

  lemma SpeculativeTells<T(!new)>(ids: T -> set<string>, setup: Setup<T>, s: State<T>, index: nat, outcome: Outcome<T>)
    requires PhaseOk(setup, s) && AllTell(setup, s)
    ensures AllTell(setup, OnSpeculativeReply(ids, setup, s, index, outcome))
  {
    var t := OnSpeculativeReply(ids, setup, s, index, outcome);
    EnqueuedUpdate(ids, setup, s.pub, outcome.items, index, false, true, Snapshot(s.pub, 0, None));
    forall u | u in t.pub.updates ensures Tells(setup, t, u) {
      EnqueuedUpdate(ids, setup, s.pub, outcome.items, index, false, true, u);
      assert u in s.pub.updates ==> Tells(setup, s, u);
    }
  }

  lemma FinalTells<T(!new)>(ids: T -> set<string>, setup: Setup<T>, s: State<T>, index: nat, outcome: Outcome<T>)
    requires PhaseOk(setup, s) && AllTell(setup, s)
    ensures AllTell(setup, OnFinalReply(ids, setup, s, index, outcome))
  {
    var t := OnFinalReply(ids, setup, s, index, outcome);
    EnqueuedUpdate(ids, setup, s.pub, outcome.items, index, false, false, Snapshot(s.pub, 0, None));
    forall u | u in t.pub.updates ensures Tells(setup, t, u) {
      EnqueuedUpdate(ids, setup, s.pub, outcome.items, index, false, false, u);
      assert u in s.pub.updates ==> Tells(setup, s, u);
    }
  }

  lemma SemanticTells<T(!new)>(ids: T -> set<string>, setup: Setup<T>, s: State<T>, a: SemanticAnswer<T>)
    requires PhaseOk(setup, s) && AllTell(setup, s)
    ensures AllTell(setup, OnSemantic(ids, setup, s, a))
  {
    var t := OnSemantic(ids, setup, s, a);
    var known := s.pub.(semantic := a.page);
    if a.page.Some? {
      EnqueuedUpdate(ids, setup, known, a.page.value.items, |setup.types|, true, false, Snapshot(s.pub, 0, None));
    }
    forall u | u in t.pub.updates ensures Tells(setup, t, u) {
      if a.page.Some? {
        EnqueuedUpdate(ids, setup, known, a.page.value.items, |setup.types|, true, false, u);
      }
      assert u in s.pub.updates ==> Tells(setup, s, u);
    }
  }

  lemma TimerTells<T(!new)>(ids: T -> set<string>, setup: Setup<T>, s: State<T>)
    requires PhaseOk(setup, s) && AllTell(setup, s)
    ensures AllTell(setup, Step(ids, setup, s, TimerFires))
  {
    var t := Step(ids, setup, s, TimerFires);
    if s.pub.timer {
      FlushedUpdate(ids, s.pub, setup.page, None, Snapshot(s.pub, 0, None));
      SnapshotTells(setup, t.pub);
      forall u | u in t.pub.updates ensures Tells(setup, t, u) {
        FlushedUpdate(ids, s.pub, setup.page, None, u);
        assert u in s.pub.updates ==> Tells(setup, s, u);
      }
    }
  }

  lemma FinishTells<T(!new)>(ids: T -> set<string>, setup: Setup<T>, s: State<T>, pool: Pool<T>)
    requires s.answer.Some? && !s.aborted && !s.phase.Returned? && AllTell(setup, s)
    ensures AllTell(setup, Finish(ids, setup, s, pool))
  {
    var t := Finish(ids, setup, s, pool);
    var terminal := TerminalOf(setup, s.answer.value, Answers(pool.outcomes), s.budget.truncated);
    FlushedUpdate(ids, s.pub, setup.page, Some(terminal), Snapshot(s.pub, 0, None));
    forall u | u in t.pub.updates ensures Tells(setup, t, u) {
      FlushedUpdate(ids, s.pub, setup.page, Some(terminal), u);
      assert u in s.pub.updates ==> Tells(setup, s, u);
    }
  }

  lemma OthersTell<T(!new)>(ids: T -> set<string>, setup: Setup<T>, s: State<T>, t: State<T>)
    requires AllTell(setup, s) && t.pub.updates == s.pub.updates && t.pub.semantic == s.pub.semantic && t.answer == s.answer
    requires (s.phase.Returned? ==> t.phase == s.phase) && (s.aborted ==> t.aborted)
    ensures AllTell(setup, t)
  {
    forall u | u in t.pub.updates ensures Tells(setup, t, u) {
      assert Tells(setup, s, u);
    }
  }

  lemma ResumeTells<T(!new)>(ids: T -> set<string>, setup: Setup<T>, s: State<T>)
    requires PhaseOk(setup, s) && AllTell(setup, s)
    ensures AllTell(setup, OnResume(ids, setup, s))
  {
    var t := OnResume(ids, setup, s);
    if s.phase == AwaitKept && Idle(s.spec) && !s.aborted {
      FinishTells(ids, setup, s, s.spec);
    } else if s.phase == AwaitFinal && Idle(s.final.value) && !s.aborted {
      FinishTells(ids, setup, s, s.final.value);
    } else {
      OthersTell(ids, setup, s, t);
    }
  }

  /** In every run each update carries the metadata of the semantic page once it is known and none before; only the
      returned result carries the final ones. */
  lemma {:induction false} UpdatesTell<T(!new)>(ids: T -> set<string>, setup: Setup<T>, events: seq<Event<T>>)
    ensures AllTell(setup, Run(ids, setup, events))
  {
    if events != [] {
      var front, e := events[..|events| - 1], events[|events| - 1];
      UpdatesTell(ids, setup, front);
      RunPhase(ids, setup, front);
      var s := Run(ids, setup, front);
      match e
      case SpeculativeReply(index, outcome) => SpeculativeTells(ids, setup, s, index, outcome);
      case FinalReply(index, outcome) => FinalTells(ids, setup, s, index, outcome);
      case SemanticReply(a) => SemanticTells(ids, setup, s, a);
      case TimerFires => TimerTells(ids, setup, s);
      case Abort => OthersTell(ids, setup, s, OnAbort(s));
      case Resume => ResumeTells(ids, setup, s);
    }
  }

  // ---------------------------------------------------------------- answers come from replies

  ghost predicate Replied<T(!new)>(s: State<T>, events: seq<Event<T>>) {
    && (forall i | 0 <= i < |s.spec.outcomes| && s.spec.outcomes[i].Some? :: SpeculativeReply(i, s.spec.outcomes[i].value) in events)
    && (s.final.Some? ==>
          forall i | 0 <= i < |s.final.value.outcomes| && s.final.value.outcomes[i].Some? ::
            FinalReply(i, s.final.value.outcomes[i].value) in events)
    && (s.answer.Some? ==> SemanticReply(s.answer.value) in events)
  }

  lemma LaunchedEmpty<T>(types: seq<string>, query: string, budget: Budget)
    ensures forall o | o in Launch<T>(types, query, budget).outcomes :: o.None?
  {
    var calls := Min(|types|, budget.remaining);
    DispatchAllOpens(Unstarted<T>(types, query, calls), Min(MAX_CONCURRENCY, calls));
  }

  lemma StepReplied<T(!new)>(ids: T -> set<string>, setup: Setup<T>, s: State<T>, events: seq<Event<T>>, e: Event<T>)
    requires Replied(s, events)
    ensures Replied(Step(ids, setup, s, e), events + [e])
  {
    assert forall x | x in events :: x in events + [e];
    assert e in events + [e];
    if e.Resume? && s.answer.Some? {
      var (types, query) := setup.refine(s.answer.value.page);
      LaunchedEmpty<T>(types, query, s.budget);
      var p := Launch<T>(types, query, s.budget);
      assert forall i | 0 <= i < |p.outcomes| :: p.outcomes[i] in p.outcomes;
    }
  }

  /** Each stored answer is the reply that arrived for its own slot, unchanged. */
  lemma {:induction false} AnswersAreReplies<T(!new)>(ids: T -> set<string>, setup: Setup<T>, events: seq<Event<T>>)
    ensures Replied(Run(ids, setup, events), events)
  {
    if events == [] {
      LaunchedEmpty<T>(setup.types, setup.query, Budget(MAX_CALLS, false));
      var p := Launch<T>(setup.types, setup.query, Budget(MAX_CALLS, false));
      assert forall i | 0 <= i < |p.outcomes| :: p.outcomes[i] in p.outcomes;
    } else {
      var front, e := events[..|events| - 1], events[|events| - 1];
      AnswersAreReplies(ids, setup, front);
      StepReplied(ids, setup, Run(ids, setup, front), front, e);
      assert events == front + [e];
    }
  }

  // ---------------------------------------------------------------- arrivals are answers

  /** All items of the answers, slot by slot. */
  function ItemsIn<T>(outcomes: seq<Option<Outcome<T>>>): seq<T> {
    if outcomes == [] then []
    else
      ItemsIn(outcomes[..|outcomes| - 1])
      + (if outcomes[|outcomes| - 1].Some? then outcomes[|outcomes| - 1].value.items else [])
  }

  lemma {:induction false} FilledSlot<T(!new)>(outcomes: seq<Option<Outcome<T>>>, index: nat, o: Outcome<T>)
    requires index < |outcomes| && outcomes[index].None?
    ensures multiset(ItemsIn(outcomes[index := Some(o)])) == multiset(ItemsIn(outcomes)) + multiset(o.items)
  {
    var n := |outcomes| - 1;
    var filled := outcomes[index := Some(o)];
    if index == n {
      assert filled[..n] == outcomes[..n];
      assert ItemsIn(outcomes) == ItemsIn(outcomes[..n]) + [];
    } else {
      assert filled[..n] == outcomes[..n][index := Some(o)];
      FilledSlot(outcomes[..n], index, o);
    }
  }

  lemma {:induction false} EmptySlots<T(!new)>(outcomes: seq<Option<Outcome<T>>>)
    requires forall o | o in outcomes :: o.None?
    ensures ItemsIn(outcomes) == []
  {
    if outcomes != [] {
      assert outcomes[|outcomes| - 1] in outcomes;
      assert forall o | o in outcomes[..|outcomes| - 1] :: o in outcomes;
      EmptySlots(outcomes[..|outcomes| - 1]);
    }
  }

  function PageItems<T>(a: Option<SemanticAnswer<T>>): seq<T> {
    if a.Some? && a.value.page.Some? then a.value.page.value.items else []
  }

  lemma EnqueueArrivals<T(!new)>(ids: T -> set<string>, p: Publication<T>, page: int, items: seq<T>, order: nat,
                                 metadataChanged: bool, speculative: bool)
    ensures Enqueue(ids, p, page, false, items, order, metadataChanged, speculative).arrived == p.arrived + items
  {
    if Unseen(ids, p.known, items) != [] && p.last.None? {
      FlushArrives(ids, Queued(ids, p, items, order, speculative), [], page, None);
    }
  }

  /** While the speculation is kept, what has arrived is what the speculative phase and the semantic page brought. */
  ghost predicate Balanced<T(!new)>(setup: Setup<T>, s: State<T>) {
    !s.aborted && (s.answer.Some? ==> Keeps(setup, s.answer.value.page)) ==>
      multiset(s.pub.arrived) == multiset(ItemsIn(s.spec.outcomes)) + multiset(PageItems(s.answer))
  }

  lemma ReplyFills<T(!new)>(p: Pool<T>, index: nat, outcome: Outcome<T>)
    requires Steady(p) && index in p.inFlight && index < |p.outcomes|
    ensures multiset(ItemsIn(Reply(p, index, outcome).outcomes)) == multiset(ItemsIn(p.outcomes)) + multiset(outcome.items)
  {
    FilledSlot(p.outcomes, index, outcome);
  }

  lemma SpeculativeBalanced<T(!new)>(ids: T -> set<string>, setup: Setup<T>, s: State<T>, index: nat, outcome: Outcome<T>)
    requires Steady(s.spec) && PhaseOk(setup, s) && Balanced(setup, s)
    ensures Balanced(setup, OnSpeculativeReply(ids, setup, s, index, outcome))
  {
    if index in s.spec.inFlight && index < |s.spec.outcomes| && !s.aborted && (s.answer.Some? ==> Keeps(setup, s.answer.value.page)) {
      ReplyFills(s.spec, index, outcome);
      assert !s.spec.aborted;
      EnqueueArrivals(ids, s.pub, setup.page, outcome.items, index, false, true);
    }
  }

  lemma SemanticBalanced<T(!new)>(ids: T -> set<string>, setup: Setup<T>, s: State<T>, a: SemanticAnswer<T>)
    requires PhaseOk(setup, s) && Balanced(setup, s)
    ensures Balanced(setup, OnSemantic(ids, setup, s, a))
  {
    if s.phase == AwaitSemantic && PossibleAnswer(setup, a) && !s.aborted && a.page.Some? {
      EnqueueArrivals(ids, s.pub.(semantic := a.page), setup.page, a.page.value.items, |setup.types|, true, false);
    }
  }

  lemma ResumeBalanced<T(!new)>(ids: T -> set<string>, setup: Setup<T>, s: State<T>)
    requires PhaseOk(setup, s) && Balanced(setup, s)
    ensures Balanced(setup, OnResume(ids, setup, s))
  {
    if s.phase == AwaitKept && s.answer.Some? {
      var terminal := TerminalOf(setup, s.answer.value, Answers(s.spec.outcomes), s.budget.truncated);
      FlushArrives(ids, s.pub, [], setup.page, Some(terminal));
    }
  }

  lemma StepBalanced<T(!new)>(ids: T -> set<string>, setup: Setup<T>, s: State<T>, e: Event<T>)
    requires Steady(s.spec) && PhaseOk(setup, s) && Balanced(setup, s)
    ensures Balanced(setup, Step(ids, setup, s, e))
  {
    match e
    case SpeculativeReply(index, outcome) => SpeculativeBalanced(ids, setup, s, index, outcome);
    case FinalReply(index, outcome) =>
    case SemanticReply(a) => SemanticBalanced(ids, setup, s, a);
    case TimerFires => FlushArrives(ids, s.pub, [], setup.page, None);
    case Abort =>
    case Resume => ResumeBalanced(ids, setup, s);
  }

  /** No answer is overlooked: in a search that keeps its speculation, the arrivals are all items of all answers and of
      the semantic page. */
  lemma {:induction false} ArrivalsAreAnswers<T(!new)>(ids: T -> set<string>, setup: Setup<T>, events: seq<Event<T>>)
    ensures Balanced(setup, Run(ids, setup, events))
  {
    if events == [] {
      LaunchedEmpty<T>(setup.types, setup.query, Budget(MAX_CALLS, false));
      EmptySlots(Launch<T>(setup.types, setup.query, Budget(MAX_CALLS, false)).outcomes);
    } else {
      var front, e := events[..|events| - 1], events[|events| - 1];
      ArrivalsAreAnswers(ids, setup, front);
      RunPools(ids, setup, front);
      RunPhase(ids, setup, front);
      StepBalanced(ids, setup, Run(ids, setup, front), e);
    }
  }

  function FinalItems<T>(final: Option<Pool<T>>): seq<T> {
    if final.Some? then ItemsIn(final.value.outcomes) else []
  }

  /** Since `n` arrivals were in, what has arrived is what the final phase brought. */
  ghost predicate FinallyBalanced<T(!new)>(setup: Setup<T>, n: nat, s: State<T>) {
    && s.answer.Some? && !Keeps(setup, s.answer.value.page)
    && (!s.aborted ==> n <= |s.pub.arrived| && multiset(s.pub.arrived[n..]) == multiset(FinalItems(s.final)))
  }

  lemma SuffixAppends<T>(arrived: seq<T>, n: nat, items: seq<T>)
    requires n <= |arrived|
    ensures multiset((arrived + items)[n..]) == multiset(arrived[n..]) + multiset(items)
  {
    assert (arrived + items)[n..] == arrived[n..] + items;
  }

  lemma FinalReplyBalanced<T(!new)>(ids: T -> set<string>, setup: Setup<T>, n: nat, s: State<T>, index: nat, outcome: Outcome<T>)
    requires (s.final.Some? ==> Steady(s.final.value)) && PhaseOk(setup, s) && FinallyBalanced(setup, n, s)
    ensures FinallyBalanced(setup, n, OnFinalReply(ids, setup, s, index, outcome))
  {
    if s.final.Some? && index in s.final.value.inFlight && index < |s.final.value.outcomes| && !s.aborted {
      ReplyFills(s.final.value, index, outcome);
      assert !s.final.value.aborted;
      EnqueueArrivals(ids, s.pub, setup.page, outcome.items, index, false, false);
      SuffixAppends(s.pub.arrived, n, outcome.items);
    }
  }

  lemma FinalResumeBalanced<T(!new)>(ids: T -> set<string>, setup: Setup<T>, n: nat, s: State<T>)
    requires PhaseOk(setup, s) && FinallyBalanced(setup, n, s) && !s.aborted
    ensures FinallyBalanced(setup, n, OnResume(ids, setup, s))
  {
    if s.phase == AwaitDrain && Idle(s.spec) {
      var (types, query) := setup.refine(s.answer.value.page);
      LaunchedEmpty<T>(types, query, s.budget);
      EmptySlots(Launch<T>(types, query, s.budget).outcomes);
    } else {
      ResumeFlushes(ids, setup, s);
      var t := OnResume(ids, setup, s);
      if t.pub != s.pub {
        var terminal :| t.pub == Flush(ids, s.pub, setup.page, false, terminal);
        FlushArrives(ids, s.pub, [], setup.page, terminal);
      }
    }
  }

  lemma FinalStepBalanced<T(!new)>(ids: T -> set<string>, setup: Setup<T>, n: nat, s: State<T>, e: Event<T>)
    requires (s.final.Some? ==> Steady(s.final.value)) && PhaseOk(setup, s) && FinallyBalanced(setup, n, s)
    ensures FinallyBalanced(setup, n, Step(ids, setup, s, e))
  {
    if !s.aborted {
      match e
      case SpeculativeReply(index, outcome) => AbandonedReply(ids, setup, s, index, outcome);
      case FinalReply(index, outcome) => FinalReplyBalanced(ids, setup, n, s, index, outcome);
      case SemanticReply(_) =>
      case TimerFires => FlushArrives(ids, s.pub, [], setup.page, None);
      case Abort =>
      case Resume => FinalResumeBalanced(ids, setup, n, s);
    }
  }

  /** Nor is one overlooked after a discard: what arrives later is all items of all answers of the final phase. */
  lemma {:induction false} LaterArrivalsAreAnswers<T(!new)>(ids: T -> set<string>, setup: Setup<T>, before: seq<Event<T>>,
                                                            a: SemanticAnswer<T>, after: seq<Event<T>>)
    requires Discards(setup, Run(ids, setup, before), a)
    ensures var d := Run(ids, setup, before + [SemanticReply(a)]);
            FinallyBalanced(setup, |d.pub.arrived|, Run(ids, setup, before + [SemanticReply(a)] + after))
  {
    var start := before + [SemanticReply(a)];
    if after == [] {
      assert start + after == start;
      RunPhase(ids, setup, before);
      RunSnoc(ids, setup, before, SemanticReply(a));
      DiscardBalances(ids, setup, Run(ids, setup, before), a);
    } else {
      var front, e := after[..|after| - 1], after[|after| - 1];
      LaterArrivalsAreAnswers(ids, setup, before, a, front);
      RunPools(ids, setup, start + front);
      RunPhase(ids, setup, start + front);
      assert start + after == start + front + [e];
      RunSnoc(ids, setup, start + front, e);
      FinalStepBalanced(ids, setup, |Run(ids, setup, start).pub.arrived|, Run(ids, setup, start + front), e);
    }
  }

  lemma DiscardBalances<T(!new)>(ids: T -> set<string>, setup: Setup<T>, s: State<T>, a: SemanticAnswer<T>)
    requires PhaseOk(setup, s) && Discards(setup, s, a)
    ensures var d := Step(ids, setup, s, SemanticReply(a)); FinallyBalanced(setup, |d.pub.arrived|, d)
  {
  }

  lemma {:induction false} RunPools<T(!new)>(ids: T -> set<string>, setup: Setup<T>, events: seq<Event<T>>)
    ensures var s := Run(ids, setup, events); PoolsOk(setup, s)
  {
    RunInv(ids, setup, events);
  }

  // ---------------------------------------------------------------- the order of a batch is the slot it answers

  ghost predicate FromSlot<T(!new)>(b: Batch<T>, outcomes: seq<Option<Outcome<T>>>) {
    && b.order < |outcomes| && outcomes[b.order].Some?
    && forall x | x in b.items :: x in outcomes[b.order].value.items
  }

  ghost predicate FromPage<T(!new)>(b: Batch<T>, order: nat, a: Option<SemanticAnswer<T>>) {
    b.order == order && forall x | x in b.items :: x in PageItems(a)
  }

  /** A pending batch holds items of the speculative or final answer whose slot is its order, or items of the semantic
      page, which come behind those of every type. */
  ghost predicate Sourced<T(!new)>(setup: Setup<T>, s: State<T>, b: Batch<T>) {
    if b.speculative then FromSlot(b, s.spec.outcomes)
    else FromPage(b, |setup.types|, s.answer) || (s.final.Some? && FromSlot(b, s.final.value.outcomes))
  }

  ghost predicate AllSourced<T(!new)>(setup: Setup<T>, s: State<T>) {
    forall b | b in s.pub.pending :: Sourced(setup, s, b)
  }

  lemma {:induction false} UnseenMembers<T(!new)>(ids: T -> set<string>, known: set<string>, items: seq<T>)
    ensures forall x | x in Unseen(ids, known, items) :: x in items
  {
    if items != [] {
      UnseenMembers(ids, known, items[..|items| - 1]);
    }
  }

  lemma EnqueuedBatch<T(!new)>(ids: T -> set<string>, p: Publication<T>, page: int, items: seq<T>, order: nat,
                               metadataChanged: bool, speculative: bool, b: Batch<T>)
    requires b in Enqueue(ids, p, page, false, items, order, metadataChanged, speculative).pending
    ensures b in p.pending || (b.order == order && b.speculative == speculative && forall x | x in b.items :: x in items)
  {
    UnseenMembers(ids, p.known, items);
  }

  lemma SpeculativeSourced<T(!new)>(ids: T -> set<string>, setup: Setup<T>, s: State<T>, index: nat, outcome: Outcome<T>)
    requires PoolsOk(setup, s) && PhaseOk(setup, s) && AllSourced(setup, s)
    ensures AllSourced(setup, OnSpeculativeReply(ids, setup, s, index, outcome))
  {
    var t := OnSpeculativeReply(ids, setup, s, index, outcome);
    if index in s.spec.inFlight && index < |s.spec.outcomes| {
      forall b | b in t.pub.pending ensures Sourced(setup, t, b) {
        if !s.spec.aborted {
          EnqueuedBatch(ids, s.pub, setup.page, outcome.items, index, false, true, b);
        }
        assert b in s.pub.pending ==> Sourced(setup, s, b);
      }
    }
  }

  lemma FinalSourced<T(!new)>(ids: T -> set<string>, setup: Setup<T>, s: State<T>, index: nat, outcome: Outcome<T>)
    requires PoolsOk(setup, s) && PhaseOk(setup, s) && AllSourced(setup, s)
    ensures AllSourced(setup, OnFinalReply(ids, setup, s, index, outcome))
  {
    var t := OnFinalReply(ids, setup, s, index, outcome);
    if s.final.Some? && index in s.final.value.inFlight && index < |s.final.value.outcomes| {
      forall b | b in t.pub.pending ensures Sourced(setup, t, b) {
        if !s.final.value.aborted {
          EnqueuedBatch(ids, s.pub, setup.page, outcome.items, index, false, false, b);
        }
        assert b in s.pub.pending ==> Sourced(setup, s, b);
      }
    }
  }

  lemma KeptIsPending<T(!new)>(batches: seq<Batch<T>>, b: Batch<T>)
    requires b in Kept(batches)
    ensures b in batches && !b.speculative
  {
    var i :| 0 <= i < |Kept(batches)| && Kept(batches)[i] == b;
    KeptMember(batches, i);
  }

  lemma SemanticSourced<T(!new)>(ids: T -> set<string>, setup: Setup<T>, s: State<T>, a: SemanticAnswer<T>)
    requires PhaseOk(setup, s) && AllSourced(setup, s)
    ensures AllSourced(setup, OnSemantic(ids, setup, s, a))
  {
    var t := OnSemantic(ids, setup, s, a);
    if s.phase == AwaitSemantic && PossibleAnswer(setup, a) && !s.aborted {
      var p := WithPage(ids, setup, s.pub, a.page);
      forall b | b in t.pub.pending ensures Sourced(setup, t, b) {
        if !Keeps(setup, a.page) {
          KeptIsPending(p.pending, b);
        }
        if a.page.Some? {
          EnqueuedBatch(ids, s.pub.(semantic := a.page), setup.page, a.page.value.items, |setup.types|, true, false, b);
        }
        assert b in s.pub.pending ==> Sourced(setup, s, b);
      }
    }
  }

  lemma StepSourced<T(!new)>(ids: T -> set<string>, setup: Setup<T>, s: State<T>, e: Event<T>)
    requires PoolsOk(setup, s) && PhaseOk(setup, s) && AllSourced(setup, s)
    ensures AllSourced(setup, Step(ids, setup, s, e))
  {
    var t := Step(ids, setup, s, e);
    match e
    case SpeculativeReply(index, outcome) => SpeculativeSourced(ids, setup, s, index, outcome);
    case FinalReply(index, outcome) => FinalSourced(ids, setup, s, index, outcome);
    case SemanticReply(a) => SemanticSourced(ids, setup, s, a);
    case TimerFires => assert t.pub.pending == [] || t == s;
    case Abort => assert t.pub.pending == [] || t == s;
    case Resume => ResumeSourced(ids, setup, s);
  }

  lemma ResumeSourced<T(!new)>(ids: T -> set<string>, setup: Setup<T>, s: State<T>)
    requires PhaseOk(setup, s) && AllSourced(setup, s)
    ensures AllSourced(setup, OnResume(ids, setup, s))
  {
    var t := OnResume(ids, setup, s);
    if t.pub.pending != [] {
      assert t.pub == s.pub && t.spec == s.spec && t.answer == s.answer && (s.final.Some? ==> t.final == s.final);
      forall b | b in t.pub.pending ensures Sourced(setup, t, b) {
        assert Sourced(setup, s, b);
      }
    }
  }

  /** In every run each pending batch stands at the order of the answer it comes from, so a flush lists addon items by
      type and the semantic page's behind them. */
  lemma {:induction false} BatchesFollowTheirAnswers<T(!new)>(ids: T -> set<string>, setup: Setup<T>, events: seq<Event<T>>)
    ensures AllSourced(setup, Run(ids, setup, events))
  {
    if events != [] {
      var front, e := events[..|events| - 1], events[|events| - 1];
      BatchesFollowTheirAnswers(ids, setup, front);
      RunPools(ids, setup, front);
      RunPhase(ids, setup, front);
      StepSourced(ids, setup, Run(ids, setup, front), e);
    }
  }
}
