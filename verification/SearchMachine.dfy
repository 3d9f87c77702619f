/** A whole search: the speculative phase, the semantic answer, the timer, cancellation and the final phase,
    as steps between the points where the search awaits. */
module SearchMachine {
  import opened Prelude
  import opened Dedup
  import opened SearchPublication
  import opened AddonPool

  /** What a request fixes. `refine` is the plan (types and query) that follows from a semantic page. */
  datatype Setup<!T> = Setup(
    types: seq<string>,
    query: string,
    page: int,
    limit: nat,
    semanticAvailable: bool,
    refine: Option<SemanticPage<T>> -> (seq<string>, string))

  datatype SemanticAnswer<T> = SemanticAnswer(page: Option<SemanticPage<T>>, failed: bool)

  /** Where the search is suspended. */
  datatype Phase<T> =
    | AwaitSemantic
    | AwaitKept
    | AwaitDrain
    | AwaitFinal
    | AwaitAbort
    | Returned(result: SearchResult<T>)
    | Threw

  datatype State<T> = State(
    pub: Publication<T>,
    budget: Budget,
    spec: Pool<T>,
    final: Option<Pool<T>>,
    answer: Option<SemanticAnswer<T>>,
    aborted: bool,
    phase: Phase<T>)

  datatype Event<T> =
    | SpeculativeReply(index: nat, outcome: Outcome<T>)
    | FinalReply(index: nat, outcome: Outcome<T>)
    | SemanticReply(answer: SemanticAnswer<T>)
    | TimerFires
    | Abort
    | Resume

  function Start<T>(setup: Setup<T>): State<T> {
    var budget := Budget(MAX_CALLS, false);
    State(Empty(), Reserve(setup.types, budget), Launch(setup.types, setup.query, budget), None, None, false, AwaitSemantic)
  }

  predicate PossibleAnswer<T>(setup: Setup<T>, a: SemanticAnswer<T>) {
    && (a.page.Some? ==> !a.failed)
    && (!setup.semanticAvailable ==> a.page.None? && !a.failed)
  }

  /** The speculation is kept when the semantic page changes neither the types nor the query. */
  predicate Keeps<T>(setup: Setup<T>, page: Option<SemanticPage<T>>) {
    setup.refine(page) == (setup.types, setup.query)
  }

  function TerminalOf<T>(setup: Setup<T>, a: SemanticAnswer<T>, answers: seq<Outcome<T>>, truncated: bool): Terminal {
    var addonPartial := exists i | 0 <= i < |answers| :: answers[i].failed || answers[i].hasErrors;
    var addonMore := exists i | 0 <= i < |answers| :: |answers[i].items| >= setup.limit;
    match a.page
    case Some(m) => Terminal(m.intents, m.mediaTypes, m.page, m.hasMore || addonMore,
                             a.failed || m.partial || addonPartial || truncated)
    case None => Terminal([], [], setup.page, addonMore, a.failed || addonPartial || truncated)
  }

  ghost function Finish<T(!new)>(ids: T -> set<string>, setup: Setup<T>, s: State<T>, pool: Pool<T>): State<T>
    requires s.answer.Some?
  {
    var terminal := TerminalOf(setup, s.answer.value, Answers(pool.outcomes), s.budget.truncated);
    var pub := Flush(ids, s.pub, setup.page, s.aborted, Some(terminal));
    s.(pub := pub, phase := Returned(Snapshot(pub, setup.page, Some(terminal))))
  }

  function Throw<T>(s: State<T>): State<T> {
    s.(pub := Cancel(s.pub), phase := Threw)
  }

  ghost function OnSpeculativeReply<T(!new)>(ids: T -> set<string>, setup: Setup<T>, s: State<T>, index: nat,
                                             outcome: Outcome<T>): State<T>
  {
    if index !in s.spec.inFlight || index >= |s.spec.outcomes| then s
    else
      s.(spec := Reply(s.spec, index, outcome),
         pub := if s.spec.aborted then s.pub
                else Enqueue(ids, s.pub, setup.page, s.aborted, outcome.items, index, false, true))
  }

  ghost function OnFinalReply<T(!new)>(ids: T -> set<string>, setup: Setup<T>, s: State<T>, index: nat,
                                       outcome: Outcome<T>): State<T>
  {
    if s.final.None? || index !in s.final.value.inFlight || index >= |s.final.value.outcomes| then s
    else
      s.(final := Some(Reply(s.final.value, index, outcome)),
         pub := if s.final.value.aborted then s.pub
                else Enqueue(ids, s.pub, setup.page, s.aborted, outcome.items, index, false, false))
  }

  /** The page is published with what has arrived: its items join behind those of every type. */
  ghost function WithPage<T(!new)>(ids: T -> set<string>, setup: Setup<T>, pub: Publication<T>, page: Option<SemanticPage<T>>)
    : Publication<T>
  {
    var known := pub.(semantic := page);
    if page.None? then known
    else Enqueue(ids, known, setup.page, false, page.value.items, |setup.types|, true, false)
  }

  ghost function OnSemantic<T(!new)>(ids: T -> set<string>, setup: Setup<T>, s: State<T>, a: SemanticAnswer<T>): State<T> {
    if s.phase != AwaitSemantic || !PossibleAnswer(setup, a) then s
    else if s.aborted then s.(pub := Cancel(s.pub), phase := AwaitAbort)
    else if Keeps(setup, a.page) then
      s.(pub := WithPage(ids, setup, s.pub, a.page), answer := Some(a), phase := AwaitKept)
    else
      s.(pub := Discard(ids, WithPage(ids, setup, s.pub, a.page)), spec := s.spec.(aborted := true),
         answer := Some(a), phase := AwaitDrain)
  }

  function OnAbort<T>(s: State<T>): State<T> {
    if s.aborted || s.phase.Returned? || s.phase.Threw? then s
    else
      s.(aborted := true, pub := Cancel(s.pub), spec := s.spec.(aborted := true),
         final := if s.final.Some? then Some(s.final.value.(aborted := true)) else None)
  }

  ghost function OnResume<T(!new)>(ids: T -> set<string>, setup: Setup<T>, s: State<T>): State<T> {
    match s.phase
    case AwaitKept =>
      if !Idle(s.spec) || s.answer.None? then s else if s.aborted then Throw(s) else Finish(ids, setup, s, s.spec)
    case AwaitDrain =>
      if !Idle(s.spec) || s.answer.None? then s else if s.aborted then Throw(s)
      else
        var (types, query) := setup.refine(s.answer.value.page);
        s.(budget := Reserve(types, s.budget), final := Some(Launch(types, query, s.budget)), phase := AwaitFinal)
    case AwaitFinal =>
      if s.final.None? || !Idle(s.final.value) || s.answer.None? then s
      else if s.aborted then Throw(s) else Finish(ids, setup, s, s.final.value)
    case AwaitAbort => if !Idle(s.spec) then s else Throw(s)
    case _ => s
  }

  /** One step; an event that cannot happen in a state leaves the state alone. */
  ghost function Step<T(!new)>(ids: T -> set<string>, setup: Setup<T>, s: State<T>, e: Event<T>): State<T> {
    match e
    case SpeculativeReply(index, outcome) => OnSpeculativeReply(ids, setup, s, index, outcome)
    case FinalReply(index, outcome) => OnFinalReply(ids, setup, s, index, outcome)
    case SemanticReply(a) => OnSemantic(ids, setup, s, a)
    case TimerFires => if s.pub.timer then s.(pub := Flush(ids, s.pub, setup.page, s.aborted, None)) else s
    case Abort => OnAbort(s)
    case Resume => OnResume(ids, setup, s)
  }

  ghost function Run<T(!new)>(ids: T -> set<string>, setup: Setup<T>, events: seq<Event<T>>): State<T> {
    if events == [] then Start(setup)
    else Step(ids, setup, Run(ids, setup, events[..|events| - 1]), events[|events| - 1])
  }

  // ---------------------------------------------------------------- the invariant

  function Calls<T>(s: State<T>): nat {
    |s.spec.dispatched| + if s.final.Some? then |s.final.value.dispatched| else 0
  }

  function InFlight<T>(s: State<T>): nat {
    |s.spec.inFlight| + if s.final.Some? then |s.final.value.inFlight| else 0
  }

  function Slots<T>(p: Option<Pool<T>>): nat {
    if p.Some? then |p.value.outcomes| else 0
  }

  predicate Short<T>(p: Option<Pool<T>>) {
    p.Some? && |p.value.outcomes| < |p.value.types|
  }

  ghost predicate PoolsOk<T>(setup: Setup<T>, s: State<T>) {
    && Steady(s.spec) && s.spec.types == setup.types && s.spec.query == setup.query
    && (s.final.Some? ==> Steady(s.final.value) && Idle(s.spec))
    && s.budget.remaining + |s.spec.outcomes| + Slots(s.final) == MAX_CALLS
    && (s.budget.truncated <==> Short(Some(s.spec)) || Short(s.final))
  }

  /** The search was cancelled, and nothing will be published any more. */
  ghost predicate Quiet<T>(s: State<T>) {
    && s.pub.pending == [] && !s.pub.timer && s.spec.aborted
    && (s.final.Some? ==> s.final.value.aborted)
    && !s.phase.Returned?
  }

  /** The pool whose outcomes decide the result. */
  function Deciding<T>(setup: Setup<T>, s: State<T>): Pool<T>
    requires s.answer.Some?
  {
    if Keeps(setup, s.answer.value.page) || s.final.None? then s.spec else s.final.value
  }

  ghost predicate PhaseOk<T>(setup: Setup<T>, s: State<T>) {
    && (s.aborted ==> Quiet(s))
    && (s.answer.Some? ==> PossibleAnswer(setup, s.answer.value))
    && (s.final.Some? ==>
          && s.answer.Some? && !Keeps(setup, s.answer.value.page)
          && setup.refine(s.answer.value.page) == (s.final.value.types, s.final.value.query))
    && match s.phase
       case AwaitSemantic => s.answer.None? && s.final.None? && (!s.aborted ==> !s.spec.aborted)
       case AwaitKept => s.answer.Some? && Keeps(setup, s.answer.value.page) && (!s.aborted ==> !s.spec.aborted)
       case AwaitDrain => s.answer.Some? && !Keeps(setup, s.answer.value.page) && s.final.None? && s.spec.aborted
       case AwaitFinal => s.answer.Some? && s.final.Some? && s.spec.aborted && (!s.aborted ==> !s.final.value.aborted)
       case AwaitAbort => s.aborted && s.answer.None? && s.final.None?
       case Threw => s.aborted && Idle(s.spec) && (s.final.Some? ==> Idle(s.final.value))
       case Returned(r) =>
         && s.answer.Some? && s.pub.pending == [] && !s.pub.timer
         && (!Keeps(setup, s.answer.value.page) ==> s.final.Some?)
         && Idle(s.spec) && (s.final.Some? ==> Idle(s.final.value)) && !Deciding(setup, s).aborted
         && r == Snapshot(s.pub, setup.page, Some(
                   TerminalOf(setup, s.answer.value, Answers(Deciding(setup, s).outcomes), s.budget.truncated)))
         && (s.pub.published != [] ==> s.pub.last == Some(r))
  }

  ghost predicate Inv<T(!new)>(ids: T -> set<string>, setup: Setup<T>, s: State<T>) {
    && Sound(ids, s.pub) && PoolsOk(setup, s) && PhaseOk(setup, s)
    && (!s.aborted && (s.answer.Some? ==> Keeps(setup, s.answer.value.page)) ==> Represents(ids, s.pub))
  }

  lemma StartInv<T(!new)>(ids: T -> set<string>, setup: Setup<T>)
    ensures Inv(ids, setup, Start(setup))
  {
    LaunchSteady<T>(setup.types, setup.query, Budget(MAX_CALLS, false));
    assert [] + Flatten<T>([]) == [];
  }

  lemma SpeculativeReplyInv<T(!new)>(ids: T -> set<string>, setup: Setup<T>, s: State<T>, index: nat, outcome: Outcome<T>)
    requires Inv(ids, setup, s)
    ensures Inv(ids, setup, OnSpeculativeReply(ids, setup, s, index, outcome))
  {
    if index in s.spec.inFlight && index < |s.spec.outcomes| {
      ReplySteady(s.spec, index, outcome);
      if !s.spec.aborted {
        EnqueueSound(ids, s.pub, setup.page, outcome.items, index, false, true);
        EnqueueRepresents(ids, s.pub, setup.page, outcome.items, index, false, true);
      }
    }
  }

  lemma FinalReplyInv<T(!new)>(ids: T -> set<string>, setup: Setup<T>, s: State<T>, index: nat, outcome: Outcome<T>)
    requires Inv(ids, setup, s)
    ensures Inv(ids, setup, OnFinalReply(ids, setup, s, index, outcome))
  {
    if s.final.Some? && index in s.final.value.inFlight && index < |s.final.value.outcomes| {
      ReplySteady(s.final.value, index, outcome);
      if !s.final.value.aborted {
        EnqueueSound(ids, s.pub, setup.page, outcome.items, index, false, false);
      }
    }
  }

  lemma WithPageSound<T(!new)>(ids: T -> set<string>, setup: Setup<T>, p: Publication<T>, page: Option<SemanticPage<T>>)
    requires Sound(ids, p)
    ensures Sound(ids, WithPage(ids, setup, p, page))
  {
    var known := p.(semantic := page);
    assert Sound(ids, known);
    if page.Some? {
      EnqueueSound(ids, known, setup.page, page.value.items, |setup.types|, true, false);
    }
  }

  lemma WithPageRepresents<T(!new)>(ids: T -> set<string>, setup: Setup<T>, p: Publication<T>, page: Option<SemanticPage<T>>)
    requires Sound(ids, p) && Represents(ids, p)
    ensures Represents(ids, WithPage(ids, setup, p, page))
  {
    var known := p.(semantic := page);
    assert Sound(ids, known) && Represents(ids, known);
    if page.Some? {
      EnqueueRepresents(ids, known, setup.page, page.value.items, |setup.types|, true, false);
    }
  }

  lemma SemanticInv<T(!new)>(ids: T -> set<string>, setup: Setup<T>, s: State<T>, a: SemanticAnswer<T>)
    requires Inv(ids, setup, s)
    ensures Inv(ids, setup, OnSemantic(ids, setup, s, a))
  {
    if s.phase == AwaitSemantic && PossibleAnswer(setup, a) {
      if s.aborted {
        CancelSound(ids, s.pub);
      } else {
        WithPageSound(ids, setup, s.pub, a.page);
        WithPageRepresents(ids, setup, s.pub, a.page);
        if !Keeps(setup, a.page) {
          DiscardSound(ids, WithPage(ids, setup, s.pub, a.page));
        }
      }
    }
  }

  lemma AbortInv<T(!new)>(ids: T -> set<string>, setup: Setup<T>, s: State<T>)
    requires Inv(ids, setup, s)
    ensures Inv(ids, setup, OnAbort(s))
  {
    CancelSound(ids, s.pub);
  }

  lemma TimerInv<T(!new)>(ids: T -> set<string>, setup: Setup<T>, s: State<T>)
    requires Inv(ids, setup, s)
    ensures Inv(ids, setup, Step(ids, setup, s, TimerFires))
  {
    if s.pub.timer {
      FlushSound(ids, s.pub, setup.page, None);
      if s.answer.Some? ==> Keeps(setup, s.answer.value.page) {
        FlushRepresents(ids, s.pub, setup.page, None);
      }
    }
  }

  lemma FinishInv<T(!new)>(ids: T -> set<string>, setup: Setup<T>, s: State<T>)
    requires Inv(ids, setup, s) && !s.aborted && s.answer.Some?
    requires s.phase == AwaitKept || s.phase == AwaitFinal
    requires Idle(s.spec) && (s.final.Some? ==> Idle(s.final.value))
    ensures Inv(ids, setup, Finish(ids, setup, s, Deciding(setup, s)))
  {
    var terminal := TerminalOf(setup, s.answer.value, Answers(Deciding(setup, s).outcomes), s.budget.truncated);
    FlushSound(ids, s.pub, setup.page, Some(terminal));
    if Keeps(setup, s.answer.value.page) {
      FlushRepresents(ids, s.pub, setup.page, Some(terminal));
    }
  }

  lemma ThrowInv<T(!new)>(ids: T -> set<string>, setup: Setup<T>, s: State<T>)
    requires Inv(ids, setup, s) && s.aborted && Idle(s.spec) && (s.final.Some? ==> Idle(s.final.value))
    ensures Inv(ids, setup, Throw(s))
  {
    CancelSound(ids, s.pub);
  }

  lemma RelaunchInv<T(!new)>(ids: T -> set<string>, setup: Setup<T>, s: State<T>)
    requires Inv(ids, setup, s) && s.phase == AwaitDrain && Idle(s.spec) && !s.aborted
    ensures Inv(ids, setup, OnResume(ids, setup, s))
  {
    var (types, query) := setup.refine(s.answer.value.page);
    LaunchSteady<T>(types, query, s.budget);
  }

  lemma ResumeInv<T(!new)>(ids: T -> set<string>, setup: Setup<T>, s: State<T>)
    requires Inv(ids, setup, s)
    ensures Inv(ids, setup, OnResume(ids, setup, s))
  {
    if s.aborted && Idle(s.spec) && (s.final.Some? ==> Idle(s.final.value)) {
      ThrowInv(ids, setup, s);
    } else if !s.aborted && ((s.phase == AwaitKept && Idle(s.spec)) || (s.phase == AwaitFinal && Idle(s.final.value))) {
      FinishInv(ids, setup, s);
    } else if s.phase == AwaitDrain && Idle(s.spec) && !s.aborted {
      RelaunchInv(ids, setup, s);
    }
  }

  lemma {:induction false} RunInv<T(!new)>(ids: T -> set<string>, setup: Setup<T>, events: seq<Event<T>>)
    ensures Inv(ids, setup, Run(ids, setup, events))
  {
    if events == [] {
      StartInv(ids, setup);
    } else {
      var before := events[..|events| - 1];
      RunInv(ids, setup, before);
      var s := Run(ids, setup, before);
      match events[|events| - 1]
      case SpeculativeReply(index, outcome) => SpeculativeReplyInv(ids, setup, s, index, outcome);
      case FinalReply(index, outcome) => FinalReplyInv(ids, setup, s, index, outcome);
      case SemanticReply(a) => SemanticInv(ids, setup, s, a);
      case TimerFires => TimerInv(ids, setup, s);
      case Abort => AbortInv(ids, setup, s);
      case Resume => ResumeInv(ids, setup, s);
    }
  }

  lemma ReturnedPublication<T(!new)>(ids: T -> set<string>, p: Publication<T>)
    requires p.pending == []
    ensures Sound(ids, p) ==> Apart(ids, p.published)
    ensures Represents(ids, p) ==> multiset(p.published) == multiset(Unseen(ids, {}, p.arrived))
  {
    assert p.published + Flatten(p.pending) == p.published;
  }

  lemma ReturnedState<T(!new)>(ids: T -> set<string>, setup: Setup<T>, s: State<T>)
    requires Inv(ids, setup, s) && s.phase.Returned?
    ensures s.answer.Some? && s.pub.pending == [] && s.phase.result.items == s.pub.published && Sound(ids, s.pub)
    ensures Keeps(setup, s.answer.value.page) ==> Represents(ids, s.pub)
    ensures s.pub.published != [] ==> s.pub.updates != [] && s.pub.updates[|s.pub.updates| - 1] == s.phase.result
  {
  }

  /** What the invariant says about a search that has returned. */
  lemma {:induction false} ReturnedFacts<T(!new)>(ids: T -> set<string>, setup: Setup<T>, events: seq<Event<T>>)
    requires Run(ids, setup, events).phase.Returned?
    ensures var s := Run(ids, setup, events);
            var items := s.phase.result.items;
            && s.answer.Some? && Apart(ids, items)
            && (Keeps(setup, s.answer.value.page) ==> multiset(items) == multiset(Unseen(ids, {}, s.pub.arrived)))
            && (items != [] ==> s.pub.updates != [] && s.pub.updates[|s.pub.updates| - 1] == s.phase.result)
  {
    RunInv(ids, setup, events);
    var s := Run(ids, setup, events);
    ReturnedState(ids, setup, s);
    ReturnedPublication(ids, s.pub);
  }

  lemma {:induction false} PublicationFacts<T(!new)>(ids: T -> set<string>, setup: Setup<T>, events: seq<Event<T>>)
    ensures var s := Run(ids, setup, events);
            Growing(s.pub.updates) && (s.pub.pending != [] ==> s.pub.timer) && (s.aborted ==> Quiet(s))
  {
    RunInv(ids, setup, events);
  }

  /** The bounds that the pools and the budget keep. */
  ghost predicate Bounded<T>(s: State<T>) {
    && Calls(s) <= MAX_CALLS && InFlight(s) <= MAX_CONCURRENCY
    && NoRepeats(s.spec.dispatched) && (s.final.Some? ==> NoRepeats(s.final.value.dispatched))
  }

  /** Every slot of an idle phase that was not aborted is filled. */
  ghost predicate Filled<T>(p: Pool<T>) {
    !p.aborted && Idle(p) ==> forall i | 0 <= i < |p.outcomes| :: p.outcomes[i].Some?
  }

  lemma PoolsBounded<T>(setup: Setup<T>, s: State<T>)
    requires PoolsOk(setup, s)
    ensures Bounded(s) && Filled(s.spec) && (s.final.Some? ==> Filled(s.final.value))
  {
    DispatchedOnce(s.spec);
    if !s.spec.aborted && Idle(s.spec) {
      IdleIsComplete(s.spec);
    }
    if s.final.Some? {
      DispatchedOnce(s.final.value);
      if !s.final.value.aborted && Idle(s.final.value) {
        IdleIsComplete(s.final.value);
      }
    }
  }

  lemma {:induction false} RunBounded<T(!new)>(ids: T -> set<string>, setup: Setup<T>, events: seq<Event<T>>)
    ensures var s := Run(ids, setup, events);
            Bounded(s) && Filled(s.spec) && (s.final.Some? ==> Filled(s.final.value))
  {
    RunInv(ids, setup, events);
    PoolsBounded(setup, Run(ids, setup, events));
  }

  lemma RunSnoc<T(!new)>(ids: T -> set<string>, setup: Setup<T>, events: seq<Event<T>>, e: Event<T>)
    ensures Run(ids, setup, events + [e]) == Step(ids, setup, Run(ids, setup, events), e)
  {
    assert (events + [e])[..|events|] == events;
  }

  lemma RunPhase<T(!new)>(ids: T -> set<string>, setup: Setup<T>, events: seq<Event<T>>)
    ensures PhaseOk(setup, Run(ids, setup, events))
  {
    RunInv(ids, setup, events);
  }

  /** `t` has published what `s` had. */
  predicate AsSilent<T(==)>(s: State<T>, t: State<T>) {
    t.aborted && t.pub.updates == s.pub.updates && t.pub.published == s.pub.published
  }

  /** A cancelled search publishes nothing more, whatever still happens to it. */
  lemma {:induction false} AbortSilences<T(!new)>(ids: T -> set<string>, setup: Setup<T>, events: seq<Event<T>>, more: seq<Event<T>>)
    requires Run(ids, setup, events).aborted
    ensures AsSilent(Run(ids, setup, events), Run(ids, setup, events + more))
  {
    if more == [] {
      assert events + more == events;
    } else {
      var front, e := more[..|more| - 1], more[|more| - 1];
      AbortSilences(ids, setup, events, front);
      assert events + more == events + front + [e];
      RunSnoc(ids, setup, events + front, e);
      RunPhase(ids, setup, events + front);
      StepAfterAbort(ids, setup, Run(ids, setup, events + front), e);
    }
  }

  lemma StepAfterAbort<T(!new)>(ids: T -> set<string>, setup: Setup<T>, s: State<T>, e: Event<T>)
    requires PhaseOk(setup, s) && s.aborted
    ensures AsSilent(s, Step(ids, setup, s, e))
  {
  }

  /** An answer that throws the speculation away: what stays is what was published, and of the answer's own items those
      that were new against everything known, pending speculation included. */
  lemma {:induction false} DiscardingAnswer<T(!new)>(ids: T -> set<string>, setup: Setup<T>, s: State<T>, a: SemanticAnswer<T>)
    requires Sound(ids, s.pub) && s.phase == AwaitSemantic && !s.aborted
    requires PossibleAnswer(setup, a) && a.page.Some? && !Keeps(setup, a.page)
    ensures var q := Step(ids, setup, s, SemanticReply(a)).pub;
            multiset(q.published + Flatten(q.pending))
            == multiset(Staying(s.pub) + Unseen(ids, s.pub.known, a.page.value.items))
  {
    var known := s.pub.(semantic := a.page);
    assert Sound(ids, known) && Staying(known) == Staying(s.pub);
    DiscardAfterArrival(ids, known, setup.page, a.page.value.items, |setup.types|);
  }
}
