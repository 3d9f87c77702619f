/** The bounded worker pool that asks addons for search results. */
module AddonPool {
  import opened Prelude

  const MAX_CALLS := 16
  const MAX_CONCURRENCY := 4

  datatype Outcome<T> = Outcome(items: seq<T>, failed: bool, hasErrors: bool)

  datatype Budget = Budget(remaining: nat, truncated: bool)

  /** One call of `searchAddons`: `outcomes` has a slot for each permitted call, `dispatched` lists the calls made. */
  datatype Pool<T> = Pool(
    types: seq<string>,
    query: string,
    nextIndex: nat,
    inFlight: set<nat>,
    outcomes: seq<Option<Outcome<T>>>,
    aborted: bool,
    dispatched: seq<nat>)

  function Min(a: nat, b: nat): nat {
    if a < b then a else b
  }

  function Count(n: nat): seq<nat> {
    seq(n, i requires 0 <= i < n => i)
  }

  /** One turn of a worker's loop: take the next index unless there is none or the search was aborted. */
  function Dispatch<T>(p: Pool<T>): Pool<T> {
    if p.nextIndex < |p.outcomes| && !p.aborted
    then p.(nextIndex := p.nextIndex + 1, inFlight := p.inFlight + {p.nextIndex}, dispatched := p.dispatched + [p.nextIndex])
    else p
  }

  function DispatchAll<T>(p: Pool<T>, workers: nat): Pool<T> {
    if workers == 0 then p else Dispatch(DispatchAll(p, workers - 1))
  }

  function Reserve(types: seq<string>, budget: Budget): Budget {
    var calls := Min(|types|, budget.remaining);
    Budget(budget.remaining - calls, budget.truncated || calls < |types|)
  }

  function Unstarted<T>(types: seq<string>, query: string, calls: nat): Pool<T> {
    Pool(types, query, 0, {}, seq(calls, _ => None), false, [])
  }

  function Launch<T>(types: seq<string>, query: string, budget: Budget): Pool<T> {
    var calls := Min(|types|, budget.remaining);
    DispatchAll(Unstarted(types, query, calls), Min(MAX_CONCURRENCY, calls))
  }

  /** A call answers: its slot is filled and its worker goes on. */
  function Reply<T>(p: Pool<T>, index: nat, outcome: Outcome<T>): Pool<T>
    requires index < |p.outcomes|
  {
    Dispatch(p.(inFlight := p.inFlight - {index}, outcomes := p.outcomes[index := Some(outcome)]))
  }

  predicate Idle<T>(p: Pool<T>) {
    p.inFlight == {}
  }

  /** `outcomes.filter(Boolean)`. */
  function Answers<T>(outcomes: seq<Option<Outcome<T>>>): seq<Outcome<T>> {
    if outcomes == [] then []
    else
      Answers(outcomes[..|outcomes| - 1])
      + (if outcomes[|outcomes| - 1].Some? then [outcomes[|outcomes| - 1].value] else [])
  }

  ghost predicate Steady<T>(p: Pool<T>) {
    && p.nextIndex <= |p.outcomes| <= |p.types|
    && (forall i | i in p.inFlight :: i < p.nextIndex)
    && (forall i | 0 <= i < |p.outcomes| :: p.outcomes[i].Some? <==> i < p.nextIndex && i !in p.inFlight)
    && |p.inFlight| <= MAX_CONCURRENCY
    && p.dispatched == Count(p.nextIndex)
    && (!p.aborted && p.nextIndex < |p.outcomes| ==> p.inFlight != {})
  }

  lemma {:induction false} DispatchAllOpens<T>(p: Pool<T>, workers: nat)
    requires p.nextIndex == 0 && p.inFlight == {} && p.dispatched == [] && !p.aborted && workers <= |p.outcomes|
    ensures var q := DispatchAll(p, workers);
            && q == p.(nextIndex := workers, inFlight := q.inFlight, dispatched := Count(workers))
            && (forall i :: i in q.inFlight <==> 0 <= i < workers)
            && |q.inFlight| == workers
  {
    if workers > 0 {
      DispatchAllOpens(p, workers - 1);
      assert Count(workers) == Count(workers - 1) + [workers - 1];
    }
  }

  lemma LaunchSteady<T>(types: seq<string>, query: string, budget: Budget)
    ensures var p := Launch<T>(types, query, budget);
            && Steady(p) && !p.aborted && p.types == types && p.query == query
            && |p.outcomes| + Reserve(types, budget).remaining == budget.remaining
  {
    var calls := Min(|types|, budget.remaining);
    DispatchAllOpens(Unstarted<T>(types, query, calls), Min(MAX_CONCURRENCY, calls));
    var p := Launch<T>(types, query, budget);
    assert calls > 0 ==> 0 in p.inFlight;
  }

  lemma {:induction false} ReplySteady<T>(p: Pool<T>, index: nat, outcome: Outcome<T>)
    requires Steady(p) && index in p.inFlight
    ensures var q := Reply(p, index, outcome);
            && Steady(q) && q.types == p.types && q.query == p.query && q.aborted == p.aborted
            && |q.outcomes| == |p.outcomes|
  {
    var freed := p.(inFlight := p.inFlight - {index}, outcomes := p.outcomes[index := Some(outcome)]);
    var q := Reply(p, index, outcome);
    assert p.nextIndex in q.inFlight || q == freed;
    assert Count(p.nextIndex + 1) == Count(p.nextIndex) + [p.nextIndex];
    assert |freed.inFlight| == |p.inFlight| - 1;
  }

  /** A phase that was not aborted and has no call in flight has filled every slot. */
  lemma IdleIsComplete<T>(p: Pool<T>)
    requires Steady(p) && Idle(p) && !p.aborted
    ensures p.nextIndex == |p.outcomes| && forall i | 0 <= i < |p.outcomes| :: p.outcomes[i].Some?
  {
  }

  /** Filtering a fully answered slot list loses nothing. */
  lemma {:induction false} AnswersOfComplete<T>(outcomes: seq<Option<Outcome<T>>>)
    requires forall i | 0 <= i < |outcomes| :: outcomes[i].Some?
    ensures |Answers(outcomes)| == |outcomes|
    ensures forall i | 0 <= i < |outcomes| :: Answers(outcomes)[i] == outcomes[i].value
  {
    if outcomes != [] {
      AnswersOfComplete(outcomes[..|outcomes| - 1]);
    }
  }

  /** No index is dispatched twice. */
  lemma DispatchedOnce<T>(p: Pool<T>)
    requires Steady(p)
    ensures NoRepeats(p.dispatched) && |p.dispatched| <= |p.outcomes|
    ensures forall i | 0 <= i < |p.dispatched| :: p.dispatched[i] < |p.types|
  {
  }
}
