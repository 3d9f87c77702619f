/** Fetched commands are handled: how far a poll gets, and what can end it early. */
module CommandDelivery {
  import opened Prelude
  import opened CommandPolling

  /** The poll in flight belongs to an active effect. */
  predicate LivePoll(w: World) {
    |w.p.polls| == 1 && w.p.polls[0].effect < |w.p.effects| && w.p.effects[w.p.polls[0].effect].active
  }

  /** A response that the server can give to the poll in flight: the commands up to `upTo`. */
  predicate Answers(w: World, e: Event) {
    LivePoll(w) && w.p.polls[0].Asked? && e.Response? && e.poll == 0 && |w.p.handled| <= e.upTo <= |w.log|
  }

  /** An event that fails an execution or ends the effect. */
  predicate Disturbs(e: Event) {
    e.Unmount? || (e.Executed? && !e.ok)
  }

  /** How many executions of the poll in flight have succeeded. */
  function Successes(events: seq<Event>): nat {
    if events == [] then 0
    else
      var last := events[|events| - 1];
      Successes(events[..|events| - 1]) + if Succeeds(last) then 1 else 0
  }

  /** The commands up to `upTo` are handled, or the live poll has started the `done`-th and holds the rest of them. */
  predicate OnTheWay(w: World, upTo: nat, done: nat) {
    || |w.p.handled| >= upTo
    || (LivePoll(w) && w.p.polls[0].Executing? && |w.p.handled| == done && done + |w.p.polls[0].rest| == upTo)
  }

  lemma ResponseStarts(w: World, e: Event)
    requires Inv(w) && Answers(w, e)
    ensures OnTheWay(Step(w, e), e.upTo, |w.p.handled| + 1)
  {
    if w.p.handled != [] {
      AfterCursor(w.log, |w.p.handled|);
    }
    assert After(w.log, w.p.cursor) == |w.p.handled|;
  }

  lemma HandledGrows(p: Poller, log: seq<Command>, e: Event)
    ensures |OnPage(p, log, e).handled| >= |p.handled|
  {
  }

  lemma ExecutedAdvances(w: World, upTo: nat, done: nat, e: Event)
    requires Inv(w) && OnTheWay(w, upTo, done) && e.Executed? && e.poll == 0 && e.ok
    ensures OnTheWay(Step(w, e), upTo, done + 1)
  {
    HandledGrows(w.p, w.log, e);
  }

  lemma OthersWait(w: World, upTo: nat, done: nat, e: Event)
    requires Inv(w) && OnTheWay(w, upTo, done) && !Disturbs(e) && !(e.Executed? && e.poll == 0)
    ensures OnTheWay(Step(w, e), upTo, done)
  {
    HandledGrows(w.p, w.log, e);
    if |w.p.handled| < upTo {
      assert w.p.polls[0].effect == |w.p.effects| - 1;
    }
  }

  predicate Succeeds(e: Event) {
    e.Executed? && e.poll == 0 && e.ok
  }

  lemma StepDelivers(w: World, upTo: nat, done: nat, e: Event)
    requires Inv(w) && OnTheWay(w, upTo, done) && !Disturbs(e)
    ensures OnTheWay(Step(w, e), upTo, if Succeeds(e) then done + 1 else done)
  {
    if Succeeds(e) {
      ExecutedAdvances(w, upTo, done, e);
    } else {
      OthersWait(w, upTo, done, e);
    }
  }

  lemma RunSnoc(events: seq<Event>, e: Event)
    ensures Run(events + [e]) == Step(Run(events), e)
  {
    assert (events + [e])[..|events|] == events;
  }

  lemma {:induction false} RunStarts(before: seq<Event>, e: Event)
    requires Answers(Run(before), e)
    ensures OnTheWay(Run(before + [e]), e.upTo, |Run(before).p.handled| + 1)
  {
    RunInv(before);
    RunSnoc(before, e);
    ResponseStarts(Run(before), e);
  }

  lemma {:induction false} RunDelivers(events: seq<Event>, e: Event, upTo: nat, done: nat)
    requires OnTheWay(Run(events), upTo, done) && !Disturbs(e)
    ensures OnTheWay(Run(events + [e]), upTo, if Succeeds(e) then done + 1 else done)
  {
    RunInv(events);
    RunSnoc(events, e);
    StepDelivers(Run(events), upTo, done, e);
  }

  lemma {:induction false} KeepsDelivering(start: seq<Event>, upTo: nat, done: nat, after: seq<Event>)
    requires OnTheWay(Run(start), upTo, done) && forall i | 0 <= i < |after| :: !Disturbs(after[i])
    ensures OnTheWay(Run(start + after), upTo, done + Successes(after))
  {
    if after == [] {
      assert start + after == start;
    } else {
      var front, last := after[..|after| - 1], after[|after| - 1];
      KeepsDelivering(start, upTo, done, front);
      RunDelivers(start + front, last, upTo, done + Successes(front));
      assert start + after == start + front + [last];
    }
  }

  /** A poll of an active effect that receives the commands up to `upTo` handles the first of them at once and one more
      with each execution that succeeds: once enough have, and unless an execution fails or the effect ends, all of them
      are handled. */
  lemma {:induction false} FetchedCommandsAreHandled(before: seq<Event>, e: Event, after: seq<Event>)
    requires Answers(Run(before), e) && forall i | 0 <= i < |after| :: !Disturbs(after[i])
    ensures var h, w := |Run(before).p.handled|, Run(before + [e] + after);
            && (h + 1 + Successes(after) >= e.upTo ==> |w.p.handled| >= e.upTo)
            && (e.upTo > h ==> |w.p.handled| >= if h + 1 + Successes(after) < e.upTo then h + 1 + Successes(after) else e.upTo)
  {
    RunStarts(before, e);
    KeepsDelivering(before + [e], e.upTo, |Run(before).p.handled| + 1, after);
  }

  /** Everything fetched is handled, the request or an execution failed, or the effect ended. */
  predicate EndsPoll(w: World, e: Event) {
    && |w.p.polls| == 1 && w.p.polls[0].effect < |w.p.effects|
    && var poll := w.p.polls[0];
    || e.RequestFails? || (e.Executed? && !e.ok)
    || !w.p.effects[poll.effect].active
    || (poll.Asked? && e.Response? && e.upTo == |w.p.handled|)
    || (poll.Executing? && e.Executed? && poll.rest == [])
  }

  lemma ResponseKeepsPoll(w: World, upTo: nat, now: int)
    requires Inv(w) && LivePoll(w) && w.p.polls[0].Asked? && upTo != |w.p.handled|
    ensures Step(w, Response(0, upTo, now)).p.polls != []
  {
    if w.p.handled != [] {
      AfterCursor(w.log, |w.p.handled|);
    }
    assert After(w.log, w.p.cursor) == |w.p.handled|;
  }

  lemma StepEndsPoll(w: World, e: Event)
    requires Inv(w) && w.p.polls != [] && Step(w, e).p.polls == []
    ensures EndsPoll(w, e)
  {
    if e.Response? && LivePoll(w) && w.p.polls[0].Asked? && e.poll == 0 && e.upTo != |w.p.handled| {
      ResponseKeepsPoll(w, e.upTo, e.now);
    }
  }

  /** In every run a poll ends only because everything it fetched is handled, its request or an execution failed, or its
      effect ended. */
  lemma {:induction false} PollEndsForAReason(events: seq<Event>, e: Event)
    requires Run(events).p.polls != [] && Run(events + [e]).p.polls == []
    ensures EndsPoll(Run(events), e)
  {
    RunInv(events);
    RunSnoc(events, e);
    StepEndsPoll(Run(events), e);
  }

  /** A poll starts only for an active effect on a visible page, and asks from the cursor. */
  lemma {:induction false} PollsOnlyWhenWanted(events: seq<Event>, e: Event)
    requires Run(events).p.polls == [] && Run(events + [e]).p.polls != []
    ensures var q := Run(events + [e]).p;
            && q.visible && q.polls[0].effect < |q.effects| && q.effects[q.polls[0].effect].active
            && q.polls[0] == Asked(q.polls[0].effect, q.cursor)
  {
    RunInv(events);
    RunSnoc(events, e);
    StepStartsPoll(Run(events), e);
  }

  lemma StepStartsPoll(w: World, e: Event)
    requires w.p.polls == [] && Step(w, e).p.polls != []
    ensures var q := Step(w, e).p;
            && |q.polls| == 1 && q.visible && q.polls[0].effect < |q.effects| && q.effects[q.polls[0].effect].active
            && q.polls[0] == Asked(q.polls[0].effect, q.cursor)
  {
  }
}
