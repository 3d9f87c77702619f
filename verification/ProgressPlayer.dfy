/** The references of the player component that hold the progress queue, updated in place. */
module ProgressPlayer {
  import opened Prelude
  import opened ProgressQueue

  class Player {
    var pending: seq<Write>
    var request: Option<Write>
    var version: int
    var current: Title
    var drains: seq<Drain>
    ghost var log: seq<Note>

    ghost function View(): Client
      reads this
    {
      Client(pending, request, version, current, drains, log)
    }

    constructor ()
      ensures View() == INITIAL
    {
      pending, request, version, current, drains, log := [], None, 0, "", [], [];
    }

    /** `completed` calls save the end of the title; others save the floor of the given position. */
    method PersistProgress(completed: bool, position: real, duration: Option<real>)
      modifies this
      ensures View() == Step(old(View()), Persist(completed, position, duration))
    {
      if current == "" || duration.None? || duration.value <= 0.0 {
        return;
      }
      var at := if completed then duration.value.Floor else position.Floor;
      if !completed && at <= 0 {
        return;
      }
      var next := Write(current, at, duration.value.Floor, completed, version);
      var waiting := Lookup(pending, current);
      if waiting.Some? {
        pending := Put(pending, Coalesce(waiting.value, next));
      } else if request.Some? && request.value.title == current {
        pending := Put(pending, Coalesce(request.value, next));
      } else {
        pending := Put(pending, next);
      }
      log := log + [Called(current, at, duration.value.Floor, completed)];
      if request.None? {
        var drain := TakeNext();
        drains := drains + drain;
      }
    }

    /** The head of the drain's loop: the suspended drain, or nothing when the queue is empty. */
    method TakeNext() returns (drain: seq<Drain>)
      modifies this`pending, this`request, this`log
      ensures View() == Continue(old(View())).0 && drain == Continue(old(View())).1
    {
      if |pending| == 0 {
        return [];
      }
      var next := pending[0];
      pending := pending[1..];
      request := Some(next);
      log := log + [Sent(next)];
      drain := [Updating(next)];
    }

    /** `finally`, and on to the next round of the loop. */
    method EndRequest(k: nat)
      requires k < |drains|
      modifies this
      ensures View() == Settle(old(View()), k)
    {
      request := None;
      log := log + [Settled(drains[k].next.title)];
      var drain := TakeNext();
      drains := drains[..k] + drain + drains[k + 1..];
    }

    method UpdateSucceeded(k: nat, saved: int)
      requires k < |drains| && !drains[k].Refreshing?
      modifies this
      ensures View() == Step(old(View()), UpdateOk(k, saved))
    {
      var t := drains[k].next.title;
      log := log + [Saved(t, saved)];
      if current == t {
        version := saved;
      }
      var waiting := Lookup(pending, t);
      if waiting.Some? {
        pending := Put(pending, waiting.value.(expectedVersion := saved));
      }
      EndRequest(k);
    }

    method UpdateRejected(k: nat, conflict: bool)
      requires k < |drains| && !drains[k].Refreshing?
      modifies this
      ensures View() == Step(old(View()), if conflict then UpdateConflict(k) else UpdateFailed(k))
    {
      if conflict && drains[k].Updating? {
        drains := drains[k := Refreshing(drains[k].next)];
      } else {
        EndRequest(k);
      }
    }

    method Refreshed(k: nat, stored: Option<Progress>)
      requires k < |drains| && drains[k].Refreshing?
      modifies this
      ensures View() == Step(old(View()), RefreshOk(k, stored))
    {
      var next := drains[k].next;
      var latest := if stored.Some? then stored.value.version else 0;
      next := next.(expectedVersion := latest);
      if stored.Some? {
        var s := stored.value;
        next := Coalesce(Write(next.title, s.position, s.duration, s.completed, s.version), next);
      }
      log := log + [ReadOf(next.title, stored)];
      var waiting := Lookup(pending, next.title);
      LookupTitle(pending, next.title);
      var t := next.title;
      if waiting.Some? {
        next := Coalesce(next, waiting.value);
        next := next.(expectedVersion := latest);
        pending := Remove(pending, t);
      } else {
        RemoveAbsent(pending, t);
      }
      request := Some(next);
      log := log + [Sent(next)];
      drains := drains[k := Retrying(next)];
    }

    method RefreshRejected(k: nat)
      requires k < |drains| && drains[k].Refreshing?
      modifies this
      ensures View() == Step(old(View()), RefreshFailed(k))
    {
      EndRequest(k);
    }

    /** Whatever happens to the player; an answer for a drain that is not waiting for it changes nothing. */
    method Handle(e: Event)
      modifies this
      ensures View() == Step(old(View()), e)
    {
      match e
      case Persist(completed, position, duration) => PersistProgress(completed, position, duration);
      case UpdateOk(k, saved) =>
        if k < |drains| && !drains[k].Refreshing? {
          UpdateSucceeded(k, saved);
        }
      case UpdateConflict(k) =>
        if k < |drains| && !drains[k].Refreshing? {
          UpdateRejected(k, true);
        }
      case UpdateFailed(k) =>
        if k < |drains| && !drains[k].Refreshing? {
          UpdateRejected(k, false);
        }
      case RefreshOk(k, stored) =>
        if k < |drains| && drains[k].Refreshing? {
          Refreshed(k, stored);
        }
      case RefreshFailed(k) =>
        if k < |drains| && drains[k].Refreshing? {
          RefreshRejected(k);
        }
      case SetTitle(t) =>
        current, version := t, 0;
        log := log + [Titled(t)];
      case SetVersion(v) =>
        version := v;
        log := log + [Versioned(v)];
    }
  }

  /** The in-place code over a whole run: it ends in the state that the run of the model ends in, so what is proved of
      every run holds of the code. */
  method RunPlayer(events: seq<Event>) returns (player: Player)
    ensures fresh(player) && player.View() == Run(events)
  {
    player := new Player();
    for i := 0 to |events|
      invariant fresh(player) && player.View() == Run(events[..i])
    {
      assert events[..i + 1][..i] == events[..i];
      player.Handle(events[i]);
    }
    assert events[..|events|] == events;
  }

  /** Deleting a key that is not there changes nothing. */
  lemma {:induction false} RemoveAbsent(pending: seq<Write>, t: Title)
    ensures Lookup(pending, t).None? ==> Remove(pending, t) == pending
  {
    if pending != [] {
      RemoveAbsent(pending[1..], t);
    }
  }
}
