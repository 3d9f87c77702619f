/** The references and effect-local variables of `usePlaybackCoordination`, updated in place. */
module CommandPoller {
  import opened Prelude
  import opened CommandPolling
  import C = CommandPolling

  class Coordination {
    var cursor: Option<string>
    var inFlight: bool
    var playerActive: bool
    var visible: bool
    var effects: seq<Effect>
    var polls: seq<C.Poll>
    var handled: seq<Handled>

    ghost function View(): Poller
      reads this
    {
      Poller(cursor, inFlight, playerActive, visible, effects, polls, handled)
    }

    constructor ()
      ensures View() == IDLE
    {
      cursor, inFlight, playerActive, visible, effects, polls, handled := None, false, false, true, [], [], [];
    }

    method SchedulePoll(k: nat)
      requires k < |effects|
      modifies this`effects
      ensures View() == C.SchedulePoll(old(View()), k)
    {
      if !effects[k].active || !visible {
        return;
      }
      effects := effects[k := effects[k].(pollTimer := true)];
    }

    method Poll(k: nat)
      requires k < |effects|
      modifies this
      ensures View() == StartPoll(old(View()), k)
    {
      effects := effects[k := effects[k].(pollTimer := false)];
      if !effects[k].active || !visible {
        return;
      }
      if inFlight {
        SchedulePoll(k);
        return;
      }
      inFlight := true;
      polls := polls + [Asked(k, cursor)];
    }

    method Resume(k: nat)
      requires k < |effects|
      modifies this
      ensures View() == Resumed(old(View()), k)
    {
      effects := effects[k := effects[k].(pollTimer := false)];
      if !visible {
        return;
      }
      Poll(k);
    }

    /** The `finally` block of a poll. */
    method Release(j: nat)
      requires j < |polls| && polls[j].effect < |effects|
      modifies this
      ensures View() == FinishPoll(old(View()), j)
    {
      var k := polls[j].effect;
      inFlight := false;
      polls := polls[..j] + polls[j + 1..];
      SchedulePoll(k);
    }

    /** Handles the next fetched command: the cursor moves before the command is executed. */
    method Advance(j: nat, rest: seq<Command>, now: int)
      requires j < |polls| && polls[j].effect < |effects|
      modifies this
      ensures View() == NextCommand(old(View()), j, rest, now)
    {
      if !effects[polls[j].effect].active || |rest| == 0 {
        Release(j);
        return;
      }
      var command := rest[0];
      cursor := Some(command.id);
      var action := Execute(command, now);
      handled := handled + [Handled(command.id, action, now, playerActive)];
      polls := polls[j := Executing(polls[j].effect, rest[1..])];
    }

    method Execute(command: Command, now: int) returns (action: Action)
      ensures action == ActionOf(command, now, playerActive)
    {
      if !command.waiting {
        return Ignored;
      }
      if now >= command.expiresAt {
        return ReportedExpired;
      }
      if command.kind.Load? {
        return if !command.kind.complete then ReportedUnsupported else Loaded;
      }
      if !playerActive {
        return ReportedInvalidState;
      }
      return Dispatched;
    }

    /** Whatever happens to the page, given the server's log at that moment. */
    method Handle(e: Event, log: seq<Command>)
      modifies this
      ensures View() == OnPage(old(View()), log, e)
    {
      match e
      case Issue(_) =>
      case Mount => Start();
      case Unmount =>
        if |effects| > 0 && effects[|effects| - 1].active {
          effects := effects[|effects| - 1 := Effect(false, false)];
        }
      case Visibility(v) =>
        visible := v;
        if |effects| > 0 && effects[|effects| - 1].active {
          Resume(|effects| - 1);
        }
      case PlayerState(active) =>
        playerActive := active;
        if |effects| > 0 && effects[|effects| - 1].active && active && visible {
          SchedulePoll(|effects| - 1);
        }
      case TimerFires(k) =>
        if k < |effects| && effects[k].pollTimer {
          Poll(k);
        }
      case Response(j, upTo, now) => Receive(j, upTo, now, log);
      case RequestFails(j) =>
        if j < |polls| && polls[j].Asked? && polls[j].effect < |effects| {
          Release(j);
        }
      case Executed(j, ok, now) =>
        if j < |polls| && polls[j].Executing? && polls[j].effect < |effects| {
          if ok {
            Advance(j, polls[j].rest, now);
          } else {
            Release(j);
          }
        }
    }

    /** The effect runs, unless one is mounted. */
    method Start()
      modifies this
      ensures View() == OnPage(old(View()), [], Mount)
    {
      if |effects| == 0 || !effects[|effects| - 1].active {
        effects := effects + [Effect(true, false)];
        Resume(|effects| - 1);
      }
    }

    /** The server answers a poll with the commands after the cursor it was asked with, up to `upTo`. */
    method Receive(j: nat, upTo: nat, now: int, log: seq<Command>)
      modifies this
      ensures View() == OnPage(old(View()), log, Response(j, upTo, now))
    {
      if j < |polls| && polls[j].Asked? && polls[j].effect < |effects| {
        var from := After(log, polls[j].since);
        if from <= upTo <= |log| {
          Advance(j, log[from..upTo], now);
        }
      }
    }
  }

  /** The in-place code over a whole run: it ends in the state that the run of the model ends in, so what is proved of
      every run holds of the code. */
  method RunPage(events: seq<Event>) returns (page: Coordination, log: seq<Command>)
    ensures fresh(page) && World(page.View(), log) == Run(events)
  {
    page := new Coordination();
    log := [];
    for i := 0 to |events|
      invariant fresh(page) && World(page.View(), log) == Run(events[..i])
    {
      assert events[..i + 1][..i] == events[..i];
      page.Handle(events[i], log);
      if events[i].Issue? && NewCommand(log, events[i].command) {
        log := log + [events[i].command];
      }
    }
    assert events[..|events|] == events;
  }
}
