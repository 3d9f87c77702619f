/** Polling for playback commands: one cursor and one in-flight guard shared by successive effects of a component. */
module CommandPolling {
  import opened Prelude

  datatype Kind = Load(complete: bool) | Control

  datatype Command = Command(id: string, waiting: bool, expiresAt: int, kind: Kind)

  /** What executing a command does. */
  datatype Action = Ignored | ReportedExpired | ReportedUnsupported | Loaded | ReportedInvalidState | Dispatched

  function ActionOf(c: Command, now: int, playerActive: bool): Action {
    if !c.waiting then Ignored
    else if now >= c.expiresAt then ReportedExpired
    else if c.kind.Load? then if c.kind.complete then Loaded else ReportedUnsupported
    else if !playerActive then ReportedInvalidState
    else Dispatched
  }

  /** A command handled: what was done with it, and the time and player state it was decided by. */
  datatype Handled = Handled(id: string, action: Action, now: int, playerActive: bool)

  datatype Effect = Effect(active: bool, pollTimer: bool)

  /** A poll of effect `effect`, waiting for the server or executing the first of the commands it fetched. */
  datatype Poll = Asked(effect: nat, since: Option<string>) | Executing(effect: nat, rest: seq<Command>)

  datatype Poller = Poller(
    cursor: Option<string>,
    inFlight: bool,
    playerActive: bool,
    visible: bool,
    effects: seq<Effect>,
    polls: seq<Poll>,
    handled: seq<Handled>)

  /** The page and the server's log of commands. */
  datatype World = World(p: Poller, log: seq<Command>)

  datatype Event =
    | Issue(command: Command)
    | Mount
    | Unmount
    | Visibility(visible: bool)
    | PlayerState(active: bool)
    | TimerFires(effect: nat)
    | Response(poll: nat, upTo: nat, now: int)
    | RequestFails(poll: nat)
    | Executed(poll: nat, ok: bool, now: int)

  const IDLE := Poller(None, false, false, true, [], [], [])

  // ---------------------------------------------------------------- the functions of the effect

  function SchedulePoll(p: Poller, k: nat): Poller
    requires k < |p.effects|
  {
    if p.effects[k].active && p.visible then p.(effects := p.effects[k := p.effects[k].(pollTimer := true)]) else p
  }

  function ClearTimer(p: Poller, k: nat): Poller
    requires k < |p.effects|
  {
    p.(effects := p.effects[k := p.effects[k].(pollTimer := false)])
  }

  function StartPoll(p: Poller, k: nat): Poller
    requires k < |p.effects|
  {
    var q := ClearTimer(p, k);
    if !q.effects[k].active || !q.visible then q
    else if q.inFlight then SchedulePoll(q, k)
    else q.(inFlight := true, polls := q.polls + [Asked(k, q.cursor)])
  }

  function Resumed(p: Poller, k: nat): Poller
    requires k < |p.effects|
  {
    var q := ClearTimer(p, k);
    if q.visible then StartPoll(q, k) else q
  }

  /** `finally`: release the guard and schedule the effect's next poll. */
  function FinishPoll(p: Poller, j: nat): Poller
    requires j < |p.polls| && p.polls[j].effect < |p.effects|
  {
    SchedulePoll(p.(inFlight := false, polls := p.polls[..j] + p.polls[j + 1..]), p.polls[j].effect)
  }

  /** The loop over fetched commands, up to its next await. */
  function NextCommand(p: Poller, j: nat, rest: seq<Command>, now: int): Poller
    requires j < |p.polls| && p.polls[j].effect < |p.effects|
  {
    if rest == [] || !p.effects[p.polls[j].effect].active then FinishPoll(p, j)
    else
      p.(cursor := Some(rest[0].id),
         polls := p.polls[j := Executing(p.polls[j].effect, rest[1..])],
         handled := p.handled + [Handled(rest[0].id, ActionOf(rest[0], now, p.playerActive), now, p.playerActive)])
  }

  // ---------------------------------------------------------------- steps of the world

  predicate Mounted(p: Poller) {
    p.effects != [] && p.effects[|p.effects| - 1].active
  }

  /** The position in the log that follows a cursor. */
  function After(log: seq<Command>, since: Option<string>): nat {
    if since.None? || log == [] then 0
    else if log[|log| - 1].id == since.value then |log|
    else After(log[..|log| - 1], since)
  }

  function OnPage(p: Poller, log: seq<Command>, e: Event): Poller {
    match e
    case Issue(_) => p
    case Mount =>
      if Mounted(p) then p else Resumed(p.(effects := p.effects + [Effect(true, false)]), |p.effects|)
    case Unmount =>
      if !Mounted(p) then p else p.(effects := p.effects[|p.effects| - 1 := Effect(false, false)])
    case Visibility(v) =>
      if Mounted(p) then Resumed(p.(visible := v), |p.effects| - 1) else p.(visible := v)
    case PlayerState(active) =>
      var q := p.(playerActive := active);
      if Mounted(q) && active && q.visible then SchedulePoll(q, |q.effects| - 1) else q
    case TimerFires(k) =>
      if k < |p.effects| && p.effects[k].pollTimer then StartPoll(p, k) else p
    case Response(j, upTo, now) =>
      if j >= |p.polls| || !p.polls[j].Asked? || p.polls[j].effect >= |p.effects| then p
      else
        var from := After(log, p.polls[j].since);
        if from <= upTo <= |log| then NextCommand(p, j, log[from..upTo], now) else p
    case RequestFails(j) =>
      if j < |p.polls| && p.polls[j].Asked? && p.polls[j].effect < |p.effects| then FinishPoll(p, j) else p
    case Executed(j, ok, now) =>
      if j >= |p.polls| || !p.polls[j].Executing? || p.polls[j].effect >= |p.effects| then p
      else if !ok then FinishPoll(p, j)
      else NextCommand(p, j, p.polls[j].rest, now)
  }

  predicate NewCommand(log: seq<Command>, c: Command) {
    forall i | 0 <= i < |log| :: log[i].id != c.id
  }

  function Step(w: World, e: Event): World {
    World(OnPage(w.p, w.log, e), if e.Issue? && NewCommand(w.log, e.command) then w.log + [e.command] else w.log)
  }

  function Run(events: seq<Event>): World {
    if events == [] then World(IDLE, []) else Step(Run(events[..|events| - 1]), events[|events| - 1])
  }

  // ---------------------------------------------------------------- what every run keeps

  ghost predicate DistinctIds(log: seq<Command>) {
    forall i, j | 0 <= i < j < |log| :: log[i].id != log[j].id
  }

  /** The handled commands are the first ones of the log, and the cursor names the last of them. */
  ghost predicate HandledPrefix(w: World) {
    && |w.p.handled| <= |w.log|
    && (forall i | 0 <= i < |w.p.handled| :: w.p.handled[i].id == w.log[i].id)
    && w.p.cursor == if w.p.handled == [] then None else Some(w.log[|w.p.handled| - 1].id)
  }

  ghost predicate OnePoll(w: World) {
    && |w.p.polls| <= 1
    && (w.p.inFlight <==> w.p.polls != [])
    && (w.p.polls != [] ==>
          && w.p.polls[0].effect < |w.p.effects|
          && match w.p.polls[0]
             case Asked(_, since) => since == w.p.cursor
             case Executing(_, rest) =>
               var n := |w.p.handled|;
               n + |rest| <= |w.log| && rest == w.log[n..n + |rest|])
  }

  ghost predicate OnlyLatestActive(p: Poller) {
    forall k | 0 <= k < |p.effects| - 1 :: !p.effects[k].active
  }

  /** While an effect is active and the page visible, its timer is armed or its poll is running. */
  predicate KeepsPolling(p: Poller) {
    Mounted(p) && p.visible ==>
      p.effects[|p.effects| - 1].pollTimer || (p.polls != [] && p.polls[0].effect == |p.effects| - 1)
  }

  ghost predicate Safe(w: World) {
    DistinctIds(w.log) && HandledPrefix(w) && OnePoll(w) && OnlyLatestActive(w.p)
  }

  ghost predicate Inv(w: World) {
    Safe(w) && KeepsPolling(w.p)
  }

  lemma {:induction false} AfterCursor(log: seq<Command>, n: nat)
    requires DistinctIds(log) && 0 < n <= |log|
    ensures After(log, Some(log[n - 1].id)) == n
  {
    if n < |log| {
      AfterCursor(log[..|log| - 1], n);
    }
  }

  lemma StartPollInv(w: World, k: nat)
    requires Safe(w) && k < |w.p.effects|
    requires k < |w.p.effects| - 1 ==> KeepsPolling(w.p)
    ensures Inv(w.(p := StartPoll(w.p, k)))
  {
  }

  lemma ResumedInv(w: World)
    requires Safe(w) && w.p.effects != []
    ensures Inv(w.(p := Resumed(w.p, |w.p.effects| - 1)))
  {
    var k := |w.p.effects| - 1;
    StartPollInv(w.(p := ClearTimer(w.p, k)), k);
  }

  lemma FinishPollInv(w: World)
    requires Inv(w) && w.p.polls != []
    ensures Inv(w.(p := FinishPoll(w.p, 0)))
  {
  }

  lemma NextCommandInv(w: World, rest: seq<Command>, now: int)
    requires Inv(w) && w.p.polls != []
    requires var n := |w.p.handled|; n + |rest| <= |w.log| && rest == w.log[n..n + |rest|]
    ensures Inv(w.(p := NextCommand(w.p, 0, rest, now)))
  {
    FinishPollInv(w);
  }

  lemma ResponseInv(w: World, j: nat, upTo: nat, now: int)
    requires Inv(w)
    ensures Inv(w.(p := OnPage(w.p, w.log, Response(j, upTo, now))))
  {
    if j < |w.p.polls| && w.p.polls[j].Asked? {
      if w.p.handled != [] {
        AfterCursor(w.log, |w.p.handled|);
      }
      var from := After(w.log, w.p.cursor);
      if from <= upTo <= |w.log| {
        NextCommandInv(w, w.log[from..upTo], now);
      }
    }
  }

  lemma IssueInv(w: World, c: Command)
    requires Inv(w) && NewCommand(w.log, c)
    ensures Inv(w.(log := w.log + [c]))
  {
    if w.p.polls != [] && w.p.polls[0].Executing? {
      var n, m := |w.p.handled|, |w.p.polls[0].rest|;
      assert (w.log + [c])[n..n + m] == w.log[n..n + m];
    }
  }

  lemma MountInv(w: World)
    requires Inv(w)
    ensures Inv(w.(p := OnPage(w.p, w.log, Mount))) && Inv(w.(p := OnPage(w.p, w.log, Unmount)))
  {
    if !Mounted(w.p) {
      ResumedInv(w.(p := w.p.(effects := w.p.effects + [Effect(true, false)])));
    }
  }

  lemma VisibilityInv(w: World, v: bool)
    requires Inv(w)
    ensures Inv(w.(p := OnPage(w.p, w.log, Visibility(v))))
  {
    if Mounted(w.p) {
      ResumedInv(w.(p := w.p.(visible := v)));
    }
  }

  lemma PlayerStateInv(w: World, active: bool)
    requires Inv(w)
    ensures Inv(w.(p := OnPage(w.p, w.log, PlayerState(active))))
  {
  }

  lemma ExecutedInv(w: World, j: nat, ok: bool, now: int)
    requires Inv(w)
    ensures Inv(w.(p := OnPage(w.p, w.log, Executed(j, ok, now)))) && Inv(w.(p := OnPage(w.p, w.log, RequestFails(j))))
  {
    if j < |w.p.polls| {
      FinishPollInv(w);
      if w.p.polls[j].Executing? {
        NextCommandInv(w, w.p.polls[j].rest, now);
      }
    }
  }

  lemma PageInv(w: World, e: Event)
    requires Inv(w) && !e.Issue?
    ensures Inv(w.(p := OnPage(w.p, w.log, e)))
  {
    match e
    case Mount => MountInv(w);
    case Unmount => MountInv(w);
    case Visibility(v) => VisibilityInv(w, v);
    case PlayerState(active) => PlayerStateInv(w, active);
    case TimerFires(k) => if k < |w.p.effects| { StartPollInv(w, k); }
    case Response(j, upTo, now) => ResponseInv(w, j, upTo, now);
    case RequestFails(j) => ExecutedInv(w, j, false, 0);
    case Executed(j, ok, now) => ExecutedInv(w, j, ok, now);
  }

  lemma StepInv(w: World, e: Event)
    requires Inv(w)
    ensures Inv(Step(w, e))
  {
    if e.Issue? {
      if NewCommand(w.log, e.command) {
        IssueInv(w, e.command);
      }
    } else {
      PageInv(w, e);
    }
  }

  lemma {:induction false} RunInv(events: seq<Event>)
    ensures Inv(Run(events))
  {
    if events != [] {
      RunInv(events[..|events| - 1]);
      StepInv(Run(events[..|events| - 1]), events[|events| - 1]);
    }
  }

  /** Across failures, visibility changes and restarts, the commands handled are exactly the first commands of the
      server's log: none is skipped, repeated or reordered. */
  lemma {:induction false} HandledIsPrefixOfLog(events: seq<Event>)
    ensures var w := Run(events);
            && |w.p.handled| <= |w.log|
            && (forall i | 0 <= i < |w.p.handled| :: w.p.handled[i].id == w.log[i].id)
            && (forall i, j | 0 <= i < j < |w.p.handled| :: w.p.handled[i].id != w.p.handled[j].id)
  {
    RunInv(events);
  }

  /** At most one poll is past the guard, whichever effect started it. */
  lemma {:induction false} OnePollAtATime(events: seq<Event>)
    ensures var p := Run(events).p; |p.polls| <= 1 && (p.inFlight <==> |p.polls| == 1)
  {
    RunInv(events);
  }

  /** An active effect on a visible page never stops polling. */
  lemma {:induction false} PollingContinues(events: seq<Event>, k: nat)
    requires k < |Run(events).p.effects| && Run(events).p.effects[k].active && Run(events).p.visible
    ensures var p := Run(events).p; p.effects[k].pollTimer || (|p.polls| == 1 && p.polls[0].effect == k)
  {
    RunInv(events);
    ActivePolls(Run(events), k);
  }

  lemma ActivePolls(w: World, k: nat)
    requires Inv(w) && k < |w.p.effects| && w.p.effects[k].active && w.p.visible
    ensures w.p.effects[k].pollTimer || (|w.p.polls| == 1 && w.p.polls[0].effect == k)
  {
    assert k == |w.p.effects| - 1;
  }

  // ---------------------------------------------------------------- what is done with each command

  /** A command is acted on only while it waits and has not expired, and then as its kind and the player allow. */
  predicate Fits(c: Command, h: Handled) {
    var due := c.waiting && h.now < c.expiresAt;
    && (h.action == Ignored <==> !c.waiting)
    && (h.action == ReportedExpired <==> c.waiting && h.now >= c.expiresAt)
    && (h.action == Loaded <==> due && c.kind == Load(true))
    && (h.action == ReportedUnsupported <==> due && c.kind == Load(false))
    && (h.action == Dispatched <==> due && c.kind == Control && h.playerActive)
    && (h.action == ReportedInvalidState <==> due && c.kind == Control && !h.playerActive)
  }

  ghost predicate AllFit(w: World) {
    |w.p.handled| <= |w.log| && forall i | 0 <= i < |w.p.handled| :: Fits(w.log[i], w.p.handled[i])
  }

  lemma NextCommandFits(w: World, rest: seq<Command>, now: int)
    requires AllFit(w) && w.p.polls != [] && w.p.polls[0].effect < |w.p.effects|
    requires var n := |w.p.handled|; n + |rest| <= |w.log| && rest == w.log[n..n + |rest|]
    ensures AllFit(w.(p := NextCommand(w.p, 0, rest, now)))
  {
    if rest != [] {
      assert rest[0] == w.log[|w.p.handled|];
    }
  }

  lemma ResponseFits(w: World, j: nat, upTo: nat, now: int)
    requires Safe(w) && AllFit(w)
    ensures AllFit(w.(p := OnPage(w.p, w.log, Response(j, upTo, now))))
  {
    if j < |w.p.polls| && w.p.polls[j].Asked? {
      if w.p.handled != [] {
        AfterCursor(w.log, |w.p.handled|);
      }
      var from := After(w.log, w.p.cursor);
      if from <= upTo <= |w.log| {
        NextCommandFits(w, w.log[from..upTo], now);
      }
    }
  }

  lemma ExecutedFits(w: World, j: nat, ok: bool, now: int)
    requires OnePoll(w) && AllFit(w)
    ensures AllFit(w.(p := OnPage(w.p, w.log, Executed(j, ok, now))))
  {
    if j < |w.p.polls| && w.p.polls[j].Executing? {
      NextCommandFits(w, w.p.polls[j].rest, now);
    }
  }

  lemma OthersHandleNothing(p: Poller, log: seq<Command>, e: Event)
    requires !e.Response? && !e.Executed?
    ensures OnPage(p, log, e).handled == p.handled
  {
  }

  lemma StepFits(w: World, e: Event)
    requires Inv(w) && AllFit(w)
    ensures AllFit(Step(w, e))
  {
    if e.Response? {
      ResponseFits(w, e.poll, e.upTo, e.now);
    } else if e.Executed? {
      ExecutedFits(w, e.poll, e.ok, e.now);
    } else {
      OthersHandleNothing(w.p, w.log, e);
    }
  }

  /** In every run, the i-th handling is of the i-th command of the server's log, and is what its status, its expiry at
      that moment, its kind and the player called for: nothing is loaded or dispatched that was settled or had expired. */
  lemma {:induction false} ActionsFitCommands(events: seq<Event>)
    ensures AllFit(Run(events))
  {
    if events != [] {
      ActionsFitCommands(events[..|events| - 1]);
      RunInv(events[..|events| - 1]);
      StepFits(Run(events[..|events| - 1]), events[|events| - 1]);
    }
  }
}
