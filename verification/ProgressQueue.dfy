/** The player's queue of playback-progress writes: coalescing, one drain, and one retry after a conflict. */
module ProgressQueue {
  import opened Prelude

  type Title = string

  datatype Write = Write(title: Title, position: int, duration: int, completed: bool, expectedVersion: int)

  /** What the server stores for a title. */
  datatype Progress = Progress(version: int, position: int, duration: int, completed: bool)

  function Coalesce(current: Write, next: Write): Write {
    next.(completed := current.completed || next.completed)
  }

  // ---------------------------------------------------------------- the insertion-ordered map of pending writes

  function Lookup(pending: seq<Write>, t: Title): Option<Write> {
    if pending == [] then None else if pending[0].title == t then Some(pending[0]) else Lookup(pending[1..], t)
  }

  function Put(pending: seq<Write>, w: Write): seq<Write> {
    if pending == [] then [w]
    else if pending[0].title == w.title then [w] + pending[1..]
    else [pending[0]] + Put(pending[1..], w)
  }

  function Remove(pending: seq<Write>, t: Title): seq<Write> {
    if pending == [] then [] else if pending[0].title == t then pending[1..] else [pending[0]] + Remove(pending[1..], t)
  }

  predicate DistinctTitles(pending: seq<Write>) {
    pending == [] || (Lookup(pending[1..], pending[0].title).None? && DistinctTitles(pending[1..]))
  }

  lemma {:induction false} LookupPut(pending: seq<Write>, w: Write, t: Title)
    ensures Lookup(Put(pending, w), t) == if t == w.title then Some(w) else Lookup(pending, t)
  {
    if pending != [] && pending[0].title != w.title {
      LookupPut(pending[1..], w, t);
    }
  }

  lemma {:induction false} LookupRemove(pending: seq<Write>, removed: Title, t: Title)
    requires DistinctTitles(pending)
    ensures Lookup(Remove(pending, removed), t) == if t == removed then None else Lookup(pending, t)
  {
    if pending != [] && pending[0].title != removed {
      LookupRemove(pending[1..], removed, t);
    }
  }

  lemma {:induction false} PutDistinct(pending: seq<Write>, w: Write)
    requires DistinctTitles(pending)
    ensures DistinctTitles(Put(pending, w)) && Put(pending, w) != []
  {
    if pending != [] && pending[0].title != w.title {
      PutDistinct(pending[1..], w);
      LookupPut(pending[1..], w, pending[0].title);
    }
  }

  lemma {:induction false} RemoveDistinct(pending: seq<Write>, t: Title)
    requires DistinctTitles(pending)
    ensures DistinctTitles(Remove(pending, t))
  {
    if pending != [] && pending[0].title != t {
      RemoveDistinct(pending[1..], t);
      LookupRemove(pending[1..], t, pending[0].title);
    }
  }

  lemma {:induction false} LookupTitle(pending: seq<Write>, t: Title)
    ensures Lookup(pending, t).Some? ==> Lookup(pending, t).value.title == t
  {
    if pending != [] {
      LookupTitle(pending[1..], t);
    }
  }

  // ---------------------------------------------------------------- the client

  /** Where a running drain is suspended, with its local variable `next`. */
  datatype Drain = Updating(next: Write) | Refreshing(next: Write) | Retrying(next: Write)

  /** What can be observed from outside: calls, requests sent, writes saved, records read back after a conflict, requests
      settled, and the title and version that the component sets. */
  datatype Note =
    | Called(title: Title, position: int, duration: int, completed: bool)
    | Sent(write: Write)
    | Saved(title: Title, version: int)
    | ReadBack(title: Title, completed: bool, version: int)
    | Settled(title: Title)
    | Titled(title: Title)
    | Versioned(version: int)

  datatype Client = Client(
    pending: seq<Write>,
    request: Option<Write>,
    version: int,
    current: Title,
    drains: seq<Drain>,
    log: seq<Note>)

  /** What happens to a player: calls, answers to the drain numbered `k`, and a change of title or version. */
  datatype Event =
    | Persist(completed: bool, position: real, duration: Option<real>)
    | UpdateOk(k: nat, version: int)
    | UpdateConflict(k: nat)
    | UpdateFailed(k: nat)
    | RefreshOk(k: nat, stored: Option<Progress>)
    | RefreshFailed(k: nat)
    | SetTitle(title: Title)
    | SetVersion(version: int)

  const INITIAL := Client([], None, 0, "", [], [])

  /** The loop of a drain up to its next await: take the oldest pending write and send it, or end. */
  function Continue(c: Client): (Client, seq<Drain>) {
    if c.pending == [] then (c, [])
    else
      var next := c.pending[0];
      (c.(pending := c.pending[1..], request := Some(next), log := c.log + [Sent(next)]), [Updating(next)])
  }

  /** The end of one request: the reference is cleared and the drain goes on. */
  function Settle(c: Client, k: nat): Client
    requires k < |c.drains|
  {
    var (d, rest) := Continue(c.(request := None, log := c.log + [Settled(c.drains[k].next.title)]));
    d.(drains := c.drains[..k] + rest + c.drains[k + 1..])
  }

  /** Whether a call of `persistProgress` produces a write, and which. */
  function WriteOf(c: Client, completed: bool, position: real, duration: Option<real>): Option<Write> {
    if c.current == "" || duration.None? || duration.value <= 0.0 then None
    else
      var at := if completed then duration.value.Floor else position.Floor;
      if !completed && at <= 0 then None
      else Some(Write(c.current, at, duration.value.Floor, completed, c.version))
  }

  function OnPersist(c: Client, w: Write): Client {
    var waiting := Lookup(c.pending, w.title);
    var merged := if waiting.Some? then Coalesce(waiting.value, w)
                  else if c.request.Some? && c.request.value.title == w.title then Coalesce(c.request.value, w)
                  else w;
    var queued := c.(pending := Put(c.pending, merged), log := c.log + [Called(w.title, w.position, w.duration, w.completed)]);
    if c.request.Some? then queued
    else
      var (d, drain) := Continue(queued);
      d.(drains := c.drains + drain)
  }

  function OnUpdateOk(c: Client, k: nat, version: int): Client
    requires k < |c.drains|
  {
    var t := c.drains[k].next.title;
    var waiting := Lookup(c.pending, t);
    Settle(c.(version := if c.current == t then version else c.version,
              log := c.log + [Saved(t, version)],
              pending := if waiting.Some? then Put(c.pending, waiting.value.(expectedVersion := version)) else c.pending), k)
  }

  /** The record read back for a title; a title without one is at version 0. */
  function ReadOf(t: Title, stored: Option<Progress>): Note {
    match stored
    case Some(p) => ReadBack(t, p.completed, p.version)
    case None => ReadBack(t, false, 0)
  }

  /** After a conflict: take over the stored version and completion, absorb a waiting write, and send once more. */
  function OnRefreshOk(c: Client, k: nat, stored: Option<Progress>): Client
    requires k < |c.drains|
  {
    var next := c.drains[k].next;
    var version := if stored.Some? then stored.value.version else 0;
    var informed := next.(expectedVersion := version, completed := (stored.Some? && stored.value.completed) || next.completed);
    var waiting := Lookup(c.pending, next.title);
    var retry := if waiting.Some? then Coalesce(informed, waiting.value).(expectedVersion := version) else informed;
    c.(pending := Remove(c.pending, next.title),
       request := Some(retry),
       drains := c.drains[k := Retrying(retry)],
       log := c.log + [ReadOf(next.title, stored), Sent(retry)])
  }

  function Step(c: Client, e: Event): Client {
    match e
    case Persist(completed, position, duration) =>
      var w := WriteOf(c, completed, position, duration);
      if w.Some? then OnPersist(c, w.value) else c
    case UpdateOk(k, version) =>
      if k < |c.drains| && !c.drains[k].Refreshing? then OnUpdateOk(c, k, version) else c
    case UpdateConflict(k) =>
      if k >= |c.drains| || c.drains[k].Refreshing? then c
      else if c.drains[k].Updating? then c.(drains := c.drains[k := Refreshing(c.drains[k].next)])
      else Settle(c, k)
    case UpdateFailed(k) => if k < |c.drains| && !c.drains[k].Refreshing? then Settle(c, k) else c
    case RefreshOk(k, stored) => if k < |c.drains| && c.drains[k].Refreshing? then OnRefreshOk(c, k, stored) else c
    case RefreshFailed(k) => if k < |c.drains| && c.drains[k].Refreshing? then Settle(c, k) else c
    case SetTitle(t) => c.(current := t, version := 0, log := c.log + [Titled(t)])
    case SetVersion(v) => c.(version := v, log := c.log + [Versioned(v)])
  }

  function Run(events: seq<Event>): Client {
    if events == [] then INITIAL else Step(Run(events[..|events| - 1]), events[|events| - 1])
  }

  // ---------------------------------------------------------------- the reference: one register for each title

  /** What is owed to the server for a title: the latest call, completed if anything since the title
      was last at rest was completed; `dirty` when a call came after the latest request. */
  datatype Owed = AtRest | Owed(position: int, duration: int, completed: bool, dirty: bool)

  function Register(log: seq<Note>, t: Title): Owed {
    if log == [] then AtRest
    else
      var before := Register(log[..|log| - 1], t);
      match log[|log| - 1]
      case Called(u, p, d, c) => if u != t then before else Owed.Owed(p, d, c || (before.Owed? && before.completed), true)
      case Sent(w) => if w.title != t || before.AtRest? then before else before.(dirty := false)
      case ReadBack(u, c, _) => if u != t || before.AtRest? then before else before.(completed := before.completed || c)
      case Settled(u) => if u != t || before.AtRest? || before.dirty then before else AtRest
      case _ => before
  }

  lemma RegisterSnoc(log: seq<Note>, n: Note, t: Title)
    ensures Register(log + [n], t) ==
            var before := Register(log, t);
            match n
            case Called(u, p, d, c) => if u != t then before else Owed.Owed(p, d, c || (before.Owed? && before.completed), true)
            case Sent(w) => if w.title != t || before.AtRest? then before else before.(dirty := false)
            case ReadBack(u, c, _) => if u != t || before.AtRest? then before else before.(completed := before.completed || c)
            case Settled(u) => if u != t || before.AtRest? || before.dirty then before else AtRest
            case _ => before
  {
    assert (log + [n])[..|log|] == log;
  }

  /** A request carries exactly what the register of its title holds. */
  predicate Carries(w: Write, owed: Owed) {
    owed.Owed? && w.position == owed.position && w.duration == owed.duration && w.completed == owed.completed
  }

  ghost predicate SentRight(log: seq<Note>) {
    forall i | 0 <= i < |log| && log[i].Sent? :: Carries(log[i].write, Register(log[..i], log[i].write.title))
  }

  /** How the queue, the request reference and the drain hold the registers. */
  ghost predicate Holds(c: Client, t: Title) {
    var waiting, owed := Lookup(c.pending, t), Register(c.log, t);
    if waiting.Some? then
      Carries(waiting.value, owed) && owed.dirty
      && (c.request.Some? && c.request.value.title == t && c.request.value.completed ==> waiting.value.completed)
    else if c.request.Some? && c.request.value.title == t then Carries(c.request.value, owed) && !owed.dirty
    else owed.AtRest?
  }

  ghost predicate OneDrain(c: Client) {
    && DistinctTitles(c.pending)
    && |c.drains| <= 1
    && (c.drains == [] ==> c.request.None? && c.pending == [])
    && (c.drains != [] ==> c.request == Some(c.drains[0].next))
  }

  ghost predicate Inv(c: Client) {
    OneDrain(c) && SentRight(c.log) && forall t :: Holds(c, t)
  }

  lemma SentRightSnoc(log: seq<Note>, n: Note)
    requires SentRight(log) && (n.Sent? ==> Carries(n.write, Register(log, n.write.title)))
    ensures SentRight(log + [n])
  {
    var longer := log + [n];
    forall i | 0 <= i < |longer| && longer[i].Sent?
      ensures Carries(longer[i].write, Register(longer[..i], longer[i].write.title))
    {
      assert longer[..i] == if i < |log| then log[..i] else log;
    }
  }

  /** Between two requests of a drain, or before the first. */
  ghost predicate Between(c: Client) {
    DistinctTitles(c.pending) && SentRight(c.log) && c.request.None? && forall t :: Holds(c, t)
  }

  lemma ContinueInv(c: Client)
    requires Between(c)
    ensures var (d, drain) := Continue(c); Inv(d.(drains := drain))
  {
    var d := Continue(c).0.(drains := Continue(c).1);
    if c.pending != [] {
      assert Holds(c, c.pending[0].title);
      SentRightSnoc(c.log, Sent(c.pending[0]));
    }
    forall t ensures Holds(d, t) {
      assert Holds(c, t);
      if c.pending != [] {
        RegisterSnoc(c.log, Sent(c.pending[0]), t);
      }
    }
  }

  lemma SettleInv(c: Client, k: nat)
    requires Inv(c) && k < |c.drains|
    ensures Inv(Settle(c, k))
  {
    var u := c.drains[k].next.title;
    var d := c.(request := None, log := c.log + [Settled(u)]);
    SentRightSnoc(c.log, Settled(u));
    forall t ensures Holds(d, t) {
      assert Holds(c, t);
      RegisterSnoc(c.log, Settled(u), t);
    }
    ContinueInv(d);
    assert c.drains[..k] + Continue(d).1 + c.drains[k + 1..] == Continue(d).1;
  }

  lemma PersistInv(c: Client, w: Write)
    requires Inv(c)
    ensures Inv(OnPersist(c, w))
  {
    var call := Called(w.title, w.position, w.duration, w.completed);
    var waiting := Lookup(c.pending, w.title);
    var merged := if waiting.Some? then Coalesce(waiting.value, w)
                  else if c.request.Some? && c.request.value.title == w.title then Coalesce(c.request.value, w)
                  else w;
    var queued := c.(pending := Put(c.pending, merged), log := c.log + [call]);
    SentRightSnoc(c.log, call);
    PutDistinct(c.pending, merged);
    forall t ensures Holds(queued, t) {
      assert Holds(c, t);
      RegisterSnoc(c.log, call, t);
      LookupPut(c.pending, merged, t);
    }
    if c.request.None? {
      ContinueInv(queued);
      assert c.drains + Continue(queued).1 == Continue(queued).1;
    }
  }

  lemma UpdateOkInv(c: Client, k: nat, version: int)
    requires Inv(c) && k < |c.drains|
    ensures Inv(OnUpdateOk(c, k, version))
  {
    var u := c.drains[k].next.title;
    var waiting := Lookup(c.pending, u);
    var d := c.(version := if c.current == u then version else c.version,
                log := c.log + [Saved(u, version)],
                pending := if waiting.Some? then Put(c.pending, waiting.value.(expectedVersion := version)) else c.pending);
    if waiting.Some? {
      LookupTitle(c.pending, u);
      PutDistinct(c.pending, waiting.value.(expectedVersion := version));
    }
    SentRightSnoc(c.log, Saved(u, version));
    forall t ensures Holds(d, t) {
      assert Holds(c, t);
      RegisterSnoc(c.log, Saved(u, version), t);
      if waiting.Some? {
        LookupPut(c.pending, waiting.value.(expectedVersion := version), t);
      }
    }
    SettleInv(d, k);
  }

  lemma RefreshOkInv(c: Client, k: nat, stored: Option<Progress>)
    requires Inv(c) && k < |c.drains|
    ensures Inv(OnRefreshOk(c, k, stored))
  {
    var u := c.drains[k].next.title;
    var read := ReadOf(u, stored);
    var d := OnRefreshOk(c, k, stored);
    var retry := d.request.value;
    assert Holds(c, u);
    LookupTitle(c.pending, u);
    RegisterSnoc(c.log, read, u);
    SentRightSnoc(c.log, read);
    SentRightSnoc(c.log + [read], Sent(retry));
    assert d.log == c.log + [read] + [Sent(retry)];
    RemoveDistinct(c.pending, u);
    forall t ensures Holds(d, t) {
      assert Holds(c, t);
      RegisterSnoc(c.log, read, t);
      RegisterSnoc(c.log + [read], Sent(retry), t);
      LookupRemove(c.pending, u, t);
    }
  }

  lemma StepInv(c: Client, e: Event)
    requires Inv(c)
    ensures Inv(Step(c, e))
  {
    var d := Step(c, e);
    match e
    case Persist(completed, position, duration) =>
      if WriteOf(c, completed, position, duration).Some? {
        PersistInv(c, WriteOf(c, completed, position, duration).value);
      }
    case UpdateOk(k, version) => if k < |c.drains| { UpdateOkInv(c, k, version); }
    case UpdateConflict(k) =>
      if k < |c.drains| {
        SettleInv(c, k);
        assert c.drains[k].Updating? ==> forall t :: Holds(c, t) ==> Holds(d, t);
      }
    case UpdateFailed(k) => if k < |c.drains| { SettleInv(c, k); }
    case RefreshOk(k, stored) => if k < |c.drains| { RefreshOkInv(c, k, stored); }
    case RefreshFailed(k) => if k < |c.drains| { SettleInv(c, k); }
    case SetTitle(t) => NoteInv(c, d, Titled(t));
    case SetVersion(v) => NoteInv(c, d, Versioned(v));
  }

  lemma NoteInv(c: Client, d: Client, n: Note)
    requires Inv(c) && (n.Titled? || n.Versioned?)
    requires d == c.(current := d.current, version := d.version, log := c.log + [n])
    ensures Inv(d)
  {
    SentRightSnoc(c.log, n);
    forall t ensures Holds(d, t) {
      assert Holds(c, t);
      RegisterSnoc(c.log, n, t);
    }
  }

  lemma {:induction false} RunInv(events: seq<Event>)
    ensures Inv(Run(events))
  {
    if events != [] {
      RunInv(events[..|events| - 1]);
      StepInv(Run(events[..|events| - 1]), events[|events| - 1]);
    }
  }

  // ---------------------------------------------------------------- what every run guarantees

  /** At every await at most one drain runs, it is the one behind the outstanding request, and no write waits without it. */
  lemma {:induction false} OneDrainAtATime(events: seq<Event>)
    ensures var c := Run(events);
            && |c.drains| <= 1
            && (c.drains != [] <==> c.request.Some?)
            && (c.drains != [] ==> c.request == Some(c.drains[0].next))
            && (c.pending != [] ==> |c.drains| == 1)
  {
    RunInv(events);
  }

  ghost predicate LatestCall(log: seq<Note>, t: Title, j: nat) {
    j < |log| && log[j].Called? && log[j].title == t && forall k | j < k < |log| && log[k].Called? :: log[k].title != t
  }

  lemma {:induction false} RegisterHoldsLatestCall(log: seq<Note>, t: Title) returns (j: nat)
    requires Register(log, t).Owed?
    ensures LatestCall(log, t, j)
    ensures log[j].position == Register(log, t).position && log[j].duration == Register(log, t).duration
  {
    var n := |log| - 1;
    if log[n].Called? && log[n].title == t {
      j := n;
    } else {
      j := RegisterHoldsLatestCall(log[..n], t);
    }
  }

  /** The note reports a completion of `t`: a call, or a record read back from the server. */
  predicate Completes(n: Note, t: Title) {
    (n.Called? || n.ReadBack?) && n.title == t && n.completed
  }

  /** From note `j` on, the title never came to rest. */
  ghost predicate BusySince(log: seq<Note>, t: Title, j: nat) {
    forall m | j < m <= |log| :: Register(log[..m], t).Owed?
  }

  lemma {:induction false} RegisterCompletedExactly(log: seq<Note>, t: Title)
    requires Register(log, t).Owed?
    ensures Register(log, t).completed <==> exists j :: 0 <= j < |log| && Completes(log[j], t) && BusySince(log, t, j)
  {
    var n := |log| - 1;
    var front := log[..n];
    assert log[..|log|] == log;
    assert forall m | 0 <= m <= n :: front[..m] == log[..m];
    assert front[..n] == front;
    if Completes(log[n], t) {
      assert BusySince(log, t, n);
    } else if Register(front, t).Owed? {
      RegisterCompletedExactly(front, t);
      if Register(front, t).completed {
        var j :| 0 <= j < n && Completes(front[j], t) && BusySince(front, t, j);
        assert Completes(log[j], t) && BusySince(log, t, j);
      }
      if j :| 0 <= j < |log| && Completes(log[j], t) && BusySince(log, t, j) {
        assert Completes(front[j], t) && BusySince(front, t, j);
      }
    } else {
      assert forall j | 0 <= j < n :: !BusySince(log, t, j) by {
        assert Register(log[..n], t).AtRest?;
      }
    }
  }

  /** Every request carries the position and duration of the latest call for its title, and is marked completed exactly
      when some call, or a record read back after a conflict, was completed since the title was last at rest. */
  lemma {:induction false} RequestsCarryWhatIsOwed(events: seq<Event>, i: nat) returns (j: nat)
    requires i < |Run(events).log| && Run(events).log[i].Sent?
    ensures var log, w := Run(events).log, Run(events).log[i].write;
            && LatestCall(log[..i], w.title, j)
            && w.position == log[j].position && w.duration == log[j].duration
            && (w.completed <==> exists k :: 0 <= k < i && Completes(log[..i][k], w.title) && BusySince(log[..i], w.title, k))
  {
    RunInv(events);
    var log := Run(events).log;
    var t := log[i].write.title;
    assert Carries(log[i].write, Register(log[..i], t));
    j := RegisterHoldsLatestCall(log[..i], t);
    RegisterCompletedExactly(log[..i], t);
  }

  /** A title is at rest exactly when it is neither waiting nor being sent. */
  lemma {:induction false} RestIsVisible(events: seq<Event>, t: Title)
    ensures var c := Run(events);
            Register(c.log, t).AtRest? <==> Lookup(c.pending, t).None? && (c.request.Some? ==> c.request.value.title != t)
  {
    RunInv(events);
    assert Holds(Run(events), t);
  }

  predicate SentFor(n: Note, t: Title) {
    n.Sent? && n.write.title == t
  }

  lemma {:induction false} DirtyUntilSent(log: seq<Note>, t: Title, j: nat)
    requires j < |log| && log[j].Called? && log[j].title == t
    requires forall i | j < i < |log| :: !SentFor(log[i], t)
    ensures Register(log, t).Owed? && Register(log, t).dirty
  {
    if j < |log| - 1 {
      var front := log[..|log| - 1];
      assert forall i | j < i < |front| :: !SentFor(front[i], t) by {
        assert forall i | 0 <= i < |front| :: front[i] == log[i];
      }
      DirtyUntilSent(front, t, j);
    }
  }

  /** No call is forgotten: once its title no longer waits in the queue, a request was sent after the call. */
  lemma {:induction false} EveryCallIsSent(events: seq<Event>, j: nat)
    requires j < |Run(events).log| && Run(events).log[j].Called?
    ensures var c := Run(events);
            var t := c.log[j].title;
            Lookup(c.pending, t).None? ==> exists i | j < i < |c.log| :: SentFor(c.log[i], t)
  {
    var c := Run(events);
    var t := c.log[j].title;
    RunInv(events);
    assert Holds(c, t);
    if forall i | j < i < |c.log| :: !SentFor(c.log[i], t) {
      DirtyUntilSent(c.log, t, j);
    }
  }

  // ---------------------------------------------------------------- one title, one writer

  /** A player of one title against the server's version of it; `reply` is an answer under way. */
  datatype Solo = Solo(client: Client, server: int, reply: Option<int>, conflicts: nat)

  datatype SoloEvent =
    | Call(completed: bool, position: real, duration: Option<real>)
    | ServerHandles
    | ReplyArrives

  function SoloStart(title: Title, version: int): Solo {
    Solo(INITIAL.(current := title, version := version), version, None, 0)
  }

  function SoloStep(s: Solo, e: SoloEvent): Solo {
    match e
    case Call(completed, position, duration) => s.(client := Step(s.client, Persist(completed, position, duration)))
    case ServerHandles =>
      if s.client.request.None? || s.reply.Some? then s
      else if s.client.request.value.expectedVersion == s.server then s.(server := s.server + 1, reply := Some(s.server + 1))
      else s.(conflicts := s.conflicts + 1, client := Step(s.client, UpdateConflict(0)))
    case ReplyArrives =>
      if s.reply.None? then s else s.(client := Step(s.client, UpdateOk(0, s.reply.value)), reply := None)
  }

  function SoloRun(title: Title, version: int, events: seq<SoloEvent>): Solo {
    if events == [] then SoloStart(title, version)
    else SoloStep(SoloRun(title, version, events[..|events| - 1]), events[|events| - 1])
  }

  ghost predicate InSync(s: Solo, title: Title) {
    var c := s.client;
    && c.current == title && s.conflicts == 0
    && (c.pending == [] || (|c.pending| == 1 && c.pending[0].title == title))
    && (c.request.None? ==> c.drains == [] && c.pending == [] && s.reply.None?)
    && (c.request.Some? ==> c.drains == [Updating(c.request.value)] && c.request.value.title == title)
    && match s.reply
       case None => c.version == s.server && (c.request.Some? ==> c.request.value.expectedVersion == s.server)
       case Some(v) => v == s.server
  }

  lemma OneTitlePut(pending: seq<Write>, w: Write)
    requires pending == [] || (|pending| == 1 && pending[0].title == w.title)
    ensures Put(pending, w) == [w]
  {
    assert pending != [] ==> pending[1..] == [];
  }

  lemma OneTitleLookup(pending: seq<Write>, t: Title)
    requires pending == [] || (|pending| == 1 && pending[0].title == t)
    ensures Lookup(pending, t) == if pending == [] then None else Some(pending[0])
  {
  }

  lemma CallInSync(s: Solo, title: Title, completed: bool, position: real, duration: Option<real>)
    requires InSync(s, title)
    ensures InSync(SoloStep(s, Call(completed, position, duration)), title)
  {
    var c := s.client;
    var w := WriteOf(c, completed, position, duration);
    if w.Some? {
      OneTitleLookup(c.pending, title);
      var merged := if c.pending != [] then Coalesce(c.pending[0], w.value)
                    else if c.request.Some? then Coalesce(c.request.value, w.value)
                    else w.value;
      OneTitlePut(c.pending, merged);
    }
  }

  lemma ReplyInSync(s: Solo, title: Title)
    requires InSync(s, title)
    ensures InSync(SoloStep(s, ReplyArrives), title)
  {
    var c := s.client;
    OneTitleLookup(c.pending, title);
    if s.reply.Some? && c.pending != [] {
      OneTitlePut(c.pending, c.pending[0].(expectedVersion := s.reply.value));
    }
  }

  /** With one title, no other writer and a version in sync at the start, every request names the server's version
      when the server handles it: no conflict ever occurs. */
  lemma {:induction false} SoloNeverConflicts(title: Title, version: int, events: seq<SoloEvent>)
    ensures InSync(SoloRun(title, version, events), title)
    ensures SoloRun(title, version, events).conflicts == 0
  {
    if events != [] {
      var s := SoloRun(title, version, events[..|events| - 1]);
      SoloNeverConflicts(title, version, events[..|events| - 1]);
      match events[|events| - 1]
      case Call(completed, position, duration) => CallInSync(s, title, completed, position, duration);
      case ServerHandles =>
      case ReplyArrives => ReplyInSync(s, title);
    }
  }
}
