/** The versions that progress requests expect: what each names, and when a server with other writers accepts it. */
module ProgressVersions {
  import opened Prelude
  import opened ProgressQueue

  // ---------------------------------------------------------------- the reference, read off the log

  /** The title the component shows. */
  function ShownTitle(log: seq<Note>): Title {
    if log == [] then ""
    else if log[|log| - 1].Titled? then log[|log| - 1].title
    else ShownTitle(log[..|log| - 1])
  }

  /** The version last set, or last saved for the title shown; a new title starts at 0. */
  function ShownVersion(log: seq<Note>): int {
    if log == [] then 0
    else
      var before := log[..|log| - 1];
      match log[|log| - 1]
      case Titled(_) => 0
      case Versioned(v) => v
      case Saved(t, v) => if t == ShownTitle(before) then v else ShownVersion(before)
      case _ => ShownVersion(before)
  }

  /** The version a request for `t` has to name: that of the latest record read back or write saved for `t`, or the one
      shown when the latest call for `t` came, whichever is last. */
  function DueVersion(log: seq<Note>, t: Title): int {
    if log == [] then 0
    else
      var before := log[..|log| - 1];
      match log[|log| - 1]
      case Called(u, _, _, _) => if u == t then ShownVersion(before) else DueVersion(before, t)
      case Saved(u, v) => if u == t then v else DueVersion(before, t)
      case ReadBack(u, _, v) => if u == t then v else DueVersion(before, t)
      case _ => DueVersion(before, t)
  }

  ghost predicate SentDue(log: seq<Note>) {
    forall i | 0 <= i < |log| && log[i].Sent? :: log[i].write.expectedVersion == DueVersion(log[..i], log[i].write.title)
  }

  ghost predicate Due(c: Client, t: Title) {
    var waiting := Lookup(c.pending, t);
    waiting.Some? ==> waiting.value.expectedVersion == DueVersion(c.log, t)
  }

  ghost predicate Versions(c: Client) {
    c.current == ShownTitle(c.log) && c.version == ShownVersion(c.log) && SentDue(c.log) && forall t :: Due(c, t)
  }

  lemma Snoc(log: seq<Note>, n: Note)
    ensures (log + [n])[..|log|] == log
    ensures !n.Titled? ==> ShownTitle(log + [n]) == ShownTitle(log)
    ensures !n.Titled? && !n.Versioned? && !n.Saved? ==> ShownVersion(log + [n]) == ShownVersion(log)
    ensures !n.Called? && !n.Saved? && !n.ReadBack? ==> forall t :: DueVersion(log + [n], t) == DueVersion(log, t)
  {
    assert (log + [n])[..|log|] == log;
  }

  lemma SentDueSnoc(log: seq<Note>, n: Note)
    requires SentDue(log) && (n.Sent? ==> n.write.expectedVersion == DueVersion(log, n.write.title))
    ensures SentDue(log + [n])
  {
    var longer := log + [n];
    forall i | 0 <= i < |longer| && longer[i].Sent?
      ensures longer[i].write.expectedVersion == DueVersion(longer[..i], longer[i].write.title)
    {
      assert longer[..i] == if i < |log| then log[..i] else log;
    }
  }

  lemma ContinueVersions(c: Client)
    requires Versions(c) && DistinctTitles(c.pending)
    ensures Versions(Continue(c).0)
  {
    if c.pending != [] {
      var next := c.pending[0];
      assert Due(c, next.title);
      Snoc(c.log, Sent(next));
      SentDueSnoc(c.log, Sent(next));
      forall t ensures Due(Continue(c).0, t) {
        assert Due(c, t);
      }
    }
  }

  lemma SettleVersions(c: Client, k: nat)
    requires Versions(c) && DistinctTitles(c.pending) && k < |c.drains|
    ensures Versions(Settle(c, k))
  {
    var n := Settled(c.drains[k].next.title);
    var d := c.(request := None, log := c.log + [n]);
    Snoc(c.log, n);
    SentDueSnoc(c.log, n);
    forall t ensures Due(d, t) {
      assert Due(c, t);
    }
    ContinueVersions(d);
    SameButDrains(Continue(d).0, Settle(c, k));
  }

  lemma SameButDrains(c: Client, d: Client)
    requires Versions(c) && d == c.(drains := d.drains)
    ensures Versions(d)
  {
    forall t ensures Due(d, t) {
      assert Due(c, t);
    }
  }

  lemma PersistVersions(c: Client, w: Write)
    requires Versions(c) && DistinctTitles(c.pending) && w.expectedVersion == c.version && w.title == c.current
    ensures Versions(OnPersist(c, w))
  {
    var call := Called(w.title, w.position, w.duration, w.completed);
    var waiting := Lookup(c.pending, w.title);
    var merged := if waiting.Some? then Coalesce(waiting.value, w)
                  else if c.request.Some? && c.request.value.title == w.title then Coalesce(c.request.value, w)
                  else w;
    var queued := c.(pending := Put(c.pending, merged), log := c.log + [call]);
    Snoc(c.log, call);
    SentDueSnoc(c.log, call);
    PutDistinct(c.pending, merged);
    forall t ensures Due(queued, t) {
      assert Due(c, t);
      LookupPut(c.pending, merged, t);
    }
    if c.request.None? {
      ContinueVersions(queued);
      SameButDrains(Continue(queued).0, OnPersist(c, w));
    }
  }

  lemma UpdateOkVersions(c: Client, k: nat, version: int)
    requires Versions(c) && DistinctTitles(c.pending) && k < |c.drains|
    ensures Versions(OnUpdateOk(c, k, version))
  {
    var u := c.drains[k].next.title;
    var waiting := Lookup(c.pending, u);
    var n := Saved(u, version);
    var d := c.(version := if c.current == u then version else c.version,
                log := c.log + [n],
                pending := if waiting.Some? then Put(c.pending, waiting.value.(expectedVersion := version)) else c.pending);
    Snoc(c.log, n);
    SentDueSnoc(c.log, n);
    LookupTitle(c.pending, u);
    if waiting.Some? {
      PutDistinct(c.pending, waiting.value.(expectedVersion := version));
    }
    forall t ensures Due(d, t) {
      assert Due(c, t);
      if waiting.Some? {
        LookupPut(c.pending, waiting.value.(expectedVersion := version), t);
      }
    }
    SettleVersions(d, k);
  }

  lemma RefreshOkVersions(c: Client, k: nat, stored: Option<Progress>)
    requires Versions(c) && DistinctTitles(c.pending) && k < |c.drains|
    ensures Versions(OnRefreshOk(c, k, stored))
  {
    var u := c.drains[k].next.title;
    var read := ReadOf(u, stored);
    var d := OnRefreshOk(c, k, stored);
    var retry := d.request.value;
    LookupTitle(c.pending, u);
    Snoc(c.log, read);
    SentDueSnoc(c.log, read);
    Snoc(c.log + [read], Sent(retry));
    SentDueSnoc(c.log + [read], Sent(retry));
    assert d.log == c.log + [read] + [Sent(retry)];
    forall t ensures Due(d, t) {
      assert Due(c, t);
      LookupRemove(c.pending, u, t);
    }
  }

  lemma NoteVersions(c: Client, d: Client, n: Note)
    requires Versions(c) && ((n == Titled(d.current) && d.version == 0) || (n == Versioned(d.version) && d.current == c.current))
    requires d == c.(current := d.current, version := d.version, log := c.log + [n])
    ensures Versions(d)
  {
    Snoc(c.log, n);
    SentDueSnoc(c.log, n);
    forall t ensures Due(d, t) {
      assert Due(c, t);
    }
  }

  lemma StepVersions(c: Client, e: Event)
    requires Inv(c) && Versions(c)
    ensures Versions(Step(c, e))
  {
    match e
    case Persist(completed, position, duration) =>
      if WriteOf(c, completed, position, duration).Some? {
        PersistVersions(c, WriteOf(c, completed, position, duration).value);
      }
    case UpdateOk(k, version) => if k < |c.drains| { UpdateOkVersions(c, k, version); }
    case UpdateConflict(k) =>
      if k < |c.drains| {
        SettleVersions(c, k);
        if c.drains[k].Updating? {
          SameButDrains(c, Step(c, e));
        }
      }
    case UpdateFailed(k) => if k < |c.drains| { SettleVersions(c, k); }
    case RefreshOk(k, stored) => if k < |c.drains| { RefreshOkVersions(c, k, stored); }
    case RefreshFailed(k) => if k < |c.drains| { SettleVersions(c, k); }
    case SetTitle(t) => NoteVersions(c, Step(c, e), Titled(t));
    case SetVersion(v) => NoteVersions(c, Step(c, e), Versioned(v));
  }

  lemma {:induction false} RunVersions(events: seq<Event>)
    ensures Versions(Run(events))
  {
    if events != [] {
      RunVersions(events[..|events| - 1]);
      RunInv(events[..|events| - 1]);
      StepVersions(Run(events[..|events| - 1]), events[|events| - 1]);
    }
  }

  /** Every request names the version that the log makes due for its title: for a retry, which follows a record read back,
      exactly the version read; otherwise the one saved last, or shown at the latest call. */
  lemma {:induction false} RequestsNameDueVersion(events: seq<Event>, i: nat)
    requires i < |Run(events).log| && Run(events).log[i].Sent?
    ensures var log, w := Run(events).log, Run(events).log[i].write;
            && w.expectedVersion == DueVersion(log[..i], w.title)
            && (i > 0 && log[i - 1].ReadBack? && log[i - 1].title == w.title ==> w.expectedVersion == log[i - 1].version)
  {
    RunVersions(events);
    var log := Run(events).log;
    assert i > 0 ==> log[..i][..i - 1] == log[..i - 1];
  }

  // ---------------------------------------------------------------- a server with other writers

  /** A reply under way: the verdict on a write, or the record asked for after a conflict. */
  datatype Reply = Accepted(version: int) | Rejected | Record(stored: Option<Progress>)

  /** The player, the server's records, and the writes of others to the title being sent that have landed since its record
      was last read. */
  datatype Shared = Shared(client: Client, records: map<Title, Progress>, reply: Option<Reply>, others: nat)

  datatype SharedEvent =
    | Local(event: Event)
    | ServerHandles
    | ReplyArrives
    | CallFails
    | OtherWrites(record: Progress, title: Title)

  function VersionAt(records: map<Title, Progress>, t: Title): int {
    if t in records then records[t].version else 0
  }

  function RecordAt(records: map<Title, Progress>, t: Title): Option<Progress> {
    if t in records then Some(records[t]) else None
  }

  /** The server saves a write that names its version, and counts the version up. */
  function Handle(s: Shared): Shared {
    if s.client.drains == [] || s.reply.Some? then s
    else
      var next := s.client.drains[0].next;
      var version := VersionAt(s.records, next.title);
      if s.client.drains[0].Refreshing? then s.(reply := Some(Record(RecordAt(s.records, next.title))), others := 0)
      else if next.expectedVersion != version then s.(reply := Some(Rejected))
      else
        s.(records := s.records[next.title := Progress(version + 1, next.position, next.duration, next.completed)],
           reply := Some(Accepted(version + 1)))
  }

  function Arrive(s: Shared): Shared {
    match s.reply
    case None => s
    case Some(Accepted(v)) => s.(client := Step(s.client, UpdateOk(0, v)), reply := None)
    case Some(Rejected) => s.(client := Step(s.client, UpdateConflict(0)), reply := None)
    case Some(Record(stored)) => s.(client := Step(s.client, RefreshOk(0, stored)), reply := None)
  }

  function SharedStep(s: Shared, e: SharedEvent): Shared {
    match e
    case Local(event) =>
      if event.Persist? || event.SetTitle? || event.SetVersion? then s.(client := Step(s.client, event)) else s
    case ServerHandles => Handle(s)
    case ReplyArrives => Arrive(s)
    case CallFails =>
      if s.client.drains == [] then s
      else
        s.(client := Step(s.client, if s.client.drains[0].Refreshing? then RefreshFailed(0) else UpdateFailed(0)), reply := None)
    case OtherWrites(record, t) =>
      s.(records := s.records[t := record.(version := VersionAt(s.records, t) + 1)],
         others := s.others + if s.client.drains != [] && s.client.drains[0].next.title == t then 1 else 0)
  }

  function SharedRun(records: map<Title, Progress>, events: seq<SharedEvent>): Shared {
    if events == [] then Shared(INITIAL, records, None, 0)
    else SharedStep(SharedRun(records, events[..|events| - 1]), events[|events| - 1])
  }

  /** The drain waits for the reply that is under way. */
  predicate Matched(s: Shared) {
    s.reply.Some? ==> s.client.drains != [] && (s.client.drains[0].Refreshing? <==> s.reply.value.Record?)
  }

  /** What was read, and what the retry names, lags behind the server by the writes of others. */
  predicate Lags(s: Shared) {
    s.client.drains != [] ==>
      var drain := s.client.drains[0];
      var version := VersionAt(s.records, drain.next.title);
      && (drain.Refreshing? && s.reply.Some? && s.reply.value.Record? ==>
            version == (if s.reply.value.stored.Some? then s.reply.value.stored.value.version else 0) + s.others)
      && (drain.Retrying? && s.reply.None? ==> version == drain.next.expectedVersion + s.others)
  }

  ghost predicate SharedInv(s: Shared) {
    Inv(s.client) && Matched(s) && Lags(s)
  }

  lemma RetryTitle(c: Client, k: nat, stored: Option<Progress>)
    requires k < |c.drains|
    ensures var d := OnRefreshOk(c, k, stored);
            && |d.drains| == |c.drains| && d.drains[k].Retrying? && d.drains[k].next.title == c.drains[k].next.title
            && d.drains[k].next.expectedVersion == (if stored.Some? then stored.value.version else 0)
  {
    LookupTitle(c.pending, c.drains[k].next.title);
  }

  /** After a write settles, the drain goes on with another write or ends; it is not in the middle of a conflict. */
  lemma SettledIsFresh(c: Client)
    requires |c.drains| == 1
    ensures var d := Settle(c, 0); d.drains == [] || (|d.drains| == 1 && d.drains[0].Updating?)
  {
  }

  lemma LocalKeepsDrain(c: Client, e: Event)
    requires OneDrain(c) && (e.Persist? || e.SetTitle? || e.SetVersion?)
    ensures var d := Step(c, e);
            d.drains == c.drains || (c.drains == [] && |d.drains| == 1 && d.drains[0].Updating?)
  {
  }

  lemma SharedStepInv(s: Shared, e: SharedEvent)
    requires SharedInv(s)
    ensures SharedInv(SharedStep(s, e))
  {
    var c := s.client;
    match e
    case Local(event) =>
      StepInv(c, event);
      if event.Persist? || event.SetTitle? || event.SetVersion? {
        LocalKeepsDrain(c, event);
      }
    case ServerHandles =>
    case ReplyArrives => ArriveInv(s);
    case CallFails =>
      if c.drains != [] {
        StepInv(c, if c.drains[0].Refreshing? then RefreshFailed(0) else UpdateFailed(0));
        SettledIsFresh(c);
      }
    case OtherWrites(record, t) =>
  }

  lemma ArriveInv(s: Shared)
    requires SharedInv(s)
    ensures SharedInv(Arrive(s))
  {
    var c := s.client;
    match s.reply
    case None =>
    case Some(Accepted(v)) =>
      StepInv(c, UpdateOk(0, v));
      var t := c.drains[0].next.title;
      var waiting := Lookup(c.pending, t);
      SettledIsFresh(c.(version := if c.current == t then v else c.version, log := c.log + [Saved(t, v)],
                        pending := if waiting.Some? then Put(c.pending, waiting.value.(expectedVersion := v)) else c.pending));
    case Some(Rejected) =>
      StepInv(c, UpdateConflict(0));
      SettledIsFresh(c);
    case Some(Record(stored)) =>
      StepInv(c, RefreshOk(0, stored));
      RetryTitle(c, 0, stored);
  }

  lemma {:induction false} SharedRunInv(records: map<Title, Progress>, events: seq<SharedEvent>)
    ensures SharedInv(SharedRun(records, events))
  {
    if events == [] {
      RunInv([]);
    } else {
      SharedRunInv(records, events[..|events| - 1]);
      SharedStepInv(SharedRun(records, events[..|events| - 1]), events[|events| - 1]);
    }
  }

  /** A retry that reaches the server is saved if and only if no other write to its title has landed since the record was
      read; otherwise it is rejected. */
  lemma {:induction false} RetryIsSavedUnlessOvertaken(records: map<Title, Progress>, events: seq<SharedEvent>)
    requires var s := SharedRun(records, events); s.client.drains != [] && s.client.drains[0].Retrying? && s.reply.None?
    ensures var s := SharedRun(records, events);
            var after := Handle(s);
            var next := s.client.drains[0].next;
            && (after.reply.Some? && after.reply.value.Accepted? <==> s.others == 0)
            && (s.others > 0 ==> after.reply == Some(Rejected) && after.records == s.records)
            && (s.others == 0 ==>
                  after.records == s.records[next.title := Progress(VersionAt(s.records, next.title) + 1,
                                                                    next.position, next.duration, next.completed)])
  {
    SharedRunInv(records, events);
  }

  // ---------------------------------------------------------------- what a call logs

  /** A call with a known title and a positive duration logs one write: its position is the whole seconds of the given one,
      or of the duration when the title was completed; a position below one second is not worth a write. */
  lemma CallIsLogged(c: Client, completed: bool, position: real, duration: real)
    requires c.current != "" && duration > 0.0
    ensures var log := Step(c, Persist(completed, position, Some(duration))).log;
            if !completed && position < 1.0 then log == c.log
            else
              && |log| > |c.log| && log[..|c.log|] == c.log && log[|c.log|].Called?
              && var n := log[|c.log|];
              && n.title == c.current && n.completed == completed
              && n.duration as real <= duration < n.duration as real + 1.0
              && (completed ==> n.position == n.duration)
              && (!completed ==> n.position as real <= position < n.position as real + 1.0 && n.position > 0)
  {
  }

  lemma OtherCallsDoNothing(c: Client, completed: bool, position: real, duration: Option<real>)
    requires c.current == "" || duration.None? || duration.value <= 0.0
    ensures Step(c, Persist(completed, position, duration)) == c
  {
  }
}
