/** The reading queue: several clients that cache it and change it against one server that counts revisions. */
module ReadingQueue {
  import opened Prelude

  // ---------------------------------------------------------------- the server

  datatype Item = Item(id: string, media: string)

  datatype Queue = Queue(revision: nat, items: seq<Item>)

  datatype Request =
    | AddItem(media: string, expected: nat)
    | RemoveItem(id: string, expected: nat)
    | Reorder(ids: seq<string>, expected: nat)

  datatype Answer = Accepted | Conflict | Rejected

  const MAXIMUM_ITEMS := 500

  function Ids(items: seq<Item>): (r: seq<string>)
    ensures |r| == |items| && forall i | 0 <= i < |r| :: r[i] == items[i].id
  {
    seq(|items|, i requires 0 <= i < |items| => items[i].id)
  }

  predicate DistinctIds(items: seq<Item>) {
    forall i, j | 0 <= i < j < |items| :: items[i].id != items[j].id
  }

  function IndexOf(ids: seq<string>, id: string): (r: Option<nat>)
    ensures r.Some? ==> r.value < |ids| && ids[r.value] == id && forall i | 0 <= i < r.value :: ids[i] != id
    ensures r.None? ==> id !in ids
  {
    if ids == [] then None
    else if ids[0] == id then Some(0)
    else
      var r := IndexOf(ids[1..], id);
      assert ids == [ids[0]] + ids[1..];
      if r.Some? then Some(r.value + 1) else None
  }

  /** The items in the order that `ids` asks for. */
  function Arranged(items: seq<Item>, ids: seq<string>): seq<Item> {
    if ids == [] then []
    else
      var at := IndexOf(Ids(items), ids[|ids| - 1]);
      Arranged(items, ids[..|ids| - 1]) + (if at.Some? then [items[at.value]] else [])
  }

  predicate SameIds(items: seq<Item>, ids: seq<string>) {
    |items| == |ids| && NoRepeats(ids) && forall i | 0 <= i < |items| :: items[i].id in ids
  }

  predicate HasMedia(items: seq<Item>, media: string) {
    exists i | 0 <= i < |items| :: items[i].media == media
  }

  /** What the server makes of a request at its current revision: its answer, and the next queue if there is one. */
  function Work(items: seq<Item>, request: Request, newId: string): (Answer, Option<seq<Item>>) {
    match request
    case AddItem(media, _) =>
      if HasMedia(items, media) then (Accepted, None)
      else if |items| >= MAXIMUM_ITEMS || newId in Ids(items) then (Rejected, None)
      else (Accepted, Some(items + [Item(newId, media)]))
    case RemoveItem(id, _) =>
      var at := IndexOf(Ids(items), id);
      if at.None? then (Rejected, None) else (Accepted, Some(items[..at.value] + items[at.value + 1..]))
    case Reorder(ids, _) =>
      if SameIds(items, ids) then (Accepted, Some(Arranged(items, ids))) else (Conflict, None)
  }

  /** The server keeps the queue of every revision here; the last is the current one. */
  function Apply(history: seq<seq<Item>>, request: Request, newId: string): (Answer, seq<seq<Item>>)
    requires history != []
  {
    if request.expected != |history| - 1 then (Conflict, history)
    else
      var r := Work(history[|history| - 1], request, newId);
      (r.0, if r.1.Some? then history + [r.1.value] else history)
  }

  // ---------------------------------------------------------------- a client

  datatype Action = Add(media: string) | Remove(itemId: string) | Move(itemId: string, down: bool)

  datatype Error = Load | Mutation

  datatype View = View(queue: Option<Queue>, loading: bool, busyItemId: string, error: Option<Error>, conflict: bool)

  const EMPTY_VIEW := View(None, false, "", None, false)

  /** Why a queue is being fetched. */
  datatype Purpose = Standalone | BeforeAction(action: Action) | AfterAction | AfterConflict

  /** A call waiting: for the server to read or to work, or for the reply that is on its way. A request whose caller
      has given up may still reach the server. */
  datatype Task =
    | Fetching(purpose: Purpose)
    | Fetched(purpose: Purpose, queue: Queue)
    | Sending(request: Request)
    | Answered(answer: Answer)
    | GivenUp(request: Request)

  function Busy(action: Action): string {
    if action.Add? then "new" else action.itemId
  }

  function Swapped<T>(s: seq<T>, i: nat, j: nat): seq<T>
    requires i < |s| && j < |s|
  {
    s[i := s[j]][j := s[i]]
  }

  /** The order that a move asks for; None where the item is missing or already at the end. */
  function MovedIds(items: seq<Item>, id: string, down: bool): Option<seq<string>> {
    var at := IndexOf(Ids(items), id);
    if at.None? then None
    else
      var target := if down then at.value + 1 else at.value - 1;
      if target < 0 || target >= |items| then None else Some(Swapped(Ids(items), at.value, target))
  }

  function RequestOf(queue: Queue, action: Action): Option<Request> {
    match action
    case Add(media) => Some(AddItem(media, queue.revision))
    case Remove(id) => Some(RemoveItem(id, queue.revision))
    case Move(id, down) =>
      var ids := MovedIds(queue.items, id, down);
      if ids.Some? then Some(Reorder(ids.value, queue.revision)) else None
  }

  function Begun(v: View, preserveConflict: bool): View {
    v.(loading := true, error := None, conflict := if preserveConflict then v.conflict else false)
  }

  /** The action goes out with the revision of the queue it was computed from; without a request the queue is fetched again. */
  function Act(v: View, queue: Queue, action: Action): (View, Option<Task>) {
    var request := RequestOf(queue, action);
    if request.Some? then (v, Some(Sending(request.value))) else (Begun(v, false), Some(Fetching(AfterAction)))
  }

  function StartRefresh(v: View): (View, Option<Task>) {
    (Begun(v, false), Some(Fetching(Standalone)))
  }

  function StartMutate(v: View, action: Action): (View, Option<Task>) {
    var w := v.(busyItemId := Busy(action), error := None, conflict := false);
    if w.queue.Some? then Act(w, w.queue.value, action) else (Begun(w, false), Some(Fetching(BeforeAction(action))))
  }

  function MutationFailed(v: View): View {
    v.(busyItemId := "", error := Some(Mutation), conflict := false)
  }

  /** A reply reaches the client. */
  function Received(v: View, task: Task): (View, Option<Task>) {
    match task
    case Fetched(purpose, queue) => (
      var w := v.(queue := Some(queue), loading := false);
      match purpose
      case Standalone => (w, None)
      case BeforeAction(action) => Act(w, queue, action)
      case AfterAction => (w.(busyItemId := ""), None)
      case AfterConflict => (w.(busyItemId := ""), None))
    case Answered(answer) => (
      match answer
      case Accepted => (Begun(v, false), Some(Fetching(AfterAction)))
      case Conflict => (Begun(v.(busyItemId := "", error := None, conflict := true), true), Some(Fetching(AfterConflict)))
      case Rejected => (MutationFailed(v), None))
    case _ => (v, Some(task))
  }

  /** A call fails before its reply arrives. */
  function Failed(v: View, task: Task): (View, Option<Task>) {
    match task
    case Fetching(purpose) => (FetchFailed(v, purpose), None)
    case Fetched(purpose, _) => (FetchFailed(v, purpose), None)
    case Sending(request) => (MutationFailed(v), Some(GivenUp(request)))
    case Answered(_) => (MutationFailed(v), None)
    case GivenUp(_) => (v, None)
  }

  function FetchFailed(v: View, purpose: Purpose): View {
    var w := v.(loading := false, error := Some(Load));
    match purpose
    case Standalone => w
    case BeforeAction(_) => MutationFailed(w)
    case AfterAction => MutationFailed(w)
    case AfterConflict => w.(busyItemId := "")
  }

  // ---------------------------------------------------------------- all of them together

  datatype Call = Call(client: nat, task: Task)

  datatype World = World(history: seq<seq<Item>>, views: map<nat, View>, calls: map<nat, Call>, next: nat)

  datatype Event =
    | Refresh(client: nat)
    | Mutate(client: nat, action: Action)
    | ServerReads(call: nat)
    | ServerWorks(call: nat, newId: string)
    | Receive(call: nat)
    | Fail(call: nat)

  function ViewOf(w: World, client: nat): View {
    if client in w.views then w.views[client] else EMPTY_VIEW
  }

  /** A client step: its new view, and a new call in place of `call`. */
  function Publish(w: World, client: nat, call: nat, r: (View, Option<Task>)): World {
    w.(views := w.views[client := r.0],
       calls := if r.1.Some? then w.calls[call := Call(client, r.1.value)] else w.calls - {call})
  }

  function Launch(w: World, client: nat, r: (View, Option<Task>)): World {
    Publish(w, client, w.next, r).(next := w.next + 1)
  }

  function ServerRead(w: World, k: nat): World
    requires w.history != [] && k in w.calls
  {
    var call := w.calls[k];
    if !call.task.Fetching? then w
    else
      var queue := Queue(|w.history| - 1, w.history[|w.history| - 1]);
      w.(calls := w.calls[k := Call(call.client, Fetched(call.task.purpose, queue))])
  }

  function ServerWork(w: World, k: nat, newId: string): World
    requires w.history != [] && k in w.calls
  {
    var call := w.calls[k];
    match call.task
    case Sending(request) =>
      var r := Apply(w.history, request, newId);
      w.(history := r.1, calls := w.calls[k := Call(call.client, Answered(r.0))])
    case GivenUp(request) =>
      w.(history := Apply(w.history, request, newId).1, calls := w.calls - {k})
    case _ => w
  }

  function Step(w: World, e: Event): (r: World)
    requires w.history != []
    ensures w.history <= r.history
  {
    match e
    case Refresh(client) => Launch(w, client, StartRefresh(ViewOf(w, client)))
    case Mutate(client, action) => Launch(w, client, StartMutate(ViewOf(w, client), action))
    case ServerReads(k) => if k in w.calls then ServerRead(w, k) else w
    case ServerWorks(k, newId) => if k in w.calls then ServerWork(w, k, newId) else w
    case Receive(k) =>
      if k in w.calls then Publish(w, w.calls[k].client, k, Received(ViewOf(w, w.calls[k].client), w.calls[k].task)) else w
    case Fail(k) =>
      if k in w.calls then Publish(w, w.calls[k].client, k, Failed(ViewOf(w, w.calls[k].client), w.calls[k].task)) else w
  }

  // ---------------------------------------------------------------- what every run keeps

  /** A queue that the server had at that revision. */
  predicate Genuine(history: seq<seq<Item>>, queue: Queue) {
    queue.revision < |history| && history[queue.revision] == queue.items
  }

  predicate SwapOf<T(==)>(s: seq<T>, t: seq<T>, i: nat) {
    i + 1 < |s| && t == Swapped(s, i, i + 1)
  }

  /** `t` is `s` with two neighbours swapped. */
  ghost predicate OneSwap<T>(s: seq<T>, t: seq<T>) {
    exists i :: SwapOf(s, t, i)
  }

  /** A reorder asks for one adjacent swap of the queue at the revision it expects. */
  ghost predicate Honest(history: seq<seq<Item>>, request: Request) {
    && request.expected < |history|
    && (request.Reorder? ==> OneSwap(Ids(history[request.expected]), request.ids))
  }

  ghost predicate HonestTask(history: seq<seq<Item>>, task: Task) {
    match task
    case Fetching(_) => true
    case Fetched(_, queue) => Genuine(history, queue)
    case Sending(request) => Honest(history, request)
    case Answered(_) => true
    case GivenUp(request) => Honest(history, request)
  }

  predicate Appended(a: seq<Item>, b: seq<Item>) {
    |b| == |a| + 1 && b[..|a|] == a && b[|a|].id !in Ids(a) && !HasMedia(a, b[|a|].media)
  }

  predicate WithoutOne(a: seq<Item>, b: seq<Item>) {
    exists i | 0 <= i < |a| :: b == a[..i] + a[i + 1..]
  }

  /** One accepted change: an adjacent swap, an item added at the end, or one item taken out. */
  ghost predicate Change(a: seq<Item>, b: seq<Item>) {
    OneSwap(a, b) || Appended(a, b) || WithoutOne(a, b)
  }

  predicate GenuineView(history: seq<seq<Item>>, v: View) {
    v.queue.Some? ==> Genuine(history, v.queue.value)
  }

  /** From the queue numbered `start - 1` on, ids are distinct and each queue comes from the one before by one change. */
  ghost predicate Past(history: seq<seq<Item>>, start: nat) {
    && 0 < start <= |history|
    && (forall r | start - 1 <= r < |history| :: DistinctIds(history[r]))
    && (forall r | start <= r < |history| :: Change(history[r - 1], history[r]))
  }

  ghost predicate Inv(w: World, start: nat) {
    && Past(w.history, start)
    && (forall c | c in w.views :: GenuineView(w.history, w.views[c]))
    && (forall k | k in w.calls :: HonestTask(w.history, w.calls[k].task))
  }

  lemma MoveIsSwap(items: seq<Item>, id: string, down: bool)
    requires MovedIds(items, id, down).Some?
    ensures OneSwap(Ids(items), MovedIds(items, id, down).value)
  {
    var at := IndexOf(Ids(items), id).value;
    if down {
      assert SwapOf(Ids(items), MovedIds(items, id, down).value, at);
    } else {
      assert Swapped(Ids(items), at, at - 1) == Swapped(Ids(items), at - 1, at);
      assert SwapOf(Ids(items), MovedIds(items, id, down).value, at - 1);
    }
  }

  /** A move changes places with the next item, later or earlier as asked, and leaves every other where it is; there is
      none if and only if the item is missing or already at that end. */
  lemma MoveGoesOnePlace(items: seq<Item>, i: nat, down: bool)
    requires DistinctIds(items) && i < |items|
    ensures var moved := MovedIds(items, items[i].id, down);
            var j := if down then i + 1 else i - 1;
            && (moved.Some? <==> 0 <= j < |items|)
            && (moved.Some? ==>
                  && |moved.value| == |items| && moved.value[j] == items[i].id && moved.value[i] == items[j].id
                  && forall k | 0 <= k < |items| && k != i && k != j :: moved.value[k] == items[k].id)
  {
    IndexOfDistinct(items, i);
  }

  lemma MissingIsNotMoved(items: seq<Item>, id: string, down: bool)
    requires forall i | 0 <= i < |items| :: items[i].id != id
    ensures MovedIds(items, id, down).None?
  {
  }

  /** A conflict stays shown while the queue is fetched again, until the next refresh or change begins. */
  lemma ConflictStaysShown(v: View, queue: Queue, action: Action)
    ensures var r := Received(v, Answered(Conflict));
            && r.0.conflict && r.0.error.None? && r.0.loading && r.1 == Some(Fetching(AfterConflict))
            && Received(r.0, Fetched(AfterConflict, queue)).0 == r.0.(queue := Some(queue), loading := false, busyItemId := "")
            && Failed(r.0, Fetching(AfterConflict)).0.conflict
            && !StartRefresh(r.0).0.conflict && !StartMutate(r.0, action).0.conflict
  {
  }

  lemma ActIsHonest(history: seq<seq<Item>>, v: View, queue: Queue, action: Action)
    requires Genuine(history, queue) && GenuineView(history, v)
    ensures GenuineView(history, Act(v, queue, action).0)
    ensures HonestTask(history, Act(v, queue, action).1.value)
  {
    if action.Move? && MovedIds(queue.items, action.itemId, action.down).Some? {
      MoveIsSwap(queue.items, action.itemId, action.down);
    }
  }

  lemma StartIsHonest(history: seq<seq<Item>>, v: View, action: Action)
    requires GenuineView(history, v)
    ensures GenuineView(history, StartMutate(v, action).0) && HonestTask(history, StartMutate(v, action).1.value)
  {
    if v.queue.Some? {
      ActIsHonest(history, v.(busyItemId := Busy(action), error := None, conflict := false), v.queue.value, action);
    }
  }

  lemma ReceivedIsHonest(history: seq<seq<Item>>, v: View, task: Task)
    requires GenuineView(history, v) && HonestTask(history, task)
    ensures var r := Received(v, task); GenuineView(history, r.0) && (r.1.Some? ==> HonestTask(history, r.1.value))
  {
    if task.Fetched? && task.purpose.BeforeAction? {
      ActIsHonest(history, v.(queue := Some(task.queue), loading := false), task.queue, task.purpose.action);
    }
  }

  // ---------------------------------------------------------------- the server's part

  lemma IndexOfDistinct(items: seq<Item>, i: nat)
    requires DistinctIds(items) && i < |items|
    ensures IndexOf(Ids(items), items[i].id) == Some(i)
  {
    assert Ids(items)[i] == items[i].id;
    var r := IndexOf(Ids(items), items[i].id);
    assert r.Some?;
    assert Ids(items)[r.value] == items[r.value].id;
  }

  /** Looking items up by the ids of a list of them gives the list back. */
  lemma {:induction false} ArrangedPicks(items: seq<Item>, picked: seq<Item>)
    requires DistinctIds(items) && forall i | 0 <= i < |picked| :: picked[i] in items
    ensures Arranged(items, Ids(picked)) == picked
  {
    if picked != [] {
      var last := picked[|picked| - 1];
      ArrangedPicks(items, picked[..|picked| - 1]);
      assert Ids(picked)[..|picked| - 1] == Ids(picked[..|picked| - 1]);
      var i :| 0 <= i < |items| && items[i] == last;
      IndexOfDistinct(items, i);
      assert picked == picked[..|picked| - 1] + [last];
    }
  }

  lemma SwappedIds(items: seq<Item>, i: nat)
    requires DistinctIds(items) && i + 1 < |items|
    ensures var b := Swapped(items, i, i + 1);
            DistinctIds(b) && Ids(b) == Swapped(Ids(items), i, i + 1) && forall k | 0 <= k < |b| :: b[k] in items
  {
  }

  lemma SwapHasSameIds(items: seq<Item>, ids: seq<string>, i: nat)
    requires DistinctIds(items) && SwapOf(Ids(items), ids, i)
    ensures SameIds(items, ids)
  {
    forall k | 0 <= k < |items| ensures items[k].id in ids {
      var k' := if k == i then i + 1 else if k == i + 1 then i else k;
      assert ids[k'] == items[k].id;
    }
  }

  lemma SwapProperties(items: seq<Item>, ids: seq<string>, i: nat)
    requires DistinctIds(items) && SwapOf(Ids(items), ids, i)
    ensures SameIds(items, ids)
    ensures SwapOf(items, Arranged(items, ids), i) && DistinctIds(Arranged(items, ids))
  {
    SwapHasSameIds(items, ids, i);
    SwappedIds(items, i);
    ArrangedPicks(items, Swapped(items, i, i + 1));
  }

  lemma AppendedIsDistinct(a: seq<Item>, b: seq<Item>)
    requires DistinctIds(a) && Appended(a, b)
    ensures DistinctIds(b)
  {
    forall i, j | 0 <= i < j < |b| ensures b[i].id != b[j].id {
      assert b[i] == a[i];
      assert Ids(a)[i] == a[i].id;
      assert j < |a| ==> b[j] == a[j];
    }
  }

  lemma RemovedIsDistinct(a: seq<Item>, i: nat)
    requires DistinctIds(a) && i < |a|
    ensures DistinctIds(a[..i] + a[i + 1..])
  {
  }

  lemma WorkIsChange(items: seq<Item>, request: Request, newId: string)
    requires DistinctIds(items)
    requires request.Reorder? ==> OneSwap(Ids(items), request.ids)
    ensures var r := Work(items, request, newId).1; r.Some? ==> Change(items, r.value) && DistinctIds(r.value)
  {
    var r := Work(items, request, newId).1;
    if r.Some? {
      match request
      case AddItem(media, _) => AppendedIsDistinct(items, r.value);
      case RemoveItem(id, _) => RemovedIsDistinct(items, IndexOf(Ids(items), id).value);
      case Reorder(ids, _) =>
        var i :| SwapOf(Ids(items), ids, i);
        SwapProperties(items, ids, i);
    }
  }

  lemma ApplyKeepsPast(history: seq<seq<Item>>, start: nat, request: Request, newId: string)
    requires Past(history, start) && Honest(history, request)
    ensures Past(Apply(history, request, newId).1, start) && history <= Apply(history, request, newId).1
  {
    var current := history[|history| - 1];
    if request.expected == |history| - 1 {
      WorkIsChange(current, request, newId);
      var after := Apply(history, request, newId).1;
      forall r | start <= r < |after| ensures Change(after[r - 1], after[r]) {
        if r < |history| {
          assert Change(history[r - 1], history[r]);
        }
      }
    }
  }

  lemma LongerHistory(history: seq<seq<Item>>, more: seq<seq<Item>>, v: View, task: Task)
    requires history <= more
    ensures GenuineView(history, v) ==> GenuineView(more, v)
    ensures HonestTask(history, task) ==> HonestTask(more, task)
  {
  }

  lemma ServerWorkInv(w: World, start: nat, k: nat, newId: string)
    requires Inv(w, start) && k in w.calls
    ensures Inv(ServerWork(w, k, newId), start)
  {
    var task := w.calls[k].task;
    if task.Sending? || task.GivenUp? {
      ApplyKeepsPast(w.history, start, task.request, newId);
      var after := ServerWork(w, k, newId);
      forall c | c in after.views ensures GenuineView(after.history, after.views[c]) {
        LongerHistory(w.history, after.history, w.views[c], task);
      }
      forall j | j in after.calls ensures HonestTask(after.history, after.calls[j].task) {
        LongerHistory(w.history, after.history, EMPTY_VIEW, w.calls[j].task);
      }
    }
  }

  lemma StepInv(w: World, start: nat, e: Event)
    requires Inv(w, start)
    ensures Inv(Step(w, e), start)
  {
    match e
    case Refresh(client) =>
    case Mutate(client, action) => StartIsHonest(w.history, ViewOf(w, client), action);
    case ServerReads(k) =>
    case ServerWorks(k, newId) =>
      if k in w.calls {
        ServerWorkInv(w, start, k, newId);
      }
    case Receive(k) =>
      if k in w.calls {
        ReceivedIsHonest(w.history, ViewOf(w, w.calls[k].client), w.calls[k].task);
      }
    case Fail(k) =>
  }

  function Run(w: World, events: seq<Event>): (r: World)
    requires w.history != []
    ensures w.history <= r.history
  {
    if events == [] then w else Step(Run(w, events[..|events| - 1]), events[|events| - 1])
  }

  lemma {:induction false} RunInv(w: World, start: nat, events: seq<Event>)
    requires Inv(w, start)
    ensures Inv(Run(w, events), start)
  {
    if events != [] {
      RunInv(w, start, events[..|events| - 1]);
      StepInv(Run(w, events[..|events| - 1]), start, events[|events| - 1]);
    }
  }

  /** In every run, however replies are delayed, lost or overtaken, and whatever the server's queues were before: each
      client's cached queue is the server's queue at that revision, and each new revision differs from the one before by
      a swap, an addition or a removal. */
  lemma {:induction false} CachedQueuesAreGenuine(history: seq<seq<Item>>, events: seq<Event>)
    requires history != [] && DistinctIds(history[|history| - 1])
    ensures var w := Run(World(history, map[], map[], 0), events);
            && (forall c | c in w.views :: GenuineView(w.history, w.views[c]))
            && history <= w.history
            && (forall r | |history| <= r < |w.history| :: Change(w.history[r - 1], w.history[r]))
            && (forall r | |history| <= r < |w.history| :: DistinctIds(w.history[r]))
  {
    RunInv(World(history, map[], map[], 0), |history|, events);
  }

  lemma SwapKeepsItems<T>(s: seq<T>, i: nat)
    requires i + 1 < |s|
    ensures multiset(Swapped(s, i, i + 1)) == multiset(s)
  {
    assert s == s[..i] + [s[i], s[i + 1]] + s[i + 2..];
    assert Swapped(s, i, i + 1) == s[..i] + [s[i + 1], s[i]] + s[i + 2..];
  }

  /** The request of a call, whether or not its caller still waits. */
  function Asked(task: Task): Option<Request> {
    if task.Sending? || task.GivenUp? then Some(task.request) else None
  }

  lemma ReorderWork(items: seq<Item>, request: Request, newId: string)
    requires DistinctIds(items) && request.Reorder? && OneSwap(Ids(items), request.ids)
    ensures var r := Work(items, request, newId);
            && r.0 == Accepted && r.1.Some?
            && OneSwap(items, r.1.value) && multiset(r.1.value) == multiset(items)
  {
    var i :| SwapOf(Ids(items), request.ids, i);
    SwapProperties(items, request.ids, i);
    SwapKeepsItems(items, i);
  }

  /** One revision more, with two neighbours of the last queue swapped and no item lost or doubled. */
  ghost predicate SwapRevision(before: seq<seq<Item>>, after: seq<seq<Item>>)
    requires before != []
  {
    && |after| == |before| + 1 && before <= after
    && OneSwap(before[|before| - 1], after[|before|])
    && multiset(after[|before|]) == multiset(before[|before| - 1])
  }

  lemma ReorderApplied(history: seq<seq<Item>>, request: Request, newId: string)
    requires history != [] && DistinctIds(history[|history| - 1]) && Honest(history, request) && request.Reorder?
    ensures var r := Apply(history, request, newId);
            if request.expected == |history| - 1 then r.0 == Accepted && SwapRevision(history, r.1)
            else r.0 == Conflict && r.1 == history
  {
    if request.expected == |history| - 1 {
      ReorderWork(history[|history| - 1], request, newId);
    }
  }

  lemma InFlightIsHonest(w: World, start: nat, k: nat)
    requires Inv(w, start) && k in w.calls && Asked(w.calls[k].task).Some?
    ensures DistinctIds(w.history[|w.history| - 1]) && Honest(w.history, Asked(w.calls[k].task).value)
  {
    assert HonestTask(w.history, w.calls[k].task);
  }

  lemma ServerWorkApplies(w: World, k: nat, newId: string)
    requires w.history != [] && k in w.calls && Asked(w.calls[k].task).Some?
    ensures ServerWork(w, k, newId).history == Apply(w.history, Asked(w.calls[k].task).value, newId).1
  {
  }

  /** A reorder that reaches the server is accepted exactly when it expects the current revision; then it swaps two
      neighbours of the current queue, and no item is lost or doubled. */
  lemma ReorderIsOneSwap(w: World, start: nat, k: nat, newId: string)
    requires Inv(w, start) && k in w.calls && Asked(w.calls[k].task).Some? && Asked(w.calls[k].task).value.Reorder?
    ensures var request, after := Asked(w.calls[k].task).value, ServerWork(w, k, newId);
            && (Apply(w.history, request, newId).0 == Accepted <==> request.expected == |w.history| - 1)
            && (if request.expected == |w.history| - 1 then SwapRevision(w.history, after.history) else after.history == w.history)
  {
    InFlightIsHonest(w, start, k);
    ServerWorkApplies(w, k, newId);
    ReorderApplied(w.history, Asked(w.calls[k].task).value, newId);
  }

  // ---------------------------------------------------------------- what the view shows is under way

  predicate IsFetch(task: Task) {
    task.Fetching? || task.Fetched?
  }

  /** A step of a mutation that its caller still waits for. */
  predicate IsMutation(task: Task) {
    task.Sending? || task.Answered? || (IsFetch(task) && !task.purpose.Standalone?)
  }

  predicate FetchOf(w: World, k: nat, client: nat) {
    k in w.calls && w.calls[k].client == client && IsFetch(w.calls[k].task)
  }

  predicate MutationOf(w: World, k: nat, client: nat) {
    k in w.calls && w.calls[k].client == client && IsMutation(w.calls[k].task)
  }

  /** What a client shows as loading or busy is under way. */
  ghost predicate Shows(w: World, client: nat) {
    && (ViewOf(w, client).loading ==> exists k :: FetchOf(w, k, client))
    && (ViewOf(w, client).busyItemId != "" ==> exists k :: MutationOf(w, k, client))
  }

  ghost predicate ShowsAll(w: World) {
    (forall k | k in w.calls :: k < w.next) && forall c :: Shows(w, c)
  }

  /** What a step of one client does to its marks: a mark it leaves set was set before by another call, or the new call
      stands for it. */
  predicate Accounts(v: View, ended: Option<Task>, r: (View, Option<Task>)) {
    && (r.0.loading ==> (r.1.Some? && IsFetch(r.1.value)) || (v.loading && (ended.None? || !IsFetch(ended.value))))
    && (r.0.busyItemId != "" ==>
          (r.1.Some? && IsMutation(r.1.value)) || (v.busyItemId != "" && (ended.None? || !IsMutation(ended.value))))
  }

  lemma StartAccounts(v: View, action: Action)
    ensures Accounts(v, None, StartRefresh(v)) && Accounts(v, None, StartMutate(v, action))
  {
  }

  lemma TaskAccounts(v: View, task: Task)
    ensures Accounts(v, Some(task), Received(v, task)) && Accounts(v, Some(task), Failed(v, task))
  {
  }

  lemma OthersKeepShowing(w: World, x: World, k: nat, c: nat)
    requires Shows(w, c) && ViewOf(x, c) == ViewOf(w, c)
    requires forall j | j != k && j in w.calls :: j in x.calls && x.calls[j] == w.calls[j]
    requires k in w.calls ==> w.calls[k].client != c
    ensures Shows(x, c)
  {
    if ViewOf(w, c).loading {
      var j :| FetchOf(w, j, c);
      assert FetchOf(x, j, c);
    }
    if ViewOf(w, c).busyItemId != "" {
      var j :| MutationOf(w, j, c);
      assert MutationOf(x, j, c);
    }
  }

  lemma PublishShows(w: World, client: nat, k: nat, r: (View, Option<Task>))
    requires Shows(w, client) && (k in w.calls ==> w.calls[k].client == client)
    requires Accounts(ViewOf(w, client), if k in w.calls then Some(w.calls[k].task) else None, r)
    ensures Shows(Publish(w, client, k, r), client)
  {
    var x := Publish(w, client, k, r);
    assert ViewOf(x, client) == r.0;
    if r.0.loading {
      if r.1.Some? && IsFetch(r.1.value) {
        assert FetchOf(x, k, client);
      } else {
        var j :| FetchOf(w, j, client);
        assert FetchOf(x, j, client);
      }
    }
    if r.0.busyItemId != "" {
      if r.1.Some? && IsMutation(r.1.value) {
        assert MutationOf(x, k, client);
      } else {
        var j :| MutationOf(w, j, client);
        assert MutationOf(x, j, client);
      }
    }
  }

  lemma PublishShowsAll(w: World, client: nat, k: nat, r: (View, Option<Task>), c: nat)
    requires Shows(w, client) && Shows(w, c) && (k in w.calls ==> w.calls[k].client == client)
    requires Accounts(ViewOf(w, client), if k in w.calls then Some(w.calls[k].task) else None, r)
    ensures Shows(Publish(w, client, k, r), c)
  {
    if c == client {
      PublishShows(w, client, k, r);
    } else {
      OthersKeepShowing(w, Publish(w, client, k, r), k, c);
    }
  }

  /** The server's work on call `k` leaves its kind, or ends a call that nobody waits for. */
  lemma ServerKeepsShowing(w: World, x: World, k: nat, c: nat)
    requires Shows(w, c) && x.views == w.views && k in w.calls
    requires forall j | j != k && j in w.calls :: j in x.calls && x.calls[j] == w.calls[j]
    requires FetchOf(w, k, c) ==> FetchOf(x, k, c)
    requires MutationOf(w, k, c) ==> MutationOf(x, k, c)
    ensures Shows(x, c)
  {
    if ViewOf(w, c).loading {
      var j :| FetchOf(w, j, c);
      assert FetchOf(x, j, c);
    }
    if ViewOf(w, c).busyItemId != "" {
      var j :| MutationOf(w, j, c);
      assert MutationOf(x, j, c);
    }
  }

  lemma ServerStepShows(w: World, k: nat, newId: string, c: nat)
    requires w.history != [] && k in w.calls && Shows(w, c)
    ensures Shows(ServerRead(w, k), c) && Shows(ServerWork(w, k, newId), c)
  {
    ServerKeepsShowing(w, ServerRead(w, k), k, c);
    ServerKeepsShowing(w, ServerWork(w, k, newId), k, c);
  }

  lemma LaunchShows(w: World, client: nat, r: (View, Option<Task>))
    requires ShowsAll(w) && Accounts(ViewOf(w, client), None, r)
    ensures ShowsAll(Launch(w, client, r))
  {
    var x := Publish(w, client, w.next, r);
    assert w.next !in w.calls;
    forall c ensures Shows(Launch(w, client, r), c) {
      assert Shows(w, client) && Shows(w, c);
      PublishShowsAll(w, client, w.next, r, c);
      SameCallsShow(x, Launch(w, client, r), c);
    }
  }

  lemma SameCallsShow(w: World, x: World, c: nat)
    requires Shows(w, c) && x.views == w.views && x.calls == w.calls
    ensures Shows(x, c)
  {
    if ViewOf(w, c).loading {
      var j :| FetchOf(w, j, c);
      assert FetchOf(x, j, c);
    }
    if ViewOf(w, c).busyItemId != "" {
      var j :| MutationOf(w, j, c);
      assert MutationOf(x, j, c);
    }
  }

  lemma TaskStepShows(w: World, k: nat)
    requires ShowsAll(w) && k in w.calls
    ensures var client, task := w.calls[k].client, w.calls[k].task;
            && ShowsAll(Publish(w, client, k, Received(ViewOf(w, client), task)))
            && ShowsAll(Publish(w, client, k, Failed(ViewOf(w, client), task)))
  {
    var client, task := w.calls[k].client, w.calls[k].task;
    var v := ViewOf(w, client);
    TaskAccounts(v, task);
    forall c ensures Shows(Publish(w, client, k, Received(v, task)), c) && Shows(Publish(w, client, k, Failed(v, task)), c) {
      assert Shows(w, client) && Shows(w, c);
      PublishShowsAll(w, client, k, Received(v, task), c);
      PublishShowsAll(w, client, k, Failed(v, task), c);
    }
  }

  lemma StepShows(w: World, e: Event)
    requires w.history != [] && ShowsAll(w)
    ensures ShowsAll(Step(w, e))
  {
    match e
    case Refresh(client) =>
      StartAccounts(ViewOf(w, client), Add(""));
      LaunchShows(w, client, StartRefresh(ViewOf(w, client)));
    case Mutate(client, action) =>
      StartAccounts(ViewOf(w, client), action);
      LaunchShows(w, client, StartMutate(ViewOf(w, client), action));
    case ServerReads(k) =>
      if k in w.calls {
        forall c ensures Shows(ServerRead(w, k), c) {
          ServerStepShows(w, k, "", c);
        }
      }
    case ServerWorks(k, newId) =>
      if k in w.calls {
        forall c ensures Shows(ServerWork(w, k, newId), c) {
          ServerStepShows(w, k, newId, c);
        }
      }
    case Receive(k) => if k in w.calls { TaskStepShows(w, k); }
    case Fail(k) => if k in w.calls { TaskStepShows(w, k); }
  }

  lemma {:induction false} RunShows(w: World, events: seq<Event>)
    requires w.history != [] && ShowsAll(w)
    ensures ShowsAll(Run(w, events))
  {
    if events != [] {
      RunShows(w, events[..|events| - 1]);
      StepShows(Run(w, events[..|events| - 1]), events[|events| - 1]);
    }
  }

  /** In every run, a client that shows itself loading has a fetch outstanding, and one that shows itself busy has a
      mutation outstanding: neither mark outlives the calls, whatever fails or overlaps. */
  lemma {:induction false} MarksDoNotStick(history: seq<seq<Item>>, events: seq<Event>, client: nat)
    requires history != []
    ensures var w := Run(World(history, map[], map[], 0), events);
            && (ViewOf(w, client).loading ==> exists k :: FetchOf(w, k, client))
            && (ViewOf(w, client).busyItemId != "" ==> exists k :: MutationOf(w, k, client))
  {
    RunShows(World(history, map[], map[], 0), events);
    assert Shows(Run(World(history, map[], map[], 0), events), client);
  }

  // ---------------------------------------------------------------- the client's own code

  /** `moveReadingQueueItem`: the ids are copied and two of them swapped in place. */
  method MoveIds(items: seq<Item>, id: string, down: bool) returns (r: Option<seq<string>>)
    ensures r == MovedIds(items, id, down)
  {
    var index := 0;
    while index < |items| && items[index].id != id
      invariant 0 <= index <= |items|
      invariant forall i | 0 <= i < index :: Ids(items)[i] != id
    {
      index := index + 1;
    }
    ghost var at := IndexOf(Ids(items), id);
    if index == |items| {
      return None;
    }
    assert Ids(items)[index] == id && at == Some(index);
    var target := if down then index + 1 else index - 1;
    if target < 0 || target >= |items| {
      return None;
    }
    var ids := new string[|items|](i requires 0 <= i < |items| => items[i].id);
    assert ids[..] == Ids(items);
    ids[index], ids[target] := ids[target], ids[index];
    return Some(ids[..]);
  }

  /** The `states` map: one view for each profile. */
  class States {
    var states: map<string, View>

    ghost function Of(profile: string): View
      reads this
    {
      if profile in states then states[profile] else EMPTY_VIEW
    }

    constructor ()
      ensures states == map[]
    {
      states := map[];
    }

    function State(profile: string): (v: View)
      reads this
      ensures v == Of(profile)
    {
      if profile in states then states[profile] else EMPTY_VIEW
    }

    /** The synchronous start of `refreshReadingQueue`. */
    method BeginRefresh(profile: string, preserveConflict: bool)
      modifies this
      ensures Of(profile) == Begun(old(Of(profile)), preserveConflict)
      ensures forall p | p != profile :: Of(p) == old(Of(p))
    {
      var v := State(profile).(loading := true, error := None);
      if !preserveConflict {
        v := v.(conflict := false);
      }
      states := states[profile := v];
    }

    /** The stretch of `mutate` up to its first request. */
    method BeginMutate(profile: string, action: Action) returns (task: Task)
      modifies this
      ensures (Of(profile), Some(task)) == StartMutate(old(Of(profile)), action)
      ensures forall p | p != profile :: Of(p) == old(Of(p))
    {
      var v := State(profile).(busyItemId := Busy(action), error := None, conflict := false);
      states := states[profile := v];
      if v.queue.Some? {
        task := Perform(profile, v.queue.value, action);
      } else {
        BeginRefresh(profile, false);
        task := Fetching(BeforeAction(action));
      }
    }

    /** The action, and the refresh that follows at once when it sends nothing. */
    method Perform(profile: string, queue: Queue, action: Action) returns (task: Task)
      modifies this
      ensures (Of(profile), Some(task)) == Act(old(Of(profile)), queue, action)
      ensures forall p | p != profile :: Of(p) == old(Of(p))
    {
      match action
      case Add(media) => task := Sending(AddItem(media, queue.revision));
      case Remove(id) => task := Sending(RemoveItem(id, queue.revision));
      case Move(id, down) =>
        var ids := MoveIds(queue.items, id, down);
        if ids.Some? {
          task := Sending(Reorder(ids.value, queue.revision));
        } else {
          BeginRefresh(profile, false);
          task := Fetching(AfterAction);
        }
    }

    /** The stretch after a queue arrives. */
    method OnFetched(profile: string, purpose: Purpose, queue: Queue) returns (task: Option<Task>)
      modifies this
      ensures (Of(profile), task) == Received(old(Of(profile)), Fetched(purpose, queue))
      ensures forall p | p != profile :: Of(p) == old(Of(p))
    {
      states := states[profile := State(profile).(queue := Some(queue), loading := false)];
      task := None;
      match purpose
      case Standalone =>
      case BeforeAction(action) =>
        var next := Perform(profile, queue, action);
        task := Some(next);
      case AfterAction => states := states[profile := State(profile).(busyItemId := "")];
      case AfterConflict => states := states[profile := State(profile).(busyItemId := "")];
    }

    /** The stretch after the server answers a mutation. */
    method OnAnswered(profile: string, answer: Answer) returns (task: Option<Task>)
      modifies this
      ensures (Of(profile), task) == Received(old(Of(profile)), Answered(answer))
      ensures forall p | p != profile :: Of(p) == old(Of(p))
    {
      match answer
      case Accepted =>
        BeginRefresh(profile, false);
        task := Some(Fetching(AfterAction));
      case Conflict =>
        states := states[profile := State(profile).(busyItemId := "", error := None, conflict := true)];
        BeginRefresh(profile, true);
        task := Some(Fetching(AfterConflict));
      case Rejected =>
        states := states[profile := State(profile).(busyItemId := "", error := Some(Mutation), conflict := false)];
        task := None;
    }

    /** The stretch after a call fails. */
    method OnFailed(profile: string, failed: Task) returns (task: Option<Task>)
      modifies this
      ensures (Of(profile), task) == Failed(old(Of(profile)), failed)
      ensures forall p | p != profile :: Of(p) == old(Of(p))
    {
      var v := State(profile);
      task := if failed.Sending? then Some(GivenUp(failed.request)) else None;
      if failed.Fetching? || failed.Fetched? {
        v := v.(loading := false, error := Some(Load));
        if failed.purpose.AfterConflict? {
          v := v.(busyItemId := "");
        } else if !failed.purpose.Standalone? {
          v := v.(busyItemId := "", error := Some(Mutation), conflict := false);
        }
      } else if !failed.GivenUp? {
        v := v.(busyItemId := "", error := Some(Mutation), conflict := false);
      }
      states := states[profile := v];
    }
  }
}
