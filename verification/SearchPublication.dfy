/** How a progressive search collects, orders and publishes the items that reach it. */
module SearchPublication {
  import opened Prelude
  import opened Dedup

  datatype Intent = Intent(id: string, kind: string, value: string, caption: string)

  datatype SemanticPage<T> = SemanticPage(
    items: seq<T>, intents: seq<Intent>, titleQuery: string, mediaTypes: seq<string>,
    page: int, hasMore: bool, partial: bool)

  datatype SearchResult<T> = SearchResult(
    items: seq<T>, intents: seq<Intent>, mediaTypes: seq<string>, page: int, hasMore: bool, partial: bool)

  /** The metadata of the terminal snapshot. */
  datatype Terminal = Terminal(intents: seq<Intent>, mediaTypes: seq<string>, page: int, hasMore: bool, partial: bool)

  datatype Batch<T> = Batch(order: nat, sequence: nat, items: seq<T>, speculative: bool)

  /** The closure state of one search. `updates` and `arrived` record what was published and what came in. */
  datatype Publication<T> = Publication(
    published: seq<T>,
    semantic: Option<SemanticPage<T>>,
    last: Option<SearchResult<T>>,
    timer: bool,
    nextSequence: nat,
    known: set<string>,
    pending: seq<Batch<T>>,
    updates: seq<SearchResult<T>>,
    arrived: seq<T>)

  function Empty<T>(): Publication<T> { Publication([], None, None, false, 0, {}, [], [], []) }

  // ---------------------------------------------------------------- batches

  predicate Precedes<T>(a: Batch<T>, b: Batch<T>) {
    a.order < b.order || (a.order == b.order && a.sequence < b.sequence)
  }

  function Insert<T>(s: seq<Batch<T>>, b: Batch<T>): seq<Batch<T>> {
    if s != [] && Precedes(b, s[|s| - 1]) then Insert(s[..|s| - 1], b) + [s[|s| - 1]] else s + [b]
  }

  /** The stable sort of `flush`. */
  function Sort<T>(batches: seq<Batch<T>>): seq<Batch<T>> {
    if batches == [] then [] else Insert(Sort(batches[..|batches| - 1]), batches[|batches| - 1])
  }

  ghost predicate Ordered<T(!new)>(s: seq<Batch<T>>) {
    forall i, j | 0 <= i < j < |s| :: Precedes(s[i], s[j])
  }

  ghost predicate DistinctSequences<T(!new)>(s: seq<Batch<T>>) {
    forall i, j | 0 <= i < j < |s| :: s[i].sequence != s[j].sequence
  }

  function Flatten<T>(batches: seq<Batch<T>>): seq<T> {
    if batches == [] then [] else Flatten(batches[..|batches| - 1]) + batches[|batches| - 1].items
  }

  lemma FlattenSnoc<T(!new)>(s: seq<Batch<T>>, b: Batch<T>)
    ensures Flatten(s + [b]) == Flatten(s) + b.items
  {
    assert (s + [b])[..|s|] == s;
  }

  lemma {:induction false} InsertPermutes<T(!new)>(s: seq<Batch<T>>, b: Batch<T>)
    ensures multiset(Insert(s, b)) == multiset(s) + multiset{b}
    ensures multiset(Flatten(Insert(s, b))) == multiset(Flatten(s)) + multiset(b.items)
  {
    if s != [] && Precedes(b, s[|s| - 1]) {
      Snoc(s);
      InsertPermutes(s[..|s| - 1], b);
      FlattenSnoc(Insert(s[..|s| - 1], b), s[|s| - 1]);
    } else {
      FlattenSnoc(s, b);
    }
  }

  lemma {:induction false} InsertOrders<T(!new)>(s: seq<Batch<T>>, b: Batch<T>)
    requires Ordered(s)
    requires forall i | 0 <= i < |s| :: s[i].sequence != b.sequence
    ensures Ordered(Insert(s, b))
  {
    if s != [] && Precedes(b, s[|s| - 1]) {
      var front, l := s[..|s| - 1], s[|s| - 1];
      InsertOrders(front, b);
      var r := Insert(front, b);
      forall i | 0 <= i < |r| ensures Precedes(r[i], l) {
        InsertMember(front, b, i);
      }
    }
  }

  lemma {:induction false} InsertMember<T(!new)>(s: seq<Batch<T>>, b: Batch<T>, i: nat)
    requires i < |Insert(s, b)|
    ensures Insert(s, b)[i] == b || exists j :: 0 <= j < |s| && s[j] == Insert(s, b)[i]
  {
    if s != [] && Precedes(b, s[|s| - 1]) && i < |Insert(s, b)| - 1 {
      InsertMember(s[..|s| - 1], b, i);
    }
  }

  lemma {:induction false} SortPermutes<T(!new)>(s: seq<Batch<T>>)
    ensures multiset(Sort(s)) == multiset(s)
    ensures multiset(Flatten(Sort(s))) == multiset(Flatten(s))
  {
    if s != [] {
      SortPermutes(s[..|s| - 1]);
      Snoc(s);
      InsertPermutes(Sort(s[..|s| - 1]), s[|s| - 1]);
    }
  }

  lemma {:induction false} SortOrders<T(!new)>(s: seq<Batch<T>>)
    requires DistinctSequences(s)
    ensures Ordered(Sort(s))
  {
    if s != [] {
      var front := s[..|s| - 1];
      SortOrders(front);
      SortPermutes(front);
      forall i | 0 <= i < |Sort(front)| ensures Sort(front)[i].sequence != s[|s| - 1].sequence {
        assert Sort(front)[i] in multiset(Sort(front));
        assert Sort(front)[i] in front;
      }
      InsertOrders(Sort(front), s[|s| - 1]);
    }
  }

  /** There is only one way to put batches into (order, sequence) order. */
  lemma {:induction false} OrderedIsUnique<T(!new)>(a: seq<Batch<T>>, b: seq<Batch<T>>)
    requires Ordered(a) && Ordered(b) && multiset(a) == multiset(b)
    ensures a == b
  {
    assert |a| == |multiset(a)| == |multiset(b)| == |b|;
    if a != [] {
      Snoc(a);
      Snoc(b);
      OrderedLast(a, b);
      assert multiset(a[..|a| - 1]) == multiset(a) - multiset{a[|a| - 1]};
      assert multiset(b[..|b| - 1]) == multiset(b) - multiset{b[|b| - 1]};
      OrderedIsUnique(a[..|a| - 1], b[..|b| - 1]);
    }
  }

  lemma OrderedLast<T(!new)>(a: seq<Batch<T>>, b: seq<Batch<T>>)
    requires Ordered(a) && Ordered(b) && multiset(a) == multiset(b) && |a| == |b| > 0
    ensures a[|a| - 1] == b[|b| - 1]
  {
    var x, y := a[|a| - 1], b[|b| - 1];
    assert x in multiset(a) && y in multiset(b);
    assert x in b && y in a;
  }

  // ---------------------------------------------------------------- merging

  ghost function Merge<T(!new)>(ids: T -> set<string>, current: seq<T>, incoming: seq<T>): seq<T> {
    current + Unseen(ids, IdsAll(ids, current), incoming)
  }

  ghost function MergeAll<T(!new)>(ids: T -> set<string>, current: seq<T>, batches: seq<Batch<T>>): seq<T> {
    if batches == [] then current
    else Merge(ids, MergeAll(ids, current, batches[..|batches| - 1]), batches[|batches| - 1].items)
  }

  /** The duplicate check of `mergeViewerSearchItems` drops nothing from batches whose items are apart. */
  lemma {:induction false} MergeAllAppends<T(!new)>(ids: T -> set<string>, current: seq<T>, batches: seq<Batch<T>>)
    requires Apart(ids, current + Flatten(batches))
    ensures MergeAll(ids, current, batches) == current + Flatten(batches)
  {
    if batches == [] {
      assert current + Flatten(batches) == current;
    } else {
      var front, l := batches[..|batches| - 1], batches[|batches| - 1];
      var merged := current + Flatten(front);
      assert current + Flatten(batches) == merged + l.items;
      ApartConcat(ids, merged, l.items);
      MergeAllAppends(ids, current, front);
      UnseenKeepsAll(ids, IdsAll(ids, merged), l.items);
    }
  }

  // ---------------------------------------------------------------- the operations on the closure state

  function Snapshot<T>(p: Publication<T>, page: int, terminal: Option<Terminal>): SearchResult<T> {
    match terminal
    case Some(t) => SearchResult(p.published, t.intents, t.mediaTypes, t.page, t.hasMore, t.partial)
    case None =>
      match p.semantic
      case Some(m) => SearchResult(p.published, m.intents, m.mediaTypes, m.page, m.hasMore, m.partial)
      case None => SearchResult(p.published, [], [], page, false, false)
  }

  /** The comparison that suppresses a repeated update, field by field. */
  predicate SameResult<T(==)>(left: Option<SearchResult<T>>, right: SearchResult<T>) {
    && left.Some?
    && var l := left.value;
    && l.page == right.page && l.hasMore == right.hasMore && l.partial == right.partial
    && |l.items| == |right.items| && |l.intents| == |right.intents| && |l.mediaTypes| == |right.mediaTypes|
    && (forall i | 0 <= i < |l.items| :: l.items[i] == right.items[i])
    && (forall i | 0 <= i < |l.mediaTypes| :: l.mediaTypes[i] == right.mediaTypes[i])
    && (forall i | 0 <= i < |l.intents| ::
          && l.intents[i].id == right.intents[i].id && l.intents[i].kind == right.intents[i].kind
          && l.intents[i].value == right.intents[i].value && l.intents[i].caption == right.intents[i].caption)
  }

  lemma SameResultIsEquality<T(!new)>(left: SearchResult<T>, right: SearchResult<T>)
    ensures SameResult(Some(left), right) <==> left == right
  {
    if SameResult(Some(left), right) {
      assert left.items == right.items;
      assert left.mediaTypes == right.mediaTypes;
      assert left.intents == right.intents;
    }
  }

  ghost function Flush<T(!new)>(ids: T -> set<string>, p: Publication<T>, page: int, aborted: bool, terminal: Option<Terminal>): Publication<T> {
    var merged := p.(timer := false, published := MergeAll(ids, p.published, Sort(p.pending)), pending := []);
    var result := Snapshot(merged, page, terminal);
    if aborted || merged.published == [] || SameResult(merged.last, result) then merged
    else merged.(last := Some(result), updates := merged.updates + [result])
  }

  /** The items join the known identities and, as far as they are new, a batch of their own. */
  ghost function Queued<T(!new)>(ids: T -> set<string>, p: Publication<T>, items: seq<T>, order: nat, speculative: bool)
    : Publication<T>
  {
    p.(known := p.known + IdsAll(ids, items),
       arrived := p.arrived + items,
       pending := p.pending + [Batch(order, p.nextSequence, Unseen(ids, p.known, items), speculative)],
       nextSequence := p.nextSequence + 1)
  }

  ghost function Enqueue<T(!new)>(ids: T -> set<string>, p: Publication<T>, page: int, aborted: bool, items: seq<T>,
                                  order: nat, metadataChanged: bool, speculative: bool): Publication<T>
  {
    if Unseen(ids, p.known, items) == [] then
      p.(known := p.known + IdsAll(ids, items), arrived := p.arrived + items,
         timer := p.timer || (metadataChanged && p.last.Some?))
    else if p.last.None? then Flush(ids, Queued(ids, p, items, order, speculative), page, aborted, None)
    else Queued(ids, p, items, order, speculative).(timer := true)
  }

  function Kept<T>(batches: seq<Batch<T>>): seq<Batch<T>> {
    if batches == [] then []
    else
      Kept(batches[..|batches| - 1])
      + (if batches[|batches| - 1].speculative then [] else [batches[|batches| - 1]])
  }

  ghost function Discard<T(!new)>(ids: T -> set<string>, p: Publication<T>): Publication<T> {
    var kept := Kept(p.pending);
    p.(pending := kept,
       known := IdsAll(ids, p.published) + IdsAll(ids, Flatten(kept)),
       timer := p.timer && kept != [])
  }

  function Cancel<T>(p: Publication<T>): Publication<T> {
    p.(timer := false, pending := [])
  }

  // ---------------------------------------------------------------- what every operation keeps

  /** Every update extends the one before it and differs from it. */
  ghost predicate Growing<T(!new)>(updates: seq<SearchResult<T>>) {
    forall i | 0 <= i < |updates| - 1 ::
      updates[i].items <= updates[i + 1].items && updates[i] != updates[i + 1]
  }

  /** No two collected items share an identity, and every identity collected is known. */
  ghost predicate Collected<T(!new)>(ids: T -> set<string>, p: Publication<T>) {
    && Apart(ids, p.published + Flatten(p.pending))
    && IdsAll(ids, p.published + Flatten(p.pending)) <= p.known
    && DistinctSequences(p.pending)
    && (forall b | b in p.pending :: b.sequence < p.nextSequence)
  }

  /** The last update shows everything published, and the updates grow. */
  ghost predicate Told<T(!new)>(p: Publication<T>) {
    && (p.last.Some? ==> p.published != [] && p.last.value.items == p.published)
    && (p.last.None? ==> p.published == [])
    && (p.last.Some? <==> p.updates != [])
    && (p.updates != [] ==> p.last == Some(p.updates[|p.updates| - 1]))
    && Growing(p.updates)
  }

  ghost predicate Sound<T(!new)>(ids: T -> set<string>, p: Publication<T>) {
    && Collected(ids, p) && Told(p)
    && (p.pending != [] ==> p.timer)
    && (p.timer ==> p.last.Some?)
  }

  /** Published and pending items together are exactly the first sightings among all arrivals. */
  ghost predicate Represents<T(!new)>(ids: T -> set<string>, p: Publication<T>) {
    && p.known == IdsAll(ids, p.arrived)
    && multiset(p.published + Flatten(p.pending)) == multiset(Unseen(ids, {}, p.arrived))
  }

  /** `flush` appends exactly the pending items, in (order, sequence) order, and drops nothing. */
  lemma FlushAppends<T(!new)>(ids: T -> set<string>, p: Publication<T>, page: int, aborted: bool, terminal: Option<Terminal>)
    requires Apart(ids, p.published + Flatten(p.pending)) && DistinctSequences(p.pending)
    ensures var q := Flush(ids, p, page, aborted, terminal);
            && q.published == p.published + Flatten(Sort(p.pending))
            && Apart(ids, q.published)
            && IdsAll(ids, q.published) == IdsAll(ids, p.published + Flatten(p.pending))
            && multiset(q.published) == multiset(p.published + Flatten(p.pending))
    ensures Ordered(Sort(p.pending)) && multiset(Sort(p.pending)) == multiset(p.pending)
  {
    SortPermutes(p.pending);
    SortOrders(p.pending);
    ApartPermutation(ids, p.published + Flatten(p.pending), p.published + Flatten(Sort(p.pending)));
    MergeAllAppends(ids, p.published, Sort(p.pending));
  }

  lemma FlushSound<T(!new)>(ids: T -> set<string>, p: Publication<T>, page: int, terminal: Option<Terminal>)
    requires Collected(ids, p) && Told(p)
    ensures Sound(ids, Flush(ids, p, page, false, terminal))
    ensures var q := Flush(ids, p, page, false, terminal);
            q.published != [] ==> q.last == Some(Snapshot(q, page, terminal))
  {
    FlushAppends(ids, p, page, false, terminal);
    FlushTold(ids, p, page, terminal);
    var q := Flush(ids, p, page, false, terminal);
    assert q.published + Flatten(q.pending) == q.published;
  }

  lemma FlushTold<T(!new)>(ids: T -> set<string>, p: Publication<T>, page: int, terminal: Option<Terminal>)
    requires Told(p) && p.published <= Flush(ids, p, page, false, terminal).published
    ensures var q := Flush(ids, p, page, false, terminal);
            Told(q) && (q.published != [] ==> q.last == Some(Snapshot(q, page, terminal)))
  {
    var q := Flush(ids, p, page, false, terminal);
    UpdateTold(p, q.published, Snapshot(q, page, terminal));
  }

  /** Publishing a longer list keeps the ledger of updates. */
  lemma UpdateTold<T(!new)>(p: Publication<T>, items: seq<T>, result: SearchResult<T>)
    requires Told(p) && p.published <= items && result.items == items
    ensures p.last.Some? ==> (SameResult(p.last, result) <==> p.last.value == result)
    ensures items != [] && !SameResult(p.last, result) ==> Growing(p.updates + [result])
  {
    if p.last.Some? {
      SameResultIsEquality(p.last.value, result);
    }
  }

  lemma {:induction false} EnqueueSound<T(!new)>(ids: T -> set<string>, p: Publication<T>, page: int, items: seq<T>, order: nat,
                               metadataChanged: bool, speculative: bool)
    requires Sound(ids, p)
    ensures Sound(ids, Enqueue(ids, p, page, false, items, order, metadataChanged, speculative))
  {
    QueuedCollected(ids, p, items, order, speculative);
    if Unseen(ids, p.known, items) != [] && p.last.None? {
      FlushSound(ids, Queued(ids, p, items, order, speculative), page, None);
    }
  }

  lemma QueuedCollected<T(!new)>(ids: T -> set<string>, p: Publication<T>, items: seq<T>, order: nat, speculative: bool)
    requires Collected(ids, p)
    ensures Collected(ids, Queued(ids, p, items, order, speculative))
  {
    UnseenProperties(ids, p.known, items);
    BatchApart(ids, p.published, p.pending, Batch(order, p.nextSequence, Unseen(ids, p.known, items), speculative));
  }

  lemma BatchApart<T(!new)>(ids: T -> set<string>, published: seq<T>, pending: seq<Batch<T>>, b: Batch<T>)
    requires Apart(ids, published + Flatten(pending)) && Apart(ids, b.items)
    requires IdsAll(ids, published + Flatten(pending)) !! IdsAll(ids, b.items)
    ensures Apart(ids, published + Flatten(pending + [b]))
    ensures IdsAll(ids, published + Flatten(pending + [b]))
            == IdsAll(ids, published + Flatten(pending)) + IdsAll(ids, b.items)
  {
    FlattenSnoc(pending, b);
    assert published + Flatten(pending + [b]) == (published + Flatten(pending)) + b.items;
    ApartConcat(ids, published + Flatten(pending), b.items);
    IdsAllConcat(ids, published + Flatten(pending), b.items);
  }

  lemma {:induction false} KeptMember<T(!new)>(batches: seq<Batch<T>>, i: nat)
    requires i < |Kept(batches)|
    ensures !Kept(batches)[i].speculative && exists j :: i <= j < |batches| && batches[j] == Kept(batches)[i]
  {
    var front := batches[..|batches| - 1];
    if i < |Kept(front)| {
      KeptMember(front, i);
    } else {
      KeptShorter(front);
      assert batches[|batches| - 1] == Kept(batches)[i];
    }
  }

  lemma {:induction false} KeptShorter<T(!new)>(batches: seq<Batch<T>>)
    ensures |Kept(batches)| <= |batches|
  {
    if batches != [] {
      KeptShorter(batches[..|batches| - 1]);
    }
  }

  lemma {:induction false} KeptDistinct<T(!new)>(batches: seq<Batch<T>>)
    requires DistinctSequences(batches)
    ensures DistinctSequences(Kept(batches))
  {
    if batches != [] {
      var front := batches[..|batches| - 1];
      KeptDistinct(front);
      forall i | 0 <= i < |Kept(front)| ensures Kept(front)[i].sequence != batches[|batches| - 1].sequence {
        KeptMember(front, i);
      }
    }
  }

  lemma {:induction false} KeptApart<T(!new)>(ids: T -> set<string>, batches: seq<Batch<T>>)
    ensures Apart(ids, Flatten(batches)) ==> Apart(ids, Flatten(Kept(batches)))
    ensures IdsAll(ids, Flatten(Kept(batches))) <= IdsAll(ids, Flatten(batches))
  {
    if batches != [] {
      var front, l := batches[..|batches| - 1], batches[|batches| - 1];
      KeptApart(ids, front);
      ApartConcat(ids, Flatten(front), l.items);
      IdsAllConcat(ids, Flatten(front), l.items);
      assert Kept(front) + [] == Kept(front);
      if !l.speculative {
        FlattenSnoc(Kept(front), l);
        ApartConcat(ids, Flatten(Kept(front)), l.items);
        IdsAllConcat(ids, Flatten(Kept(front)), l.items);
      }
    }
  }

  lemma DiscardSound<T(!new)>(ids: T -> set<string>, p: Publication<T>)
    requires Sound(ids, p)
    ensures Sound(ids, Discard(ids, p))
  {
    KeptApart(ids, p.pending);
    KeptDistinct(p.pending);
    ApartConcat(ids, p.published, Flatten(p.pending));
    ApartConcat(ids, p.published, Flatten(Kept(p.pending)));
    IdsAllConcat(ids, p.published, Flatten(p.pending));
    IdsAllConcat(ids, p.published, Flatten(Kept(p.pending)));
    forall b | b in Kept(p.pending) ensures b.sequence < p.nextSequence {
      var i :| 0 <= i < |Kept(p.pending)| && Kept(p.pending)[i] == b;
      KeptMember(p.pending, i);
    }
    KeptShorter(p.pending);
  }

  lemma CancelSound<T(!new)>(ids: T -> set<string>, p: Publication<T>)
    requires Sound(ids, p)
    ensures Sound(ids, Cancel(p))
  {
    ApartConcat(ids, p.published, Flatten(p.pending));
    IdsAllConcat(ids, p.published, Flatten(p.pending));
    assert p.published + Flatten([]) == p.published;
  }

  /** While nothing is discarded, every arrival stays represented by its first sighting. */
  lemma {:induction false} EnqueueRepresents<T(!new)>(ids: T -> set<string>, p: Publication<T>, page: int, items: seq<T>, order: nat,
                                    metadataChanged: bool, speculative: bool)
    requires Sound(ids, p) && Represents(ids, p)
    ensures Represents(ids, Enqueue(ids, p, page, false, items, order, metadataChanged, speculative))
  {
    QueuedRepresents(ids, p, items, order, speculative);
    if Unseen(ids, p.known, items) != [] && p.last.None? {
      QueuedCollected(ids, p, items, order, speculative);
      FlushRepresents(ids, Queued(ids, p, items, order, speculative), page, None);
    }
  }

  lemma QueuedRepresents<T(!new)>(ids: T -> set<string>, p: Publication<T>, items: seq<T>, order: nat, speculative: bool)
    requires Represents(ids, p)
    ensures Represents(ids, Queued(ids, p, items, order, speculative))
    ensures Unseen(ids, p.known, items) == [] ==>
              multiset(p.published + Flatten(p.pending)) == multiset(Unseen(ids, {}, p.arrived + items))
  {
    var unique := Unseen(ids, p.known, items);
    UnseenConcat(ids, {}, p.arrived, items);
    IdsAllConcat(ids, p.arrived, items);
    assert {} + IdsAll(ids, p.arrived) == p.known;
    FlattenSnoc(p.pending, Batch(order, p.nextSequence, unique, speculative));
    assert p.published + (Flatten(p.pending) + unique) == (p.published + Flatten(p.pending)) + unique;
  }

  lemma FlushRepresents<T(!new)>(ids: T -> set<string>, p: Publication<T>, page: int, terminal: Option<Terminal>)
    requires Apart(ids, p.published + Flatten(p.pending)) && DistinctSequences(p.pending) && Represents(ids, p)
    ensures Represents(ids, Flush(ids, p, page, false, terminal))
  {
    FlushAppends(ids, p, page, false, terminal);
    var q := Flush(ids, p, page, false, terminal);
    assert q.published + Flatten(q.pending) == q.published;
  }

  // ---------------------------------------------------------------- what discarding the speculation leaves

  lemma KeptSnoc<T(!new)>(batches: seq<Batch<T>>, b: Batch<T>)
    requires !b.speculative
    ensures Flatten(Kept(batches + [b])) == Flatten(Kept(batches)) + b.items
  {
    assert (batches + [b])[..|batches|] == batches;
    FlattenSnoc(Kept(batches), b);
  }

  lemma OneBatch<T(!new)>(b: Batch<T>)
    ensures [] + Flatten([b]) == b.items
  {
    FlattenSnoc([], b);
    assert [] + [b] == [b];
  }

  lemma FlushedFirst<T(!new)>(ids: T -> set<string>, p: Publication<T>, page: int, b: Batch<T>)
    requires p.published == [] && p.pending == [b] && Apart(ids, [] + Flatten([b])) && DistinctSequences([b])
    ensures var q := Flush(ids, p, page, false, None);
            q.pending == [] && multiset(q.published) == multiset(b.items)
  {
    FlushAppends(ids, p, page, false, None);
    OneBatch(b);
  }

  lemma FirstArrivalStays<T(!new)>(ids: T -> set<string>, p: Publication<T>, page: int, items: seq<T>, order: nat)
    requires Collected(ids, p) && p.published == [] && p.pending == []
    ensures var q := Flush(ids, Queued(ids, p, items, order, false), page, false, None);
            q.pending == [] && multiset(q.published) == multiset(Unseen(ids, p.known, items))
  {
    var b := Batch(order, p.nextSequence, Unseen(ids, p.known, items), false);
    QueuedCollected(ids, p, items, order, false);
    assert [] + [b] == [b];
    FlushedFirst(ids, Queued(ids, p, items, order, false), page, b);
  }

  /** The items that stay when the speculation is thrown away. */
  function Staying<T>(p: Publication<T>): seq<T> {
    p.published + Flatten(Kept(p.pending))
  }

  lemma FirstArrival<T(!new)>(ids: T -> set<string>, p: Publication<T>, page: int, items: seq<T>, order: nat)
    requires Collected(ids, p) && p.published == [] && p.pending == [] && p.last.None? && Unseen(ids, p.known, items) != []
    ensures multiset(Staying(Enqueue(ids, p, page, false, items, order, true, false)))
            == multiset(Staying(p) + Unseen(ids, p.known, items))
  {
    FirstArrivalStays(ids, p, page, items, order);
    var q := Flush(ids, Queued(ids, p, items, order, false), page, false, None);
    assert Staying(q) == q.published;
    assert Staying(p) + Unseen(ids, p.known, items) == Unseen(ids, p.known, items);
  }

  lemma LaterArrival<T(!new)>(ids: T -> set<string>, p: Publication<T>, page: int, items: seq<T>, order: nat)
    requires p.last.Some? || Unseen(ids, p.known, items) == []
    ensures Staying(Enqueue(ids, p, page, false, items, order, true, false)) == Staying(p) + Unseen(ids, p.known, items)
  {
    var unique, kept := Unseen(ids, p.known, items), Flatten(Kept(p.pending));
    var q := Enqueue(ids, p, page, false, items, order, true, false);
    if unique == [] {
      assert q.published == p.published && q.pending == p.pending;
      assert Staying(p) + unique == Staying(p);
    } else {
      var b := Batch(order, p.nextSequence, unique, false);
      assert q.published == p.published && q.pending == p.pending + [b];
      KeptSnoc(p.pending, b);
      AppendThrice(p.published, kept, unique);
    }
  }

  lemma AppendThrice<T>(a: seq<T>, b: seq<T>, c: seq<T>)
    ensures a + (b + c) == a + b + c
  {
  }

  /** Items that arrive just before the speculation is thrown away stay exactly as far as they were new against
      everything known at that moment, the speculation that is thrown away included. */
  lemma {:induction false} DiscardAfterArrival<T(!new)>(ids: T -> set<string>, p: Publication<T>, page: int, items: seq<T>, order: nat)
    requires Sound(ids, p)
    ensures var q := Discard(ids, Enqueue(ids, p, page, false, items, order, true, false));
            multiset(q.published + Flatten(q.pending)) == multiset(Staying(p) + Unseen(ids, p.known, items))
  {
    DiscardKeepsStaying(ids, Enqueue(ids, p, page, false, items, order, true, false));
    if p.last.Some? || Unseen(ids, p.known, items) == [] {
      LaterArrival(ids, p, page, items, order);
    } else {
      FirstArrival(ids, p, page, items, order);
    }
  }

  lemma DiscardKeepsStaying<T(!new)>(ids: T -> set<string>, p: Publication<T>)
    ensures Discard(ids, p).published + Flatten(Discard(ids, p).pending) == Staying(p)
  {
  }
}
