/** The closures of `performViewerSearch` and `searchAddons`, updating their state in place. */
module SearchClosure {
  import opened Prelude
  import opened Dedup
  import opened SearchPublication
  import P = SearchPublication
  import opened AddonPool
  import A = AddonPool

  method Remember<T(==,!new)>(ids: T -> set<string>, known: set<string>, items: seq<T>) returns (r: set<string>)
    ensures r == known + IdsAll(ids, items)
  {
    r := known;
    for i := 0 to |items|
      invariant r == known + IdsAll(ids, items[..i])
    {
      r := r + ids(items[i]);
      assert items[..i + 1][..i] == items[..i];
    }
    assert items[..|items|] == items;
  }

  lemma UnseenNext<T(!new)>(ids: T -> set<string>, known: set<string>, items: seq<T>, i: nat)
    requires i < |items|
    ensures IdsAll(ids, items[..i + 1]) == IdsAll(ids, items[..i]) + ids(items[i])
    ensures Unseen(ids, known, items[..i + 1])
            == if ids(items[i]) * (known + IdsAll(ids, items[..i])) == {} then Unseen(ids, known, items[..i]) + [items[i]]
               else Unseen(ids, known, items[..i])
  {
    var front, x := items[..i], items[i];
    assert items[..i + 1][..i] == front;
    DisjointIsEmpty(ids(x), known + IdsAll(ids, front));
    assert Unseen(ids, known, items[..i + 1])
        == Unseen(ids, known, front) + (if ids(x) !! known + IdsAll(ids, front) then [x] else []);
  }

  lemma DisjointIsEmpty(a: set<string>, b: set<string>)
    ensures a !! b <==> a * b == {}
  {
    if a * b == {} {
      assert forall x | x in a && x in b :: x in a * b;
    }
  }

  /** The filter shared by `enqueue` and `mergeViewerSearchItems`. */
  method Filter<T(==,!new)>(ids: T -> set<string>, known: set<string>, items: seq<T>) returns (unique: seq<T>, learned: set<string>)
    ensures unique == Unseen(ids, known, items)
    ensures learned == known + IdsAll(ids, items)
  {
    unique, learned := [], known;
    for i := 0 to |items|
      invariant unique == Unseen(ids, known, items[..i])
      invariant learned == known + IdsAll(ids, items[..i])
    {
      var duplicate := ids(items[i]) * learned != {};
      learned := learned + ids(items[i]);
      if !duplicate {
        unique := unique + [items[i]];
      }
      UnseenNext(ids, known, items, i);
    }
    assert items[..|items|] == items;
  }

  method MergeViewerSearchItems<T(==,!new)>(ids: T -> set<string>, current: seq<T>, incoming: seq<T>) returns (merged: seq<T>)
    ensures merged == Merge(ids, current, incoming)
  {
    var seen := Remember(ids, {}, current);
    assert {} + IdsAll(ids, current) == IdsAll(ids, current);
    var added;
    added, seen := Filter(ids, seen, incoming);
    merged := current + added;
  }

  lemma {:induction false} KeptConcat<T(!new)>(a: seq<Batch<T>>, b: seq<Batch<T>>)
    ensures Kept(a + b) == Kept(a) + Kept(b)
  {
    if b == [] {
      assert a + b == a;
    } else {
      assert (a + b)[..|a + b| - 1] == a + b[..|b| - 1];
      KeptConcat(a, b[..|b| - 1]);
    }
  }

  method MergeBatches<T(==,!new)>(ids: T -> set<string>, current: seq<T>, batches: seq<Batch<T>>) returns (merged: seq<T>)
    ensures merged == MergeAll(ids, current, batches)
  {
    merged := current;
    for i := 0 to |batches|
      invariant merged == MergeAll(ids, current, batches[..i])
    {
      merged := MergeViewerSearchItems(ids, merged, batches[i].items);
      assert batches[..i + 1][..i] == batches[..i];
    }
    assert batches[..|batches|] == batches;
  }

  /** Splices the speculative batches out, from the end. */
  method DropSpeculative<T(!new)>(batches: seq<Batch<T>>) returns (kept: seq<Batch<T>>)
    ensures kept == Kept(batches)
  {
    kept := batches;
    var index := |batches|;
    assert kept == batches[..index] + Kept(batches[index..]);
    while index > 0
      invariant 0 <= index <= |batches|
      invariant kept == batches[..index] + Kept(batches[index..])
    {
      index := index - 1;
      KeptConcat([batches[index]], batches[index + 1..]);
      assert batches[index..] == [batches[index]] + batches[index + 1..];
      assert [batches[index]][..0] == [];
      if kept[index].speculative {
        kept := kept[..index] + kept[index + 1..];
      }
    }
    assert batches[0..] == batches;
  }

  method RememberBatches<T(==,!new)>(ids: T -> set<string>, known: set<string>, batches: seq<Batch<T>>) returns (r: set<string>)
    ensures r == known + IdsAll(ids, Flatten(batches))
  {
    r := known;
    for i := 0 to |batches|
      invariant r == known + IdsAll(ids, Flatten(batches[..i]))
    {
      assert batches[..i + 1][..i] == batches[..i];
      IdsAllConcat(ids, Flatten(batches[..i]), batches[i].items);
      r := Remember(ids, r, batches[i].items);
    }
    assert batches[..|batches|] == batches;
  }

  /** The variables that the closures of one search share. */
  class Publisher<T(==,!new)> {
    /** The identities of an item. */
    const ids: T -> set<string>
    const page: int
    var published: seq<T>
    var semantic: Option<SemanticPage<T>>
    var last: Option<SearchResult<T>>
    var timer: bool
    var nextSequence: nat
    var known: set<string>
    var pending: seq<Batch<T>>
    var updates: seq<SearchResult<T>>
    ghost var arrived: seq<T>

    ghost function View(): Publication<T>
      reads this
    {
      Publication(published, semantic, last, timer, nextSequence, known, pending, updates, arrived)
    }

    constructor (ids: T -> set<string>, page: int)
      ensures View() == Empty() && this.ids == ids && this.page == page
    {
      this.ids := ids;
      this.page := page;
      published, semantic, last, timer, nextSequence := [], None, None, false, 0;
      known, pending, updates, arrived := {}, [], [], [];
    }

    method Flush(aborted: bool, terminal: Option<Terminal>)
      modifies this
      ensures View() == P.Flush(ids, old(View()), page, aborted, terminal)
    {
      timer := false;
      pending := Sort(pending);
      published := MergeBatches(ids, published, pending);
      pending := [];
      if aborted || |published| == 0 {
        return;
      }
      var result := TakeSnapshot(terminal);
      if SameResult(last, result) {
        return;
      }
      last := Some(result);
      updates := updates + [result];
    }

    method TakeSnapshot(terminal: Option<Terminal>) returns (r: SearchResult<T>)
      ensures r == Snapshot(View(), page, terminal)
    {
      if terminal.Some? {
        var t := terminal.value;
        r := SearchResult(published, t.intents, t.mediaTypes, t.page, t.hasMore, t.partial);
      } else if semantic.Some? {
        var m := semantic.value;
        r := SearchResult(published, m.intents, m.mediaTypes, m.page, m.hasMore, m.partial);
      } else {
        r := SearchResult(published, [], [], page, false, false);
      }
    }

    method Enqueue(items: seq<T>, order: nat, metadataChanged: bool, speculative: bool, aborted: bool)
      modifies this
      ensures View() == P.Enqueue(ids, old(View()), page, aborted, items, order, metadataChanged, speculative)
    {
      var unique;
      unique, known := Filter(ids, known, items);
      arrived := arrived + items;
      if |unique| > 0 {
        pending := pending + [Batch(order, nextSequence, unique, speculative)];
        nextSequence := nextSequence + 1;
        assert View() == Queued(ids, old(View()), items, order, speculative);
      }
      if |unique| == 0 && !metadataChanged {
        return;
      }
      if last.None? && |unique| > 0 {
        Flush(aborted, None);
        return;
      }
      if last.Some? && !timer {
        timer := true;
      }
    }

    method CancelUpdates()
      modifies this
      ensures View() == Cancel(old(View()))
    {
      timer := false;
      pending := [];
    }

    method DiscardPendingSpeculation()
      modifies this
      ensures View() == Discard(ids, old(View()))
    {
      pending := DropSpeculative(pending);
      known := Remember(ids, {}, published);
      assert {} + IdsAll(ids, published) == IdsAll(ids, published);
      known := RememberBatches(ids, known, pending);
      if |pending| == 0 {
        timer := false;
      }
    }
  }

  class AddonBudget {
    var remaining: nat
    var truncated: bool

    constructor ()
      ensures remaining == MAX_CALLS && !truncated
    {
      remaining, truncated := MAX_CALLS, false;
    }

    ghost function View(): Budget
      reads this
    {
      Budget(remaining, truncated)
    }
  }

  /** One running `searchAddons`: the slots, the shared next index and the abort signal of its workers. */
  class Workers<T> {
    const types: seq<string>
    const query: string
    const outcomes: array<Option<Outcome<T>>>
    var nextIndex: nat
    var inFlight: set<nat>
    var aborted: bool
    ghost var dispatched: seq<nat>

    ghost function View(): Pool<T>
      reads this, outcomes
    {
      Pool(types, query, nextIndex, inFlight, outcomes[..], aborted, dispatched)
    }

    constructor (types: seq<string>, query: string, budget: AddonBudget)
      modifies budget
      ensures fresh(outcomes)
      ensures View() == Launch(types, query, old(budget.View()))
      ensures budget.View() == Reserve(types, old(budget.View()))
    {
      var callCount := Min(|types|, budget.remaining);
      if callCount < |types| {
        budget.truncated := true;
      }
      budget.remaining := budget.remaining - callCount;
      this.types, this.query := types, query;
      outcomes := new Option<Outcome<T>>[callCount](_ => None);
      nextIndex, inFlight, aborted, dispatched := 0, {}, false, [];
      new;
      ghost var empty := Unstarted<T>(types, query, callCount);
      assert outcomes[..] == seq(callCount, _ => None);
      var workers := Min(MAX_CONCURRENCY, callCount);
      for w := 0 to workers
        invariant View() == DispatchAll(empty, w)
        invariant budget.View() == Reserve(types, old(budget.View()))
      {
        Turn();
      }
    }

    /** The head of a worker's loop. */
    method Turn()
      modifies this
      ensures View() == Dispatch(old(View()))
    {
      if nextIndex < outcomes.Length && !aborted {
        inFlight, dispatched := inFlight + {nextIndex}, dispatched + [nextIndex];
        nextIndex := nextIndex + 1;
      }
    }

    /** A call settles; `notify` tells whether its outcome is handed on. */
    method Settle(index: nat, outcome: Outcome<T>) returns (notify: bool)
      requires index < outcomes.Length
      modifies this, outcomes
      ensures View() == A.Reply(old(View()), index, outcome)
      ensures notify <==> !old(aborted)
    {
      inFlight := inFlight - {index};
      outcomes[index] := Some(outcome);
      notify := !aborted;
      assert outcomes[..] == old(outcomes[..])[index := Some(outcome)];
      Turn();
    }
  }
}
