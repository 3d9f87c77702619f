/** Lists whose elements carry sets of identities, and the removal of duplicates from them. */
module Dedup {

  ghost function IdsAll<T(!new)>(ids: T -> set<string>, items: seq<T>): set<string> {
    if items == [] then {} else IdsAll(ids, items[..|items| - 1]) + ids(items[|items| - 1])
  }

  /** No two items share an identity. */
  ghost predicate Apart<T(!new)>(ids: T -> set<string>, items: seq<T>) {
    items == [] || (Apart(ids, items[..|items| - 1]) && ids(items[|items| - 1]) !! IdsAll(ids, items[..|items| - 1]))
  }

  /** The items that share no identity with `known` nor with an earlier item. */
  ghost function Unseen<T(!new)>(ids: T -> set<string>, known: set<string>, items: seq<T>): seq<T> {
    if items == [] then []
    else
      var front, x := items[..|items| - 1], items[|items| - 1];
      Unseen(ids, known, front) + (if ids(x) !! known + IdsAll(ids, front) then [x] else [])
  }

  lemma Snoc<T>(s: seq<T>)
    requires s != []
    ensures s == s[..|s| - 1] + [s[|s| - 1]]
    ensures multiset(s) == multiset(s[..|s| - 1]) + multiset{s[|s| - 1]}
  {
    assert s == s[..|s| - 1] + [s[|s| - 1]];
  }

  lemma {:induction false} IdsAllConcat<T(!new)>(ids: T -> set<string>, a: seq<T>, b: seq<T>)
    ensures IdsAll(ids, a + b) == IdsAll(ids, a) + IdsAll(ids, b)
  {
    if b == [] {
      assert a + b == a;
    } else {
      var front := b[..|b| - 1];
      assert (a + b)[..|a + b| - 1] == a + front;
      IdsAllConcat(ids, a, front);
    }
  }

  lemma {:induction false} ApartConcat<T(!new)>(ids: T -> set<string>, a: seq<T>, b: seq<T>)
    ensures Apart(ids, a + b) <==> Apart(ids, a) && Apart(ids, b) && IdsAll(ids, a) !! IdsAll(ids, b)
  {
    if b == [] {
      assert a + b == a;
    } else {
      var front := b[..|b| - 1];
      assert (a + b)[..|a + b| - 1] == a + front;
      ApartConcat(ids, a, front);
      IdsAllConcat(ids, a, front);
    }
  }

  lemma {:induction false} IdsAllContains<T(!new)>(ids: T -> set<string>, items: seq<T>, i: nat)
    requires i < |items|
    ensures ids(items[i]) <= IdsAll(ids, items)
  {
    if i < |items| - 1 {
      IdsAllContains(ids, items[..|items| - 1], i);
    }
  }

  lemma {:induction false} ApartPair<T(!new)>(ids: T -> set<string>, items: seq<T>, i: nat, j: nat)
    requires Apart(ids, items) && i < j < |items|
    ensures ids(items[i]) !! ids(items[j])
  {
    if j == |items| - 1 {
      IdsAllContains(ids, items[..j], i);
    } else {
      ApartPair(ids, items[..|items| - 1], i, j);
    }
  }

  /** Taking one element out of a list. */
  lemma Without<T(!new)>(ids: T -> set<string>, a: seq<T>, i: nat)
    requires i < |a|
    ensures var rest := a[..i] + a[i + 1..];
            && multiset(rest) == multiset(a) - multiset{a[i]}
            && IdsAll(ids, a) == IdsAll(ids, rest) + ids(a[i])
            && (Apart(ids, a) ==> Apart(ids, rest) && ids(a[i]) !! IdsAll(ids, rest))
  {
    var left, x, right := a[..i], [a[i]], a[i + 1..];
    assert a == left + (x + right);
    assert IdsAll(ids, x) == ids(a[i]);
    IdsAllConcat(ids, left, right);
    IdsAllConcat(ids, x, right);
    IdsAllConcat(ids, left, x + right);
    ApartConcat(ids, left, right);
    ApartConcat(ids, x, right);
    ApartConcat(ids, left, x + right);
    assert multiset(a) == multiset(left) + multiset(x) + multiset(right);
  }

  /** Being apart does not depend on the order of a list. */
  lemma {:induction false} ApartPermutation<T(!new)>(ids: T -> set<string>, a: seq<T>, b: seq<T>)
    requires multiset(a) == multiset(b)
    ensures IdsAll(ids, a) == IdsAll(ids, b)
    ensures Apart(ids, a) ==> Apart(ids, b)
  {
    if b == [] {
      assert |multiset(a)| == 0;
    } else {
      Snoc(b);
      assert b[|b| - 1] in multiset(a);
      var i :| 0 <= i < |a| && a[i] == b[|b| - 1];
      Without(ids, a, i);
      ApartPermutation(ids, a[..i] + a[i + 1..], b[..|b| - 1]);
    }
  }

  lemma {:induction false} UnseenProperties<T(!new)>(ids: T -> set<string>, known: set<string>, items: seq<T>)
    ensures IdsAll(ids, Unseen(ids, known, items)) <= IdsAll(ids, items)
    ensures IdsAll(ids, Unseen(ids, known, items)) !! known
    ensures Apart(ids, Unseen(ids, known, items))
  {
    if items != [] {
      var front, x := items[..|items| - 1], items[|items| - 1];
      UnseenProperties(ids, known, front);
      var kept := Unseen(ids, known, front);
      assert kept + [] == kept;
      assert (kept + [x])[..|kept|] == kept;
    }
  }

  lemma {:induction false} UnseenKeepsAll<T(!new)>(ids: T -> set<string>, known: set<string>, items: seq<T>)
    requires Apart(ids, items) && IdsAll(ids, items) !! known
    ensures Unseen(ids, known, items) == items
  {
    if items != [] {
      Snoc(items);
      UnseenKeepsAll(ids, known, items[..|items| - 1]);
    }
  }

  lemma {:induction false} UnseenConcat<T(!new)>(ids: T -> set<string>, known: set<string>, a: seq<T>, b: seq<T>)
    ensures Unseen(ids, known, a + b) == Unseen(ids, known, a) + Unseen(ids, known + IdsAll(ids, a), b)
  {
    if b == [] {
      assert a + b == a;
    } else {
      var front := b[..|b| - 1];
      assert (a + b)[..|a + b| - 1] == a + front;
      UnseenConcat(ids, known, a, front);
      IdsAllConcat(ids, a, front);
      assert known + (IdsAll(ids, a) + IdsAll(ids, front)) == known + IdsAll(ids, a) + IdsAll(ids, front);
    }
  }

  // ---------------------------------------------------------------- first sightings

  /** Position `k` shares no identity with any earlier position. */
  ghost predicate FirstSighting<T(!new)>(ids: T -> set<string>, items: seq<T>, k: nat)
    requires k < |items|
  {
    forall j | 0 <= j < k :: ids(items[j]) !! ids(items[k])
  }

  /** The positions that are first sightings, in order. */
  ghost function Sightings<T(!new)>(ids: T -> set<string>, items: seq<T>): (r: seq<nat>)
    ensures forall i | 0 <= i < |r| :: r[i] < |items|
  {
    if items == [] then []
    else
      Sightings(ids, items[..|items| - 1])
      + (if FirstSighting(ids, items, |items| - 1) then [|items| - 1] else [])
  }

  lemma {:induction false} SightingsExact<T(!new)>(ids: T -> set<string>, items: seq<T>, k: nat)
    requires k < |items|
    ensures k in Sightings(ids, items) <==> FirstSighting(ids, items, k)
  {
    if k < |items| - 1 {
      var front := items[..|items| - 1];
      SightingsExact(ids, front, k);
      assert FirstSighting(ids, items, k) <==> FirstSighting(ids, front, k) by {
        assert forall j | 0 <= j <= k :: items[j] == front[j];
      }
    }
  }

  lemma {:induction false} IdsAllMeets<T(!new)>(ids: T -> set<string>, items: seq<T>, s: set<string>)
    ensures s !! IdsAll(ids, items) <==> forall j | 0 <= j < |items| :: ids(items[j]) !! s
  {
    if items != [] {
      IdsAllMeets(ids, items[..|items| - 1], s);
      var front := items[..|items| - 1];
      assert (forall j | 0 <= j < |items| :: ids(items[j]) !! s)
        <==> (forall j | 0 <= j < |front| :: ids(front[j]) !! s) && ids(items[|items| - 1]) !! s;
    }
  }

  function Select<T>(items: seq<T>, at: seq<nat>): seq<T>
    requires forall i | 0 <= i < |at| :: at[i] < |items|
  {
    seq(|at|, i requires 0 <= i < |at| => items[at[i]])
  }

  /** Filtering against everything seen so far keeps exactly the first sightings, in their order. */
  lemma {:induction false} UnseenIsSightings<T(!new)>(ids: T -> set<string>, items: seq<T>)
    ensures Unseen(ids, {}, items) == Select(items, Sightings(ids, items))
  {
    if items != [] {
      var front, x := items[..|items| - 1], items[|items| - 1];
      UnseenIsSightings(ids, front);
      IdsAllMeets(ids, front, ids(x));
      assert {} + IdsAll(ids, front) == IdsAll(ids, front);
      assert FirstSighting(ids, items, |front|) <==> ids(x) !! IdsAll(ids, front) by {
        assert forall j | 0 <= j < |front| :: items[j] == front[j];
      }
      assert Select(items, Sightings(ids, front)) == Select(front, Sightings(ids, front));
    }
  }

  /** `path` leads from position `k` back to a first sighting, each step sharing an identity with the next. */
  ghost predicate LeadsToSighting<T(!new)>(ids: T -> set<string>, items: seq<T>, k: nat, path: seq<nat>) {
    && path != [] && path[0] == k
    && (forall i | 0 <= i < |path| :: path[i] < |items|)
    && (forall i | 0 <= i < |path| - 1 :: path[i + 1] < path[i] && !(ids(items[path[i + 1]]) !! ids(items[path[i]])))
    && FirstSighting(ids, items, path[|path| - 1])
  }

  lemma {:induction false} LinkedToSighting<T(!new)>(ids: T -> set<string>, items: seq<T>, k: nat) returns (path: seq<nat>)
    requires k < |items|
    ensures LeadsToSighting(ids, items, k, path)
  {
    if FirstSighting(ids, items, k) {
      path := [k];
    } else {
      var j :| 0 <= j < k && !(ids(items[j]) !! ids(items[k]));
      var rest := LinkedToSighting(ids, items, j);
      path := [k] + rest;
    }
  }
}
