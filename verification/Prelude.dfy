/** Values and string operations shared by the models. */
module Prelude {

  datatype Option<+T> = None | Some(value: T) {
    function GetOr(default: T): T {
      if Some? then value else default
    }
  }

  /** The insertion-ordered set of JavaScript: the first occurrence of each element. */
  function Distinct<T(==,!new)>(s: seq<T>): (r: seq<T>)
    ensures forall x :: x in r <==> x in s
    ensures NoRepeats(r)
  {
    if s == [] then []
    else
      var front := Distinct(s[..|s| - 1]);
      assert s == s[..|s| - 1] + [s[|s| - 1]];
      if s[|s| - 1] in front then front else front + [s[|s| - 1]]
  }

  predicate NoRepeats<T(==)>(s: seq<T>) {
    forall i, j | 0 <= i < j < |s| :: s[i] != s[j]
  }

  /** One `Set.add`. */
  function Add<T(==)>(s: seq<T>, x: T): seq<T> {
    if x in s then s else s + [x]
  }

  lemma {:induction false} DistinctKeepsFirst<T(!new)>(s: seq<T>)
    requires s != []
    ensures Distinct(s) != [] && Distinct(s)[0] == s[0]
  {
    if |s| > 1 {
      DistinctKeepsFirst(s[..|s| - 1]);
    }
  }

  lemma DistinctSnoc<T(!new)>(s: seq<T>, x: T)
    ensures Distinct(s + [x]) == Add(Distinct(s), x)
  {
    assert (s + [x])[..|s|] == s;
  }
}

/** The string operations of JavaScript that the clients rely on. */
module Text {

  /** White space and line terminators, as `String.prototype.trim` removes them. */
  predicate IsSpace(c: char) {
    var n := c as int;
    || 9 <= n <= 13 || n == 32 || n == 0xA0 || n == 0x1680 || 0x2000 <= n <= 0x200A
    || n == 0x2028 || n == 0x2029 || n == 0x202F || n == 0x205F || n == 0x3000 || n == 0xFEFF
  }

  predicate IsLineTerminator(c: char) {
    var n := c as int;
    n == 10 || n == 13 || n == 0x2028 || n == 0x2029
  }

  predicate IsDigit(c: char) {
    '0' <= c <= '9'
  }

  function TrimStart(s: string): string {
    if s != [] && IsSpace(s[0]) then TrimStart(s[1..]) else s
  }

  function TrimEnd(s: string): string {
    if s != [] && IsSpace(s[|s| - 1]) then TrimEnd(s[..|s| - 1]) else s
  }

  function Trim(s: string): string {
    TrimEnd(TrimStart(s))
  }

  function LowerChar(c: char): char {
    if 'A' <= c <= 'Z' then (c as int + 32) as char else c
  }

  function Lower(s: string): string {
    seq(|s|, i requires 0 <= i < |s| => LowerChar(s[i]))
  }

  predicate AllDigits(s: string) {
    forall i | 0 <= i < |s| :: IsDigit(s[i])
  }

  /** The pattern `^tt\d+$`, ignoring case. */
  predicate IsImdbTitle(s: string) {
    |s| >= 3 && Lower(s[..2]) == "tt" && AllDigits(s[2..])
  }

  lemma TrimmedEnds(s: string)
    ensures Trim(s) != "" ==> !IsSpace(Trim(s)[0]) && !IsSpace(Trim(s)[|Trim(s)| - 1])
  {
    TrimStartEnds(s);
    TrimEndEnds(TrimStart(s));
  }

  lemma {:induction false} TrimStartEnds(s: string)
    ensures TrimStart(s) != "" ==> !IsSpace(TrimStart(s)[0])
  {
    if s != "" && IsSpace(s[0]) {
      TrimStartEnds(s[1..]);
    }
  }

  lemma {:induction false} TrimEndEnds(s: string)
    ensures TrimEnd(s) <= s
    ensures TrimEnd(s) != "" ==> !IsSpace(TrimEnd(s)[|TrimEnd(s)| - 1])
  {
    if s != "" && IsSpace(s[|s| - 1]) {
      TrimEndEnds(s[..|s| - 1]);
    }
  }

  /** A text without white space at its ends is trimmed, and so a trimmed text stays as it is. */
  lemma TrimmedStays(s: string)
    requires s != "" ==> !IsSpace(s[0]) && !IsSpace(s[|s| - 1])
    ensures Trim(s) == s
  {
  }

  // ---------------------------------------------------------------- texts joined by a mark

  predicate Without(mark: char, s: string) {
    forall i | 0 <= i < |s| :: s[i] != mark
  }

  function Before(mark: char, s: string): string {
    if s == "" || s[0] == mark then "" else [s[0]] + Before(mark, s[1..])
  }

  lemma {:induction false} BeforeOf(mark: char, a: string, x: string)
    requires Without(mark, a)
    ensures Before(mark, a + [mark] + x) == a
  {
    var s := a + [mark] + x;
    if a != "" {
      assert s[1..] == a[1..] + [mark] + x;
      BeforeOf(mark, a[1..], x);
    }
  }

  /** What stands before the first mark, and after it, is determined. */
  lemma SplitAtMark(mark: char, a: string, x: string, b: string, y: string)
    requires Without(mark, a) && Without(mark, b) && a + [mark] + x == b + [mark] + y
    ensures a == b && x == y
  {
    BeforeOf(mark, a, x);
    BeforeOf(mark, b, y);
    assert x == (a + [mark] + x)[|a| + 1..] && y == (b + [mark] + y)[|b| + 1..];
  }
}
