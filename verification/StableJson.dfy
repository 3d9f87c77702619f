/** The canonical text of a JSON value, which decides whether a cached Home still belongs to the same collections. */
module StableJson {
  import opened Prelude
  import opened UniqueJson

  // ---------------------------------------------------------------- ordering keys

  /** The default order of `Array.prototype.sort` on strings. */
  predicate Less(a: string, b: string) {
    b != [] && (a == [] || a[0] < b[0] || (a[0] == b[0] && Less(a[1..], b[1..])))
  }

  lemma {:induction false} LessTotal(a: string, b: string)
    ensures (Less(a, b) || Less(b, a) || a == b) && !(Less(a, b) && Less(b, a)) && !Less(a, a)
  {
    if a != [] {
      LessTotal(a[1..], a[1..]);
      if b != [] {
        LessTotal(a[1..], b[1..]);
        assert a == [a[0]] + a[1..] && b == [b[0]] + b[1..];
      }
    }
  }

  lemma {:induction false} LessTransitive(a: string, b: string, c: string)
    requires Less(a, b) && Less(b, c)
    ensures Less(a, c)
  {
    if a != [] && a[0] == b[0] == c[0] {
      LessTransitive(a[1..], b[1..], c[1..]);
    }
  }

  function InsertKey(keys: seq<string>, k: string): seq<string> {
    if keys == [] then [k]
    else if Less(keys[0], k) then [keys[0]] + InsertKey(keys[1..], k)
    else [k] + keys
  }

  function SortKeys(keys: seq<string>): seq<string> {
    if keys == [] then [] else InsertKey(SortKeys(keys[1..]), keys[0])
  }

  ghost predicate Ascending(keys: seq<string>) {
    forall i, j | 0 <= i < j < |keys| :: Less(keys[i], keys[j])
  }

  lemma {:induction false} InsertKeyAscending(keys: seq<string>, k: string)
    requires Ascending(keys) && k !in keys
    ensures Ascending(InsertKey(keys, k))
    ensures forall x :: x in InsertKey(keys, k) <==> x in keys || x == k
  {
    if keys != [] {
      LessTotal(keys[0], k);
      if Less(keys[0], k) {
        InsertKeyAscending(keys[1..], k);
        var r := InsertKey(keys[1..], k);
        forall i | 0 <= i < |r| ensures Less(keys[0], r[i]) {
          assert r[i] in r;
          if r[i] != k {
            var j :| 0 <= j < |keys[1..]| && keys[1..][j] == r[i];
            assert keys[j + 1] == r[i];
          }
        }
      } else {
        forall j | 0 <= j < |keys| ensures Less(k, keys[j]) {
          if j > 0 {
            LessTransitive(k, keys[0], keys[j]);
          }
        }
      }
    }
  }

  lemma {:induction false} SortKeysAscending(keys: seq<string>)
    requires NoRepeats(keys)
    ensures Ascending(SortKeys(keys))
    ensures forall x :: x in SortKeys(keys) <==> x in keys
  {
    if keys != [] {
      SortKeysAscending(keys[1..]);
      assert keys[0] !in keys[1..] by {
        assert forall i | 0 <= i < |keys[1..]| :: keys[1..][i] == keys[i + 1];
      }
      InsertKeyAscending(SortKeys(keys[1..]), keys[0]);
    }
  }

  /** An ascending list is determined by its elements. */
  lemma {:induction false} AscendingUnique(a: seq<string>, b: seq<string>)
    requires Ascending(a) && Ascending(b) && forall x :: x in a <==> x in b
    ensures a == b
  {
    assert forall i | 0 <= i < |a| :: a[i] in b;
    assert forall i | 0 <= i < |b| :: b[i] in a;
    if a != [] {
      assert a[0] in b && b[0] in a;
      LessTotal(a[0], b[0]);
      assert a[0] == b[0];
      HeadOnce(a);
      HeadOnce(b);
      AscendingUnique(a[1..], b[1..]);
    }
  }

  lemma HeadOnce(a: seq<string>)
    requires a != [] && Ascending(a)
    ensures Ascending(a[1..]) && forall x :: x in a[1..] <==> x in a && x != a[0]
  {
    forall x ensures x in a[1..] <==> x in a && x != a[0] {
      if x in a[1..] {
        var i :| 0 <= i < |a[1..]| && a[1..][i] == x;
        LessTotal(a[0], a[0]);
        assert Less(a[0], a[i + 1]);
      }
    }
  }

  // ---------------------------------------------------------------- string literals

  function Hex(n: nat): char
    requires n < 16
  {
    "0123456789abcdef"[n]
  }

  /** How `JSON.stringify` writes one character of a string. */
  function Escaped(c: char): string {
    if c == '\"' then "\\\""
    else if c == '\\' then "\\\\"
    else if c == '\n' then "\\n"
    else if c == '\r' then "\\r"
    else if c == '\t' then "\\t"
    else if c as int == 8 then "\\b"
    else if c as int == 12 then "\\f"
    else if c as int < 32 then "\\u00" + [Hex(c as int / 16), Hex(c as int % 16)]
    else [c]
  }

  function EscapedAll(s: string): string {
    if s == [] then [] else Escaped(s[0]) + EscapedAll(s[1..])
  }

  function Quote(s: string): string {
    "\"" + EscapedAll(s) + "\""
  }

  // ---------------------------------------------------------------- the canonical text

  function KeysOf(members: seq<Member>): seq<string> {
    seq(|members|, i requires 0 <= i < |members| => members[i].key)
  }

  /** `candidate[key]`. */
  function Lookup(members: seq<Member>, key: string): (r: Json)
    requires key in KeysOf(members)
    ensures Member(key, r) in members
  {
    if members[0].key == key then assert members[0] == Member(key, members[0].value); members[0].value
    else
      var i :| 0 <= i < |members| && KeysOf(members)[i] == key;
      assert KeysOf(members[1..])[i - 1] == key;
      Lookup(members[1..], key)
  }

  /** `stableJSON`: object members in the order of their sorted keys. */
  function Stable(v: Json): string
    decreases v
  {
    match v
    case JArray(items) => "[" + StableItems(v, items) + "]"
    case JObject(members) =>
      assert forall k | k in SortKeys(Distinct(KeysOf(members))) :: k in KeysOf(members) by {
        SortKeysAscending(Distinct(KeysOf(members)));
      }
      "{" + StableMembers(v, members, SortKeys(Distinct(KeysOf(members)))) + "}"
    case JString(t) => Quote(t)
    case JNumber(n) => n
    case JBool(b) => if b then "true" else "false"
    case JNull => "null"
  }

  function StableItems(parent: Json, items: seq<Json>): string
    requires forall i | 0 <= i < |items| :: items[i] < parent
    decreases parent, |items|
  {
    if items == [] then ""
    else if |items| == 1 then Stable(items[0])
    else Stable(items[0]) + "," + StableItems(parent, items[1..])
  }

  function StableMembers(parent: Json, members: seq<Member>, keys: seq<string>): string
    requires forall i | 0 <= i < |members| :: members[i].value < parent
    requires forall k | k in keys :: k in KeysOf(members)
    decreases parent, |keys|
  {
    if keys == [] then ""
    else
      var value := Lookup(members, keys[0]);
      assert keys[0] in keys && value < parent;
      var first := Quote(keys[0]) + ":" + Stable(value);
      if |keys| == 1 then first else first + "," + StableMembers(parent, members, keys[1..])
  }

  // ---------------------------------------------------------------- the same text, from the value alone

  ghost function Enumerate(s: set<string>): (r: seq<string>)
    ensures NoRepeats(r) && forall x :: x in r <==> x in s
  {
    if s == {} then []
    else
      var x :| x in s;
      [x] + Enumerate(s - {x})
  }

  ghost function SortedKeys(s: set<string>): (r: seq<string>)
    ensures Ascending(r) && forall x :: x in r <==> x in s
  {
    SortKeysAscending(Enumerate(s));
    SortKeys(Enumerate(s))
  }

  /** The text of a value in which the members of an object have no order. */
  ghost function Print(v: Value): string
    decreases v
  {
    match v
    case VArray(items) => "[" + PrintItems(v, items) + "]"
    case VObject(m) => "{" + PrintMembers(v, m, SortedKeys(m.Keys)) + "}"
    case VString(t) => Quote(t)
    case VNumber(n) => n
    case VBool(b) => if b then "true" else "false"
    case VNull => "null"
  }

  ghost function PrintItems(parent: Value, items: seq<Value>): string
    requires forall i | 0 <= i < |items| :: items[i] < parent
    decreases parent, |items|
  {
    if items == [] then ""
    else if |items| == 1 then Print(items[0])
    else Print(items[0]) + "," + PrintItems(parent, items[1..])
  }

  ghost function PrintMembers(parent: Value, m: map<string, Value>, keys: seq<string>): string
    requires forall k | k in m :: m[k] < parent
    requires forall k | k in keys :: k in m
    decreases parent, |keys|
  {
    if keys == [] then ""
    else
      assert keys[0] in keys;
      var first := Quote(keys[0]) + ":" + Print(m[keys[0]]);
      if |keys| == 1 then first else first + "," + PrintMembers(parent, m, keys[1..])
  }

  /** The text depends only on the decoded value. */
  lemma {:induction false} StablePrints(v: Json)
    requires Unique(v)
    ensures Stable(v) == Print(Decode(v))
    decreases v
  {
    match v
    case JArray(items) => StableItemsPrint(v, Decode(v), items, Decode(v).items);
    case JObject(members) =>
      var keys := SortKeys(Distinct(KeysOf(members)));
      KeysAgree(members);
      StableMembersPrint(v, Decode(v), members, DecodeMembers(members), keys);
    case _ =>
  }

  lemma KeysAgree(members: seq<Member>)
    requires DistinctKeys(members)
    ensures SortKeys(Distinct(KeysOf(members))) == SortedKeys(DecodeMembers(members).Keys)
    ensures forall k | k in SortKeys(Distinct(KeysOf(members))) :: k in KeysOf(members)
  {
    var keys := Distinct(KeysOf(members));
    SortKeysAscending(keys);
    forall x ensures x in SortKeys(keys) <==> x in SortedKeys(DecodeMembers(members).Keys) {
      DecodedKey(members, x);
      assert x in KeysOf(members) <==> exists i | 0 <= i < |members| :: members[i].key == x by {
        assert forall i | 0 <= i < |members| :: KeysOf(members)[i] == members[i].key;
      }
    }
    AscendingUnique(SortKeys(keys), SortedKeys(DecodeMembers(members).Keys));
  }

  lemma {:induction false} StableItemsPrint(parent: Json, printed: Value, items: seq<Json>, values: seq<Value>)
    requires |items| == |values| && forall i | 0 <= i < |items| :: items[i] < parent && Unique(items[i])
    requires forall i | 0 <= i < |items| :: values[i] < printed && values[i] == Decode(items[i])
    ensures StableItems(parent, items) == PrintItems(printed, values)
    decreases parent, |items|
  {
    if items != [] {
      StablePrints(items[0]);
      StableItemsPrint(parent, printed, items[1..], values[1..]);
    }
  }

  lemma {:induction false} StableMembersPrint(parent: Json, printed: Value, members: seq<Member>, m: map<string, Value>, keys: seq<string>)
    requires forall i | 0 <= i < |members| :: members[i].value < parent && Unique(members[i].value)
    requires DistinctKeys(members) && m == DecodeMembers(members)
    requires forall k | k in m :: m[k] < printed
    requires forall k | k in keys :: k in KeysOf(members) && k in m
    ensures StableMembers(parent, members, keys) == PrintMembers(printed, m, keys)
    decreases parent, |keys|
  {
    if keys != [] {
      assert keys[0] in keys;
      var value := Lookup(members, keys[0]);
      var i :| 0 <= i < |members| && members[i] == Member(keys[0], value);
      MemberSurvives(members, i);
      StablePrints(value);
      StableMembersPrint(parent, printed, members, m, keys[1..]);
    }
  }

  // ---------------------------------------------------------------- the text determines the value

  predicate NumeralChar(c: char) {
    '0' <= c <= '9' || c == '-' || c == '+' || c == '.' || c == 'e'
  }

  /** Numbers are given by their text, as `JSON.stringify` writes a finite number. */
  predicate Numeral(n: string) {
    n != [] && ('0' <= n[0] <= '9' || n[0] == '-') && forall i | 0 <= i < |n| :: NumeralChar(n[i])
  }

  predicate WellFormed(v: Value) {
    match v
    case VNumber(n) => Numeral(n)
    case VArray(items) => forall i | 0 <= i < |items| :: WellFormed(items[i])
    case VObject(m) => forall k | k in m :: WellFormed(m[k])
    case _ => true
  }

  /** What can follow a value: nothing, a comma or a closing delimiter. */
  predicate Ends(r: string) {
    r == [] || r[0] == ',' || r[0] == ']' || r[0] == '}'
  }

  function HexValue(c: char): int {
    if '0' <= c <= '9' then c as int - '0' as int else c as int - 'a' as int + 10
  }

  /** Reads one written character back: its code and the length of its text. */
  function ReadEscaped(x: string): (int, nat)
    requires |x| >= 2
  {
    if x[0] != '\\' then (x[0] as int, 1)
    else if x[1] == 'n' then (10, 2)
    else if x[1] == 'r' then (13, 2)
    else if x[1] == 't' then (9, 2)
    else if x[1] == 'b' then (8, 2)
    else if x[1] == 'f' then (12, 2)
    else if x[1] == 'u' && |x| >= 6 then (HexValue(x[4]) * 16 + HexValue(x[5]), 6)
    else (x[1] as int, 2)
  }

  lemma HexInverse(n: nat)
    requires n < 16
    ensures HexValue(Hex(n)) == n
  {
  }

  lemma ReadBack(c: char, r: string)
    requires r != []
    ensures ReadEscaped(Escaped(c) + r) == (c as int, |Escaped(c)|)
    ensures (Escaped(c) + r)[|Escaped(c)|..] == r
    ensures (Escaped(c) + r)[0] != '\"'
  {
    if |Escaped(c)| == 6 {
      HexInverse(c as int / 16);
      HexInverse(c as int % 16);
      var x := Escaped(c) + r;
      assert x[0] == '\\' && x[1] == 'u' && x[4] == Hex(c as int / 16) && x[5] == Hex(c as int % 16);
    }
  }

  lemma Assoc(a: string, b: string, c: string)
    ensures (a + b) + c == a + (b + c)
  {
  }

  lemma EscapedUnfold(a: string, r: string)
    requires a != []
    ensures var x, rest := EscapedAll(a) + ("\"" + r), EscapedAll(a[1..]) + ("\"" + r);
            && x == Escaped(a[0]) + rest && rest != [] && x[0] != '\"'
            && ReadEscaped(x) == (a[0] as int, |Escaped(a[0])|) && x[|Escaped(a[0])|..] == rest
  {
    Assoc(Escaped(a[0]), EscapedAll(a[1..]), "\"" + r);
    ReadBack(a[0], EscapedAll(a[1..]) + ("\"" + r));
  }

  lemma EscapedStart(a: string, r: string)
    ensures (EscapedAll(a) + ("\"" + r))[0] == '\"' <==> a == []
  {
    if a != [] {
      EscapedUnfold(a, r);
    }
  }

  lemma {:induction false} QuotePrefixFree(a: string, b: string, r: string, t: string)
    requires EscapedAll(a) + ("\"" + r) == EscapedAll(b) + ("\"" + t)
    ensures a == b && r == t
  {
    EscapedStart(a, r);
    EscapedStart(b, t);
    if a == [] {
      assert r == (EscapedAll(a) + ("\"" + r))[1..] && t == (EscapedAll(b) + ("\"" + t))[1..];
    } else {
      EscapedUnfold(a, r);
      EscapedUnfold(b, t);
      QuotePrefixFree(a[1..], b[1..], r, t);
      assert a == [a[0]] + a[1..] && b == [b[0]] + b[1..];
    }
  }

  lemma QuoteThen(a: string, r: string)
    ensures Quote(a) + r == "\"" + (EscapedAll(a) + ("\"" + r))
    ensures (Quote(a) + r)[1..] == EscapedAll(a) + ("\"" + r)
  {
    assert Quote(a) + r == "\"" + (EscapedAll(a) + ("\"" + r));
  }

  lemma QuotedPrefixFree(a: string, b: string, r: string, t: string)
    requires Quote(a) + r == Quote(b) + t
    ensures a == b && r == t
  {
    QuoteThen(a, r);
    QuoteThen(b, t);
    QuotePrefixFree(a, b, r, t);
  }

  function Span(x: string): nat {
    if x != [] && NumeralChar(x[0]) then 1 + Span(x[1..]) else 0
  }

  lemma {:induction false} SpanOf(a: string, r: string)
    requires (forall i | 0 <= i < |a| :: NumeralChar(a[i])) && Ends(r)
    ensures Span(a + r) == |a|
  {
    if a == [] {
      assert a + r == r;
    } else {
      assert (a + r)[1..] == a[1..] + r;
      SpanOf(a[1..], r);
    }
  }

  lemma NumeralPrefixFree(a: string, b: string, r: string, t: string)
    requires Numeral(a) && Numeral(b) && Ends(r) && Ends(t) && a + r == b + t
    ensures a == b && r == t
  {
    SpanOf(a, r);
    SpanOf(b, t);
    var x := a + r;
    assert a == x[..|a|] && b == x[..|b|] && r == x[|a|..] && t == x[|b|..];
  }

  /** The first character tells the kinds of values apart. */
  function KindChar(v: Value): char {
    match v
    case VString(_) => '\"'
    case VNumber(_) => '0'
    case VBool(b) => if b then 't' else 'f'
    case VNull => 'n'
    case VArray(_) => '['
    case VObject(_) => '{'
  }

  lemma PrintStarts(v: Value)
    requires WellFormed(v)
    ensures Print(v) != []
    ensures if v.VNumber? then NumeralChar(Print(v)[0]) && Print(v)[0] != 'e' else Print(v)[0] == KindChar(v)
  {
  }

  /** Equal texts followed by a delimiter come from equal values. */
  lemma {:induction false} PrintPrefixFree(a: Value, b: Value, r: string, t: string)
    requires WellFormed(a) && WellFormed(b) && Ends(r) && Ends(t)
    requires Print(a) + r == Print(b) + t
    ensures a == b && r == t
    decreases a
  {
    SameKind(a, b, r, t);
    match a
    case VString(s) => QuotedPrefixFree(s, b.text, r, t);
    case VNumber(n) => NumeralPrefixFree(n, b.numeral, r, t);
    case VArray(items) =>
      ArrayText(a, r);
      ArrayText(b, t);
      ItemsPrefixFree(a, b, items, b.items, r, t);
    case VObject(m) =>
      ObjectText(a, r);
      ObjectText(b, t);
      MembersPrefixFree(a, b, m, b.members, SortedKeys(m.Keys), SortedKeys(b.members.Keys), r, t);
      assert m.Keys == b.members.Keys;
    case _ =>
      assert r == (Print(a) + r)[|Print(a)|..] && t == (Print(b) + t)[|Print(b)|..];
  }

  lemma SameKind(a: Value, b: Value, r: string, t: string)
    requires WellFormed(a) && WellFormed(b) && Print(a) + r == Print(b) + t
    ensures a.VNumber? <==> b.VNumber?
    ensures !a.VNumber? ==> KindChar(a) == KindChar(b)
  {
    PrintStarts(a);
    PrintStarts(b);
    assert (Print(a) + r)[0] == Print(a)[0] && (Print(b) + t)[0] == Print(b)[0];
  }

  lemma ArrayText(a: Value, r: string)
    requires a.VArray?
    ensures |Print(a) + r| > 0 && (Print(a) + r)[1..] == PrintItems(a, a.items) + ("]" + r)
  {
    assert Print(a) + r == "[" + (PrintItems(a, a.items) + ("]" + r));
  }

  lemma ObjectText(a: Value, r: string)
    requires a.VObject?
    ensures |Print(a) + r| > 0
    ensures (Print(a) + r)[1..] == PrintMembers(a, a.members, SortedKeys(a.members.Keys)) + ("}" + r)
  {
    assert Print(a) + r == "{" + (PrintMembers(a, a.members, SortedKeys(a.members.Keys)) + ("}" + r));
  }

  ghost function AfterItem(parent: Value, items: seq<Value>, r: string): string
    requires items != [] && forall i | 0 <= i < |items| :: items[i] < parent
  {
    if |items| == 1 then "]" + r else "," + (PrintItems(parent, items[1..]) + ("]" + r))
  }

  lemma ItemsUnfold(parent: Value, items: seq<Value>, r: string)
    requires forall i | 0 <= i < |items| :: items[i] < parent && WellFormed(items[i])
    ensures var x := PrintItems(parent, items) + ("]" + r);
            && (x[0] == ']' <==> items == [])
            && if items == [] then x[1..] == r else x == Print(items[0]) + AfterItem(parent, items, r)
  {
    if items != [] {
      PrintStarts(items[0]);
      if |items| > 1 {
        Assoc(Print(items[0]) + ",", PrintItems(parent, items[1..]), "]" + r);
        Assoc(Print(items[0]), ",", PrintItems(parent, items[1..]) + ("]" + r));
      }
    }
  }

  lemma AfterItemSplits(parent: Value, items: seq<Value>, r: string)
    requires items != [] && forall i | 0 <= i < |items| :: items[i] < parent
    ensures var y := AfterItem(parent, items, r);
            && (y[0] == ']' <==> |items| == 1)
            && y[1..] == if |items| == 1 then r else PrintItems(parent, items[1..]) + ("]" + r)
  {
  }

  lemma {:induction false} ItemsPrefixFree(a: Value, b: Value, xs: seq<Value>, ys: seq<Value>, r: string, t: string)
    requires forall i | 0 <= i < |xs| :: xs[i] < a && WellFormed(xs[i])
    requires forall i | 0 <= i < |ys| :: ys[i] < b && WellFormed(ys[i])
    requires PrintItems(a, xs) + ("]" + r) == PrintItems(b, ys) + ("]" + t)
    ensures xs == ys && r == t
    decreases a, |xs|
  {
    ItemsUnfold(a, xs, r);
    ItemsUnfold(b, ys, t);
    if xs != [] {
      PrintPrefixFree(xs[0], ys[0], AfterItem(a, xs, r), AfterItem(b, ys, t));
      AfterItemSplits(a, xs, r);
      AfterItemSplits(b, ys, t);
      if |xs| > 1 {
        ItemsPrefixFree(a, b, xs[1..], ys[1..], r, t);
        assert xs == [xs[0]] + xs[1..] && ys == [ys[0]] + ys[1..];
      }
    }
  }

  ghost predicate Printable(parent: Value, m: map<string, Value>, keys: seq<string>) {
    (forall k | k in m :: m[k] < parent && WellFormed(m[k])) && (forall k | k in keys :: k in m)
  }

  ghost function AfterMember(parent: Value, m: map<string, Value>, keys: seq<string>, r: string): string
    requires keys != [] && Printable(parent, m, keys)
  {
    if |keys| == 1 then "}" + r else "," + (PrintMembers(parent, m, keys[1..]) + ("}" + r))
  }

  lemma MemberChain(quoted: string, printed: string, more: string, tail: string)
    ensures (quoted + ":" + printed) + tail == quoted + (":" + (printed + tail))
    ensures ((quoted + ":" + printed) + "," + more) + tail == quoted + (":" + (printed + ("," + (more + tail))))
  {
  }

  lemma MembersUnfold(parent: Value, m: map<string, Value>, keys: seq<string>, r: string)
    requires Printable(parent, m, keys)
    ensures var x := PrintMembers(parent, m, keys) + ("}" + r);
            && (x[0] == '}' <==> keys == [])
            && if keys == [] then x[1..] == r
               else keys[0] in m && x == Quote(keys[0]) + (":" + (Print(m[keys[0]]) + AfterMember(parent, m, keys, r)))
  {
    if keys != [] {
      assert keys[0] in keys;
      var more := if |keys| == 1 then "" else PrintMembers(parent, m, keys[1..]);
      MemberChain(Quote(keys[0]), Print(m[keys[0]]), more, "}" + r);
    }
  }

  lemma AfterMemberSplits(parent: Value, m: map<string, Value>, keys: seq<string>, r: string)
    requires keys != [] && Printable(parent, m, keys)
    ensures var y := AfterMember(parent, m, keys, r);
            && (y[0] == '}' <==> |keys| == 1)
            && y[1..] == if |keys| == 1 then r else PrintMembers(parent, m, keys[1..]) + ("}" + r)
  {
  }

  lemma ColonSplits(x: string, y: string)
    ensures ":" + x == ":" + y ==> x == y
  {
    assert (":" + x)[1..] == x && (":" + y)[1..] == y;
  }

  lemma SameFromTails(xs: seq<string>, ys: seq<string>)
    requires xs != [] && ys != [] && xs[0] == ys[0] && xs[1..] == ys[1..]
    ensures xs == ys
    ensures forall k | k in xs :: k == xs[0] || k in xs[1..]
  {
    assert xs == [xs[0]] + xs[1..] && ys == [ys[0]] + ys[1..];
  }

  lemma {:induction false} MembersPrefixFree(a: Value, b: Value, m: map<string, Value>, n: map<string, Value>,
                                             xs: seq<string>, ys: seq<string>, r: string, t: string)
    requires Printable(a, m, xs) && Printable(b, n, ys)
    requires PrintMembers(a, m, xs) + ("}" + r) == PrintMembers(b, n, ys) + ("}" + t)
    ensures xs == ys && r == t && forall k | k in xs :: k in n && m[k] == n[k]
    decreases a, |xs|
  {
    MembersUnfold(a, m, xs, r);
    MembersUnfold(b, n, ys, t);
    if xs != [] {
      var x, y := Print(m[xs[0]]) + AfterMember(a, m, xs, r), Print(n[ys[0]]) + AfterMember(b, n, ys, t);
      QuotedPrefixFree(xs[0], ys[0], ":" + x, ":" + y);
      ColonSplits(x, y);
      PrintPrefixFree(m[xs[0]], n[ys[0]], AfterMember(a, m, xs, r), AfterMember(b, n, ys, t));
      AfterMemberSplits(a, m, xs, r);
      AfterMemberSplits(b, n, ys, t);
      if |xs| > 1 {
        MembersPrefixFree(a, b, m, n, xs[1..], ys[1..], r, t);
        SameFromTails(xs, ys);
      }
    }
  }

  /** Two JSON values have the same canonical text exactly when they are equal up to the order of object members. */
  lemma StableIsCanonical(v: Json, w: Json)
    requires Unique(v) && Unique(w) && WellFormed(Decode(v)) && WellFormed(Decode(w))
    ensures Stable(v) == Stable(w) <==> Decode(v) == Decode(w)
  {
    StablePrints(v);
    StablePrints(w);
    if Stable(v) == Stable(w) {
      assert Print(Decode(v)) + "" == Print(Decode(w)) + "";
      PrintPrefixFree(Decode(v), Decode(w), "", "");
    }
  }
}
