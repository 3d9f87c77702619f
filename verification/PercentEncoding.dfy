/** Percent-encoding of route segments over UTF-8, as `encodeURIComponent` and `decodeURIComponent` define it
    (section 2.1 of RFC 3986). */
module PercentEncoding {
  import opened Prelude

  // ---------------------------------------------------------------- printing

  predicate Unreserved(c: char) {
    || 'A' <= c <= 'Z' || 'a' <= c <= 'z' || '0' <= c <= '9'
    || c in "-_.!~*'()"
  }

  predicate IsByte(b: int) {
    0 <= b < 256
  }

  function HexDigit(n: int): char
    requires 0 <= n < 16
  {
    if n < 10 then (48 + n) as char else (55 + n) as char
  }

  function Escape(b: int): string
    requires IsByte(b)
  {
    ['%', HexDigit(b / 16), HexDigit(b % 16)]
  }

  predicate IsContinuation(b: int) {
    0x80 <= b < 0xC0
  }

  /** The first octet of a code point in UTF-8. */
  function Lead(n: int): (b: int)
    requires 0 <= n < 0x110000
    ensures IsByte(b) && (b == n || b >= 0xC0)
  {
    if n < 0x80 then n
    else if n < 0x800 then 0xC0 + n / 64
    else if n < 0x10000 then 0xE0 + n / 4096
    else 0xF0 + n / 262144
  }

  /** The continuation octets of a code point in UTF-8. */
  function Tail(n: int): (r: seq<int>)
    requires 0 <= n < 0x110000
    ensures forall i | 0 <= i < |r| :: IsContinuation(r[i])
  {
    if n < 0x80 then []
    else if n < 0x800 then [0x80 + n % 64]
    else if n < 0x10000 then [0x80 + n / 64 % 64, 0x80 + n % 64]
    else [0x80 + n / 4096 % 64, 0x80 + n / 64 % 64, 0x80 + n % 64]
  }

  function Escapes(bytes: seq<int>): string
    requires forall i | 0 <= i < |bytes| :: IsContinuation(bytes[i])
  {
    if bytes == [] then "" else (assert IsContinuation(bytes[0]); Escape(bytes[0])) + Escapes(bytes[1..])
  }

  function EncodeChar(c: char): string {
    if Unreserved(c) then [c] else Escape(Lead(c as int)) + Escapes(Tail(c as int))
  }

  /** `encodeURIComponent`. */
  function Encode(s: string): string {
    if s == "" then "" else EncodeChar(s[0]) + Encode(s[1..])
  }

  /** `replaceAll("%3A", ":")`: a left-to-right scan for the three characters, wherever they stand. */
  function RestoreColons(t: string): string {
    if t == "" then ""
    else if |t| >= 3 && t[..3] == "%3A" then ":" + RestoreColons(t[3..])
    else [t[0]] + RestoreColons(t[1..])
  }

  function EncodeRouteId(s: string): string {
    RestoreColons(Encode(s))
  }

  /** Encoding that leaves the colons of the text itself alone. */
  function EncodeKeepingColons(s: string): string {
    if s == "" then "" else (if s[0] == ':' then ":" else EncodeChar(s[0])) + EncodeKeepingColons(s[1..])
  }

  lemma RestorePlain(c: char, t: string)
    requires c != '%'
    ensures RestoreColons([c] + t) == [c] + RestoreColons(t)
  {
    assert ([c] + t)[1..] == t;
    assert |[c] + t| >= 3 ==> ([c] + t)[..3][0] == c;
  }

  lemma RestoreEscape(b: int, t: string)
    requires IsByte(b)
    ensures RestoreColons(Escape(b) + t) == (if b == 0x3A then ":" else Escape(b)) + RestoreColons(t)
  {
    var e, u := Escape(b), Escape(b) + t;
    assert u[..3] == e && u[3..] == t;
    if b != 0x3A {
      assert e[1] != "%3A"[1] || e[2] != "%3A"[2];
      RestorePlain(e[2], t);
      RestorePlain(e[1], [e[2]] + t);
      assert u[1..] == [e[1]] + ([e[2]] + t);
      assert RestoreColons(u) == ['%'] + RestoreColons(u[1..]);
    }
  }

  lemma {:induction false} RestoreEscapes(bytes: seq<int>, t: string)
    requires forall i | 0 <= i < |bytes| :: IsContinuation(bytes[i])
    ensures RestoreColons(Escapes(bytes) + t) == Escapes(bytes) + RestoreColons(t)
  {
    if bytes == [] {
      assert Escapes(bytes) + t == t;
    } else {
      RestoreEscapes(bytes[1..], t);
      RestoreEscape(bytes[0], Escapes(bytes[1..]) + t);
      assert Escapes(bytes) + t == Escape(bytes[0]) + (Escapes(bytes[1..]) + t);
    }
  }

  lemma RestoreSequence(b: int, tail: string, t: string)
    requires IsByte(b) && b != 0x3A && RestoreColons(tail + t) == tail + RestoreColons(t)
    ensures RestoreColons(Escape(b) + tail + t) == Escape(b) + tail + RestoreColons(t)
  {
    RestoreEscape(b, tail + t);
    assert Escape(b) + tail + t == Escape(b) + (tail + t);
  }

  lemma RestoreChar(c: char, t: string)
    ensures RestoreColons(EncodeChar(c) + t) == (if c == ':' then ":" else EncodeChar(c)) + RestoreColons(t)
  {
    if Unreserved(c) {
      RestorePlain(c, t);
    } else if c == ':' {
      RestoreEscape(0x3A, t);
      assert Escape(0x3A) + "" == Escape(0x3A);
    } else {
      RestoreEscapes(Tail(c as int), t);
      RestoreSequence(Lead(c as int), Escapes(Tail(c as int)), t);
    }
  }

  /** The rewrite restores exactly the colons of the text: it never touches a misaligned escape. */
  lemma {:induction false} RestoreIsAligned(s: string)
    ensures EncodeRouteId(s) == EncodeKeepingColons(s)
  {
    if s != "" {
      RestoreChar(s[0], Encode(s[1..]));
      RestoreIsAligned(s[1..]);
    }
  }

  // ---------------------------------------------------------------- parsing

  function HexValue(c: char): Option<int> {
    if '0' <= c <= '9' then Some(c as int - 48)
    else if 'A' <= c <= 'F' then Some(c as int - 55)
    else if 'a' <= c <= 'f' then Some(c as int - 87)
    else None
  }

  /** The octet of the escape at the start of `t`, if there is one. */
  function EscapedByte(t: string): (r: Option<int>)
    ensures r.Some? ==> |t| >= 3 && IsByte(r.value)
  {
    if |t| < 3 || t[0] != '%' || HexValue(t[1]).None? || HexValue(t[2]).None? then None
    else Some(16 * HexValue(t[1]).value + HexValue(t[2]).value)
  }

  predicate IsScalar(n: int) {
    0 <= n < 0xD800 || 0xE000 <= n < 0x110000
  }

  /** `k` continuation octets appended to the bits read so far, and the text after them. */
  function Continue(bits: int, k: nat, t: string): Option<(int, string)>
    decreases k
  {
    if k == 0 then Some((bits, t))
    else
      var b := EscapedByte(t);
      if b.None? || b.value < 0x80 || b.value >= 0xC0 then None else Continue(64 * bits + (b.value - 0x80), k - 1, t[3..])
  }

  /** The code point of an escape sequence, and the text after it; None where the escapes are not UTF-8. */
  function DecodeEscape(t: string): (r: Option<(char, string)>)
    ensures r.Some? ==> |r.value.1| < |t|
  {
    var b := EscapedByte(t);
    if b.None? then None
    else if b.value < 0x80 then Some((b.value as char, t[3..]))
    else
      var shape :=
        if 0xC0 <= b.value < 0xE0 then Some((b.value - 0xC0, 1, 0x80))
        else if 0xE0 <= b.value < 0xF0 then Some((b.value - 0xE0, 2, 0x800))
        else if 0xF0 <= b.value < 0xF8 then Some((b.value - 0xF0, 3, 0x10000))
        else None;
      if shape.None? then None
      else
        var (bits, k, least) := shape.value;
        ContinueShortens(bits, k, t[3..]);
        var r := Continue(bits, k, t[3..]);
        if r.None? || r.value.0 < least || !IsScalar(r.value.0) then None else Some((r.value.0 as char, r.value.1))
  }

  lemma {:induction false} ContinueShortens(bits: int, k: nat, t: string)
    decreases k
    ensures Continue(bits, k, t).Some? ==> |Continue(bits, k, t).value.1| <= |t|
  {
    if k > 0 && EscapedByte(t).Some? {
      ContinueShortens(64 * bits + (EscapedByte(t).value - 0x80), k - 1, t[3..]);
    }
  }

  function Push(c: char, r: Option<string>): Option<string> {
    if r.Some? then Some([c] + r.value) else None
  }

  /** `decodeURIComponent`; None where it throws. */
  function Decode(t: string): Option<string>
    decreases |t|
  {
    if t == "" then Some("")
    else if t[0] != '%' then Push(t[0], Decode(t[1..]))
    else
      var r := DecodeEscape(t);
      if r.None? then None else Push(r.value.0, Decode(r.value.1))
  }

  /** A failure to decode reads as the empty segment. */
  function DecodeRouteSegment(t: string): string {
    Decode(t).GetOr("")
  }

  // ---------------------------------------------------------------- round trip

  lemma EscapedByteOfEscape(b: int, t: string)
    requires IsByte(b)
    ensures EscapedByte(Escape(b) + t) == Some(b) && (Escape(b) + t)[3..] == t
  {
  }

  /** The bits that continuation octets add to those of the first octet. */
  function Gather(bits: int, bytes: seq<int>): int
    decreases bytes
  {
    if bytes == [] then bits else Gather(64 * bits + (bytes[0] - 0x80), bytes[1..])
  }

  lemma {:induction false} ContinueEscapes(bits: int, bytes: seq<int>, t: string)
    requires forall i | 0 <= i < |bytes| :: IsContinuation(bytes[i])
    ensures Continue(bits, |bytes|, Escapes(bytes) + t) == Some((Gather(bits, bytes), t))
    decreases bytes
  {
    if bytes == [] {
      assert Escapes(bytes) + t == t;
    } else {
      ContinueEscapes(64 * bits + (bytes[0] - 0x80), bytes[1..], t);
      EscapedByteOfEscape(bytes[0], Escapes(bytes[1..]) + t);
      assert Escapes(bytes) + t == Escape(bytes[0]) + (Escapes(bytes[1..]) + t);
    }
  }

  function LeadBits(n: int): int
    requires 0 <= n < 0x110000
  {
    if n < 0x800 then n / 64 else if n < 0x10000 then n / 4096 else n / 262144
  }

  lemma GatherOne(bits: int, a: int)
    ensures Gather(bits, [a]) == 64 * bits + (a - 0x80)
  {
    assert [a][1..] == [];
  }

  lemma GatherTwo(bits: int, a: int, b: int)
    ensures Gather(bits, [a, b]) == 64 * (64 * bits + (a - 0x80)) + (b - 0x80)
  {
    assert [a, b][1..] == [b];
    GatherOne(64 * bits + (a - 0x80), b);
  }

  lemma GatherThree(bits: int, a: int, b: int, c: int)
    ensures Gather(bits, [a, b, c]) == 64 * (64 * (64 * bits + (a - 0x80)) + (b - 0x80)) + (c - 0x80)
  {
    assert [a, b, c][1..] == [b, c];
    GatherTwo(64 * bits + (a - 0x80), b, c);
  }

  lemma SixBits(n: int)
    ensures 64 * (n / 4096) + n / 64 % 64 == n / 64
  {
  }

  lemma SixMoreBits(n: int)
    ensures 64 * (n / 262144) + n / 4096 % 64 == n / 4096
  {
  }

  lemma GatherTail(n: int)
    requires 0x80 <= n < 0x110000
    ensures Gather(LeadBits(n), Tail(n)) == n
  {
    if n < 0x800 {
      GatherOne(n / 64, 0x80 + n % 64);
    } else if n < 0x10000 {
      SixBits(n);
      GatherTwo(n / 4096, 0x80 + n / 64 % 64, 0x80 + n % 64);
    } else {
      SixMoreBits(n);
      SixBits(n);
      GatherThree(n / 262144, 0x80 + n / 4096 % 64, 0x80 + n / 64 % 64, 0x80 + n % 64);
    }
  }

  lemma DecodeEscapeChar(c: char, t: string)
    requires !Unreserved(c)
    ensures DecodeEscape(EncodeChar(c) + t) == Some((c, t))
  {
    var n := c as int;
    var rest := Escapes(Tail(n)) + t;
    EscapedByteOfEscape(Lead(n), rest);
    assert EncodeChar(c) + t == Escape(Lead(n)) + rest;
    if n < 0x80 {
      assert rest == t;
    } else {
      ContinueEscapes(LeadBits(n), Tail(n), t);
      GatherTail(n);
    }
  }

  lemma DecodePlain(c: char, t: string)
    requires c != '%'
    ensures Decode([c] + t) == Push(c, Decode(t))
  {
    assert ([c] + t)[1..] == t;
  }

  lemma DecodeChar(c: char, t: string)
    ensures Decode(EncodeChar(c) + t) == Push(c, Decode(t))
  {
    if Unreserved(c) {
      DecodePlain(c, t);
    } else {
      DecodeEscapeChar(c, t);
      assert (EncodeChar(c) + t)[0] == '%';
    }
  }

  lemma {:induction false} DecodeKeepingColons(s: string)
    ensures Decode(EncodeKeepingColons(s)) == Some(s)
  {
    if s != "" {
      var t := EncodeKeepingColons(s[1..]);
      DecodeKeepingColons(s[1..]);
      DecodePlain(':', t);
      DecodeChar(s[0], t);
      assert s == [s[0]] + s[1..];
    }
  }

  lemma {:induction false} DecodeEncode(s: string)
    ensures Decode(Encode(s)) == Some(s)
  {
    if s != "" {
      DecodeEncode(s[1..]);
      DecodeChar(s[0], Encode(s[1..]));
      assert s == [s[0]] + s[1..];
    }
  }

  /** Decoding undoes both printers, for every text. */
  lemma {:induction false} DecodeUndoesEncode(s: string)
    ensures DecodeRouteSegment(Encode(s)) == s && DecodeRouteSegment(EncodeRouteId(s)) == s
  {
    DecodeEncode(s);
    RestoreIsAligned(s);
    DecodeKeepingColons(s);
  }

  // ---------------------------------------------------------------- what an encoded segment looks like

  predicate NoSlash(t: string) {
    forall i | 0 <= i < |t| :: t[i] != '/'
  }

  lemma {:induction false} EscapesHaveNoSlash(bytes: seq<int>)
    requires forall i | 0 <= i < |bytes| :: IsContinuation(bytes[i])
    ensures NoSlash(Escapes(bytes))
  {
    if bytes != [] {
      EscapesHaveNoSlash(bytes[1..]);
      assert NoSlash(Escape(bytes[0]));
    }
  }

  lemma {:induction false} EncodedHasNoSlash(s: string)
    ensures NoSlash(Encode(s)) && NoSlash(EncodeKeepingColons(s))
  {
    if s != "" {
      EncodedHasNoSlash(s[1..]);
      var head := EncodeChar(s[0]);
      assert NoSlash(head) by {
        if !Unreserved(s[0]) {
          EscapesHaveNoSlash(Tail(s[0] as int));
          assert NoSlash(Escape(Lead(s[0] as int)));
        }
      }
    }
  }
}
