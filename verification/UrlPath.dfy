/** Paths as a browser keeps them: segments between slashes, with dot segments resolved. */
module UrlPath {
  import opened Prelude
  import opened PercentEncoding

  function Path(segments: seq<string>): string {
    if segments == [] then "" else "/" + segments[0] + Path(segments[1..])
  }

  /** `split("/")`. */
  function Split(t: string): (r: seq<string>)
    ensures |r| >= 1
  {
    if t == "" then [""]
    else
      var r := Split(t[1..]);
      if t[0] == '/' then [""] + r else [[t[0]] + r[0]] + r[1..]
  }

  /** `filter(Boolean)`. */
  function Filled(segments: seq<string>): seq<string> {
    if segments == [] then []
    else (if segments[0] == "" then [] else [segments[0]]) + Filled(segments[1..])
  }

  /** What follows a dot, written plainly or escaped. */
  function AfterDot(t: string): Option<string> {
    if |t| >= 1 && t[0] == '.' then Some(t[1..])
    else if |t| >= 3 && t[0] == '%' && t[1] == '2' && (t[2] == 'e' || t[2] == 'E') then Some(t[3..])
    else None
  }

  predicate IsDot(segment: string) {
    AfterDot(segment) == Some("")
  }

  predicate IsDoubleDot(segment: string) {
    AfterDot(segment).Some? && AfterDot(AfterDot(segment).value) == Some("")
  }

  /** Dot segments resolved from left to right. */
  function Resolved(segments: seq<string>): seq<string> {
    if segments == [] then []
    else
      var before, last := Resolved(segments[..|segments| - 1]), segments[|segments| - 1];
      if IsDot(last) then before
      else if IsDoubleDot(last) then (if before == [] then [] else before[..|before| - 1])
      else before + [last]
  }

  /** The segments a browser shows for a link; a dot segment at the end leaves an empty one. */
  function Shown(segments: seq<string>): seq<string>
    requires segments != []
  {
    var last := segments[|segments| - 1];
    Resolved(segments) + if IsDot(last) || IsDoubleDot(last) then [""] else []
  }

  /** The path a browser shows for a link to `path`. */
  function BrowserPath(path: string): string {
    Path(Shown(Split(if path != "" && path[0] == '/' then path[1..] else path)))
  }

  /** A segment that neither the split nor the browser changes. */
  predicate Plain(segment: string) {
    segment != "" && NoSlash(segment) && !IsDot(segment) && !IsDoubleDot(segment)
  }

  predicate AllPlain(segments: seq<string>) {
    forall i | 0 <= i < |segments| :: Plain(segments[i])
  }

  lemma {:induction false} SplitSegment(segment: string, rest: string)
    requires NoSlash(segment)
    ensures Split(segment + rest) == [segment + Split(rest)[0]] + Split(rest)[1..]
  {
    var t := segment + rest;
    if segment == "" {
      assert t == rest;
      assert segment + Split(rest)[0] == Split(rest)[0];
    } else {
      assert t[0] == segment[0] && t[1..] == segment[1..] + rest;
      assert NoSlash(segment[1..]);
      SplitSegment(segment[1..], rest);
      assert segment == [segment[0]] + segment[1..];
      assert [segment[0]] + (segment[1..] + Split(rest)[0]) == segment + Split(rest)[0];
    }
  }

  lemma {:induction false} SplitPath(segments: seq<string>)
    requires forall i | 0 <= i < |segments| :: NoSlash(segments[i])
    ensures Split(Path(segments)) == [""] + segments
  {
    if segments != [] {
      var rest := Path(segments[1..]);
      SplitPath(segments[1..]);
      SplitSegment(segments[0], rest);
      assert Path(segments) == ['/'] + (segments[0] + rest);
      assert segments[0] + "" == segments[0];
      assert segments == [segments[0]] + segments[1..];
    }
  }

  lemma {:induction false} FilledPlain(segments: seq<string>)
    requires AllPlain(segments)
    ensures Filled(segments) == segments
  {
    if segments != [] {
      FilledPlain(segments[1..]);
      assert Plain(segments[0]);
    }
  }

  lemma {:induction false} ResolvedPlain(segments: seq<string>)
    requires AllPlain(segments)
    ensures Resolved(segments) == segments
  {
    if segments != [] {
      ResolvedPlain(segments[..|segments| - 1]);
      assert Plain(segments[|segments| - 1]);
    }
  }

  lemma SplitAfterSlash(segments: seq<string>)
    requires AllPlain(segments) && segments != []
    ensures Path(segments) != "" && Path(segments)[0] == '/' && Split(Path(segments)[1..]) == segments
  {
    assert forall i | 0 <= i < |segments| :: Plain(segments[i]);
    SplitPath(segments);
    assert Path(segments)[0] == '/';
    assert [""] + Split(Path(segments)[1..]) == [""] + segments;
    assert ([""] + Split(Path(segments)[1..]))[1..] == ([""] + segments)[1..];
  }

  /** A path of plain segments survives the browser, and the segments read back from it are the same. */
  lemma PlainPathIsKept(segments: seq<string>)
    requires AllPlain(segments) && segments != []
    ensures BrowserPath(Path(segments)) == Path(segments)
    ensures Filled(Split(Path(segments))) == segments
  {
    assert forall i | 0 <= i < |segments| :: Plain(segments[i]);
    SplitPath(segments);
    FilledPlain(segments);
    assert ([""] + segments)[1..] == segments;
    ResolvedPlain(segments);
    SplitAfterSlash(segments);
    assert Plain(segments[|segments| - 1]);
    assert segments + [] == segments;
  }

  lemma {:induction false} SplitHasNoSlash(t: string)
    ensures forall i | 0 <= i < |Split(t)| :: NoSlash(Split(t)[i])
  {
    if t != "" {
      SplitHasNoSlash(t[1..]);
      var r := Split(t[1..]);
      assert NoSlash(r[0]);
      assert NoSlash([t[0]] + r[0]) || t[0] == '/';
    }
  }

  lemma {:induction false} ResolvedMembers(segments: seq<string>)
    ensures forall x | x in Resolved(segments) :: x in segments && !IsDot(x) && !IsDoubleDot(x)
  {
    if segments != [] {
      ResolvedMembers(segments[..|segments| - 1]);
    }
  }

  lemma ShownMembers(segments: seq<string>)
    requires segments != [] && forall i | 0 <= i < |segments| :: NoSlash(segments[i])
    ensures forall i | 0 <= i < |Shown(segments)| :: NoSlash(Shown(segments)[i]) && (Shown(segments)[i] == "" || Plain(Shown(segments)[i]))
  {
    ResolvedMembers(segments);
    var resolved, shown := Resolved(segments), Shown(segments);
    forall i | 0 <= i < |shown| ensures NoSlash(shown[i]) && (shown[i] == "" || Plain(shown[i])) {
      if i < |resolved| {
        assert shown[i] in resolved;
      } else {
        assert shown[i] == "";
      }
    }
  }

  lemma {:induction false} FilledOfPlain(segments: seq<string>)
    requires forall i | 0 <= i < |segments| :: segments[i] == "" || Plain(segments[i])
    ensures AllPlain(Filled(segments))
  {
    if segments != [] {
      FilledOfPlain(segments[1..]);
    }
  }

  /** Whatever the path, a browser shows only plain segments, apart from empty ones. */
  lemma BrowserSegmentsArePlain(path: string)
    ensures AllPlain(Filled(Split(BrowserPath(path))))
  {
    var text := if path != "" && path[0] == '/' then path[1..] else path;
    SplitHasNoSlash(text);
    ShownMembers(Split(text));
    SplitPath(Shown(Split(text)));
    FilledOfPlain([""] + Shown(Split(text)));
  }

  lemma {:induction false} PathAppend(a: seq<string>, b: seq<string>)
    ensures Path(a + b) == Path(a) + Path(b)
  {
    if a == [] {
      assert a + b == b;
    } else {
      PathAppend(a[1..], b);
      assert (a + b)[1..] == a[1..] + b;
    }
  }

  lemma PathOfTwo(a: string, b: string)
    ensures Path([a, b]) == "/" + a + "/" + b
  {
    assert [a, b][1..] == [b] && [b][1..] == [];
    assert Path([]) == "" && "/" + b + "" == "/" + b;
    assert Path([b]) == "/" + b;
    assert Path([a, b]) == "/" + a + Path([b]);
  }

  // ---------------------------------------------------------------- encoded segments

  /** What a route may name: not empty, and not a dot segment. */
  predicate Nameable(s: string) {
    s != "" && s != "." && s != ".."
  }

  lemma DecodeAfterDot(t: string)
    requires AfterDot(t).Some?
    ensures Decode(t) == Push('.', Decode(AfterDot(t).value))
  {
    if t[0] == '%' {
      assert EscapedByte(t) == Some(0x2E);
      assert DecodeEscape(t) == Some(('.', t[3..]));
    }
  }

  lemma DecodeDots(segment: string)
    ensures IsDot(segment) ==> DecodeRouteSegment(segment) == "."
    ensures IsDoubleDot(segment) ==> DecodeRouteSegment(segment) == ".."
  {
    if AfterDot(segment).Some? {
      DecodeAfterDot(segment);
      if IsDoubleDot(segment) {
        DecodeAfterDot(AfterDot(segment).value);
        assert "." + "." == "..";
      }
    }
  }

  lemma DecodeLength(t: string)
    ensures Decode(t) == Some("") ==> t == ""
  {
  }

  lemma EscapedDot(t: string)
    requires EscapedByte(t) == Some(0x2E)
    ensures AfterDot(t) == Some(t[3..])
  {
    var high, low := HexValue(t[1]).value, HexValue(t[2]).value;
    assert 16 * high + low == 0x2E && 0 <= low < 16;
    assert high == 2 && low == 14;
  }

  /** A text that decodes to something starting with a dot starts with a dot, plain or escaped. */
  lemma DecodedDot(t: string)
    requires Decode(t).Some? && Decode(t).value != "" && Decode(t).value[0] == '.'
    ensures AfterDot(t).Some?
    ensures Decode(AfterDot(t).value) == Some(Decode(t).value[1..])
  {
    if t[0] == '%' {
      assert EscapedByte(t) == Some(0x2E);
      EscapedDot(t);
    }
    DecodeAfterDot(t);
  }

  lemma PlainIsNoDot(segment: string)
    requires Plain(segment)
    ensures DecodeRouteSegment(segment) != "." && DecodeRouteSegment(segment) != ".."
  {
    var name := DecodeRouteSegment(segment);
    if name == "." || name == ".." {
      DecodedDot(segment);
      var rest := AfterDot(segment).value;
      assert Decode(rest) == Some(name[1..]);
      DecodeLength(rest);
      if name == ".." {
        assert name[1..] == ".";
        DecodedDot(rest);
        DecodeLength(AfterDot(rest).value);
      }
    }
  }

  /** An encoded name is a plain segment. */
  lemma EncodedIsPlain(s: string)
    requires Nameable(s)
    ensures Plain(Encode(s)) && Plain(EncodeRouteId(s))
  {
    DecodeUndoesEncode(s);
    EncodedHasNoSlash(s);
    RestoreIsAligned(s);
    DecodeDots(Encode(s));
    DecodeDots(EncodeRouteId(s));
  }

  lemma {:induction false} EncodePlain(s: string)
    requires forall i | 0 <= i < |s| :: Unreserved(s[i])
    ensures Encode(s) == s
  {
    if s != "" {
      EncodePlain(s[1..]);
      assert s == [s[0]] + s[1..];
    }
  }

  lemma {:induction false} DecodeUnescaped(s: string)
    requires forall i | 0 <= i < |s| :: s[i] != '%'
    ensures DecodeRouteSegment(s) == s && Decode(s).Some?
  {
    if s != "" {
      DecodeUnescaped(s[1..]);
      assert s == [s[0]] + s[1..];
    }
  }
}
