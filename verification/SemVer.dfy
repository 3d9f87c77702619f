/** Versions in the grammar of Semantic Versioning 2.0.0, and the release channel each one belongs to. */
module SemVer {
  import opened Text
  import Decimal

  /** The parts of a version; a missing pre-release or build part has no identifiers. */
  datatype Version = Version(major: string, minor: string, patch: string, pre: seq<string>, build: seq<string>)

  predicate IsIdentifierChar(c: char) {
    IsDigit(c) || 'A' <= c <= 'Z' || 'a' <= c <= 'z' || c == '-'
  }

  /** The pattern `0|[1-9][0-9]*`. */
  predicate IsNumeric(s: string) {
    s != "" && AllDigits(s) && (s[0] == '0' ==> s == "0")
  }

  predicate IsBuildIdentifier(s: string) {
    s != "" && forall i | 0 <= i < |s| :: IsIdentifierChar(s[i])
  }

  /** A number without leading zeros, or an identifier with something other than a digit in it. */
  predicate IsPreIdentifier(s: string) {
    IsNumeric(s) || (IsBuildIdentifier(s) && !AllDigits(s))
  }

  predicate WellFormed(v: Version) {
    && IsNumeric(v.major) && IsNumeric(v.minor) && IsNumeric(v.patch)
    && (forall i | 0 <= i < |v.pre| :: IsPreIdentifier(v.pre[i]))
    && (forall i | 0 <= i < |v.build| :: IsBuildIdentifier(v.build[i]))
  }

  function Dotted(parts: seq<string>): string {
    if parts == [] then "" else if |parts| == 1 then parts[0] else parts[0] + "." + Dotted(parts[1..])
  }

  function Core(v: Version): string {
    v.major + "." + v.minor + "." + v.patch
  }

  function Print(v: Version): string {
    Core(v) + (if v.pre == [] then "" else "-" + Dotted(v.pre)) + (if v.build == [] then "" else "+" + Dotted(v.build))
  }

  /** The strings that `semverPattern` matches. */
  ghost predicate Matches(s: string) {
    exists v :: WellFormed(v) && s == Print(v)
  }

  // ---------------------------------------------------------------- the channel rule

  /** `SplitN(s, "+", 2)[0]`. */
  function BeforePlus(s: string): string {
    if s == "" || s[0] == '+' then "" else [s[0]] + BeforePlus(s[1..])
  }

  function ExpectedChannel(version: string): string {
    if '-' in BeforePlus(version) then "prerelease" else "stable"
  }

  /** `validateChannelVersion`. */
  predicate ValidChannel(channel: string, version: string) {
    channel == ExpectedChannel(version)
  }

  lemma {:induction false} BeforePlusOf(a: string, b: string)
    requires '+' !in a && (b == "" || b[0] == '+')
    ensures BeforePlus(a + b) == a
  {
    if a == "" {
      assert a + b == b;
    } else {
      assert (a + b)[1..] == a[1..] + b;
      BeforePlusOf(a[1..], b);
    }
  }

  lemma NumericIsPlain(s: string)
    requires IsNumeric(s)
    ensures '+' !in s && '-' !in s
  {
    assert forall c | c in s :: IsDigit(c);
  }

  lemma {:induction false} DottedHasNoPlus(parts: seq<string>)
    requires forall i | 0 <= i < |parts| :: '+' !in parts[i]
    ensures '+' !in Dotted(parts)
  {
    if |parts| > 1 {
      DottedHasNoPlus(parts[1..]);
    }
  }

  lemma CoreIsPlain(v: Version)
    requires WellFormed(v)
    ensures '+' !in Core(v) && '-' !in Core(v)
  {
    NumericIsPlain(v.major);
    NumericIsPlain(v.minor);
    NumericIsPlain(v.patch);
  }

  lemma PreHasNoPlus(v: Version)
    requires WellFormed(v)
    ensures '+' !in Dotted(v.pre)
  {
    forall i | 0 <= i < |v.pre| ensures '+' !in v.pre[i] {
      assert IsPreIdentifier(v.pre[i]);
      assert forall k | 0 <= k < |v.pre[i]| :: IsIdentifierChar(v.pre[i][k]) || IsDigit(v.pre[i][k]);
    }
    DottedHasNoPlus(v.pre);
  }

  /** For every version in the grammar, the channel must be "prerelease" exactly when a pre-release part is present,
      whatever the build metadata contains (sections 9 and 10 of Semantic Versioning 2.0.0). */
  lemma ChannelFollowsPreRelease(v: Version, channel: string)
    requires WellFormed(v)
    ensures ValidChannel(channel, Print(v)) <==> channel == (if v.pre != [] then "prerelease" else "stable")
  {
    var pre := if v.pre == [] then "" else "-" + Dotted(v.pre);
    var build := if v.build == [] then "" else "+" + Dotted(v.build);
    CoreIsPlain(v);
    PreHasNoPlus(v);
    BeforePlusOf(Core(v) + pre, build);
    assert v.pre != [] ==> pre[0] == '-' && '-' in pre;
  }

  /** Which parts a version has does not depend on how it is taken apart. */
  lemma PreReleaseIsDetermined(v: Version, w: Version)
    requires WellFormed(v) && WellFormed(w) && Print(v) == Print(w)
    ensures v.pre != [] <==> w.pre != []
  {
    ChannelFollowsPreRelease(v, "stable");
    ChannelFollowsPreRelease(w, "stable");
  }

  /** A numeric part is the decimal notation of a number, so it has no leading zero; a pre-release identifier of digits
      only is one too (section 9 of Semantic Versioning 2.0.0). */
  lemma NumericIsDecimal(s: string)
    ensures IsNumeric(s) <==> exists n: nat :: s == Decimal.ShowNat(n)
    ensures AllDigits(s) ==> (IsPreIdentifier(s) <==> exists n: nat :: s == Decimal.ShowNat(n))
  {
    if IsNumeric(s) {
      Decimal.ShowOf(s);
      assert s == Decimal.ShowNat(Decimal.NatOf(s));
    }
    if n: nat :| s == Decimal.ShowNat(n) {
      Decimal.NatOfShow(n);
      assert n == 0 ==> s == "0";
    }
  }
}
