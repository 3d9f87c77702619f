/** The values of a release manifest: as the generator builds them in memory, and as they come back from JSON text. */
module ManifestValues {
  import opened Prelude
  import opened Text
  import opened UniqueJson
  import Decimal

  const MIN_INT64 := -0x8000_0000_0000_0000
  const MAX_INT64 := 0x7FFF_FFFF_FFFF_FFFF

  type int64 = n: int | MIN_INT64 <= n <= MAX_INT64

  /** Go's `any`, as far as manifests hold it. */
  datatype Any =
    | AText(text: string)
    | ANumber(numeral: string)
    | AInt(n: int64)
    | AInt64(n: int64)
    | AStrings(strings: seq<string>)
    | AList(items: seq<Any>)
    | AObject(fields: map<string, Any>)
    | ABool(value: bool)
    | ANull

  /** The value that a decoder with `UseNumber` reads from the text written for `v`. */
  function Wire(v: Any): Any {
    match v
    case AInt(n) => ANumber(Decimal.Show(n))
    case AInt64(n) => ANumber(Decimal.Show(n))
    case AStrings(texts) => AList(seq(|texts|, i requires 0 <= i < |texts| => AText(texts[i])))
    case AList(items) => AList(seq(|items|, i requires 0 <= i < |items| => Wire(items[i])))
    case AObject(fields) => AObject(map k | k in fields :: Wire(fields[k]))
    case _ => v
  }

  function WireFields(fields: map<string, Any>): map<string, Any> {
    map k | k in fields :: Wire(fields[k])
  }

  // ---------------------------------------------------------------- the written document

  function Received(v: Value): Any {
    match v
    case VString(s) => AText(s)
    case VNumber(n) => ANumber(n)
    case VBool(b) => ABool(b)
    case VNull => ANull
    case VArray(items) => AList(seq(|items|, i requires 0 <= i < |items| => Received(items[i])))
    case VObject(fields) => AObject(map k | k in fields :: Received(fields[k]))
  }

  /** `j` is a JSON document for `v`: numbers in decimal, and each field of an object once, in whatever order. */
  predicate Writes(j: Json, v: Any) {
    match v
    case AText(s) => j == JString(s)
    case ANumber(n) => j == JNumber(n)
    case AInt(n) => j == JNumber(Decimal.Show(n))
    case AInt64(n) => j == JNumber(Decimal.Show(n))
    case ABool(b) => j == JBool(b)
    case ANull => j == JNull
    case AStrings(texts) => j.JArray? && |j.items| == |texts| && forall i | 0 <= i < |texts| :: j.items[i] == JString(texts[i])
    case AList(items) => j.JArray? && |j.items| == |items| && forall i | 0 <= i < |items| :: Writes(j.items[i], items[i])
    case AObject(fields) =>
      && j.JObject? && DistinctKeys(j.members)
      && (forall i | 0 <= i < |j.members| :: j.members[i].key in fields && Writes(j.members[i].value, fields[j.members[i].key]))
      && (forall k {:trigger HasKey(j.members, k)} | k in fields :: HasKey(j.members, k))
  }

  predicate HasKey(members: seq<Member>, key: string) {
    exists i | 0 <= i < |members| :: members[i].key == key
  }

  /** `decodeManifest`, on the document and whatever tokens trail it. */
  function DecodeManifest(j: Json, trailing: seq<Token>): Option<Any> {
    if Consume(Tokens(j) + trailing) == Some([]) then Some(Received(Decode(j))) else None
  }

  lemma {:induction false} WrittenIsUnique(j: Json, v: Any)
    requires Writes(j, v)
    ensures Unique(j)
  {
    match v
    case AList(items) =>
      forall i | 0 <= i < |items| ensures Unique(j.items[i]) {
        WrittenIsUnique(j.items[i], items[i]);
      }
    case AObject(fields) =>
      forall i | 0 <= i < |j.members| ensures Unique(j.members[i].value) {
        WrittenIsUnique(j.members[i].value, fields[j.members[i].key]);
      }
    case _ =>
  }

  /** Reading a written value back gives its wire form. */
  lemma {:induction false} WrittenIsReceived(j: Json, v: Any)
    requires Writes(j, v)
    ensures Received(Decode(j)) == Wire(v)
  {
    match v
    case AList(items) =>
      forall i | 0 <= i < |items| ensures Received(Decode(j.items[i])) == Wire(items[i]) {
        WrittenIsReceived(j.items[i], items[i]);
      }
    case AObject(fields) =>
      forall i | 0 <= i < |j.members| ensures Received(Decode(j.members[i].value)) == Wire(fields[j.members[i].key]) {
        WrittenIsReceived(j.members[i].value, fields[j.members[i].key]);
      }
      MembersReceived(j.members, fields);
    case _ =>
  }

  lemma MemberReceived(members: seq<Member>, fields: map<string, Any>, k: string)
    requires DistinctKeys(members)
    requires forall i | 0 <= i < |members| ::
               members[i].key in fields && Received(Decode(members[i].value)) == Wire(fields[members[i].key])
    requires k in fields ==> HasKey(members, k)
    ensures k in DecodeMembers(members) <==> k in fields
    ensures k in fields ==> Received(DecodeMembers(members)[k]) == Wire(fields[k])
  {
    DecodedKey(members, k);
    if k in fields {
      var i :| 0 <= i < |members| && members[i].key == k;
      MemberSurvives(members, i);
    }
  }

  function ReceivedFields(fields: map<string, Value>): map<string, Any> {
    map k | k in fields :: Received(fields[k])
  }

  lemma MembersReceived(members: seq<Member>, fields: map<string, Any>)
    requires DistinctKeys(members)
    requires forall i | 0 <= i < |members| ::
               members[i].key in fields && Received(Decode(members[i].value)) == Wire(fields[members[i].key])
    requires forall k {:trigger HasKey(members, k)} | k in fields :: HasKey(members, k)
    ensures ReceivedFields(DecodeMembers(members)) == WireFields(fields)
  {
    var got, want := ReceivedFields(DecodeMembers(members)), WireFields(fields);
    forall k ensures k in got <==> k in want {
      MemberReceived(members, fields, k);
    }
    forall k | k in want ensures got[k] == want[k] {
      MemberReceived(members, fields, k);
    }
  }

  /** A written value passes the duplicate-key check and is decoded to its wire form. */
  lemma WrittenIsDecoded(j: Json, v: Any)
    requires Writes(j, v)
    ensures DecodeManifest(j, []) == Some(Wire(v))
  {
    WrittenIsUnique(j, v);
    WrittenIsReceived(j, v);
    ConsumeTokens(j, []);
  }

  /** There is a document for every value. */
  lemma {:induction false} WritingExists(v: Any) returns (j: Json)
    ensures Writes(j, v)
    decreases v, 0
  {
    match v
    case AText(s) => j := JString(s);
    case ANumber(n) => j := JNumber(n);
    case AInt(n) => j := JNumber(Decimal.Show(n));
    case AInt64(n) => j := JNumber(Decimal.Show(n));
    case ABool(b) => j := JBool(b);
    case ANull => j := JNull;
    case AStrings(texts) => j := JArray(seq(|texts|, i requires 0 <= i < |texts| => JString(texts[i])));
    case AList(items) =>
      var written := ItemsExist(v, items);
      j := JArray(written);
    case AObject(fields) =>
      var members := MembersExist(v, fields, fields.Keys);
      j := JObject(members);
  }

  lemma {:induction false} ItemsExist(parent: Any, items: seq<Any>) returns (r: seq<Json>)
    requires forall i | 0 <= i < |items| :: items[i] < parent
    ensures |r| == |items| && forall i | 0 <= i < |items| :: Writes(r[i], items[i])
    decreases parent, 0, |items|
  {
    if items == [] {
      return [];
    }
    var front := ItemsExist(parent, items[..|items| - 1]);
    var last := WritingExists(items[|items| - 1]);
    r := front + [last];
  }

  ghost predicate WritesFields(members: seq<Member>, fields: map<string, Any>, keys: set<string>) {
    && DistinctKeys(members)
    && (forall i | 0 <= i < |members| ::
          members[i].key in keys && members[i].key in fields && Writes(members[i].value, fields[members[i].key]))
    && (forall k {:trigger HasKey(members, k)} | k in keys :: HasKey(members, k))
  }

  lemma {:induction false} MembersExist(parent: Any, fields: map<string, Any>, keys: set<string>) returns (r: seq<Member>)
    requires keys <= fields.Keys && forall k | k in fields :: fields[k] < parent
    ensures WritesFields(r, fields, keys)
    decreases parent, 0, |keys|
  {
    if keys == {} {
      return [];
    }
    var k :| k in keys;
    var front := MembersExist(parent, fields, keys - {k});
    var last := WritingExists(fields[k]);
    r := front + [Member(k, last)];
    forall key | key in keys ensures HasKey(r, key) {
      HasKeySnoc(front, r[|front|], key);
    }
  }

  lemma HasKeySnoc(members: seq<Member>, last: Member, key: string)
    ensures HasKey(members + [last], key) <==> HasKey(members, key) || last.key == key
  {
    var r := members + [last];
    assert r[|members|] == last;
    if HasKey(members, key) {
      var i :| 0 <= i < |members| && members[i].key == key;
      assert r[i].key == key;
    }
    if HasKey(r, key) {
      var i :| 0 <= i < |r| && r[i].key == key;
      assert i < |members| ==> members[i].key == key;
    }
  }

  // ---------------------------------------------------------------- integers

  /** The pattern `^[1-9][0-9]*$`. */
  predicate IsPositiveDecimal(s: string) {
    s != "" && AllDigits(s) && s[0] != '0'
  }

  /** `json.Number.Int64`. */
  function ParseInt64(s: string): Option<int64> {
    var n := Decimal.Read(s);
    if n.Some? && MIN_INT64 <= n.value <= MAX_INT64 then Some(n.value) else None
  }

  function PositiveInteger64(v: Any): Option<int64> {
    match v
    case ANumber(s) =>
      if IsPositiveDecimal(s) && ParseInt64(s).Some? && ParseInt64(s).value > 0 then ParseInt64(s) else None
    case AInt(n) => if n > 0 then Some(n) else None
    case AInt64(n) => if n > 0 then Some(n) else None
    case _ => None
  }

  predicate ExactInteger(v: Any, expected: int64) {
    match v
    case ANumber(s) => s == Decimal.Show(expected)
    case AInt(n) => n == expected
    case AInt64(n) => n == expected
    case _ => false
  }

  predicate ExactInteger64(v: Any, expected: int64) {
    match v
    case ANumber(s) => ParseInt64(s) == Some(expected)
    case AInt(n) => n == expected
    case AInt64(n) => n == expected
    case _ => false
  }

  lemma ShownInt64(n: int64)
    ensures ParseInt64(Decimal.Show(n)) == Some(n)
    ensures IsPositiveDecimal(Decimal.Show(n)) <==> n > 0
  {
    Decimal.ReadShow(n);
    if n > 0 {
      Decimal.NatOfShow(n);
    } else if n == 0 {
      assert Decimal.Show(0)[0] == '0';
    } else {
      assert Decimal.Show(n)[0] == '-';
    }
  }

  /** The integer checks do not tell a number in memory from the same number read from text. */
  lemma IntegersSurviveWire(v: Any, expected: int64)
    ensures PositiveInteger64(Wire(v)) == PositiveInteger64(v)
    ensures ExactInteger(Wire(v), expected) == ExactInteger(v, expected)
    ensures ExactInteger64(Wire(v), expected) == ExactInteger64(v, expected)
  {
    if v.AInt? || v.AInt64? {
      ShownInt64(v.n);
      ShownInt64(expected);
    }
  }

  // ---------------------------------------------------------------- lists of strings

  predicate AllText(items: seq<Any>) {
    forall i | 0 <= i < |items| :: items[i].AText?
  }

  function TextsOf(items: seq<Any>): (r: seq<string>)
    requires AllText(items)
    ensures |r| == |items| && forall i | 0 <= i < |items| :: r[i] == items[i].text
  {
    seq(|items|, i requires 0 <= i < |items| => items[i].text)
  }

  /** The strings of a list, from memory or from text; None where some element is not a string. */
  function StringsOf(v: Any): Option<seq<string>> {
    if v.AStrings? then Some(v.strings)
    else if v.AList? && AllText(v.items) then Some(TextsOf(v.items))
    else None
  }

  lemma StringsSurviveWire(v: Any)
    ensures StringsOf(Wire(v)) == StringsOf(v)
  {
    if v.AStrings? {
      assert TextsOf(Wire(v).items) == v.strings;
    } else if v.AList? {
      var w := Wire(v).items;
      assert forall i | 0 <= i < |w| :: w[i] == Wire(v.items[i]);
      if AllText(v.items) {
        assert w == v.items;
      } else {
        var i :| 0 <= i < |v.items| && !v.items[i].AText?;
        assert !w[i].AText?;
      }
    }
  }

  /** `requireStringArray`, and `requireArchitectures` for its own field. */
  method RequireStringArray(value: Any, expected: seq<string>) returns (ok: bool)
    ensures ok <==> StringsOf(value) == Some(expected)
  {
    var actual: seq<string>;
    if value.AList? {
      actual := [];
      for i := 0 to |value.items|
        invariant |actual| == i && forall k | 0 <= k < i :: value.items[k].AText? && actual[k] == value.items[k].text
      {
        if !value.items[i].AText? {
          return false;
        }
        actual := actual + [value.items[i].text];
      }
      assert actual == TextsOf(value.items);
    } else if value.AStrings? {
      actual := value.strings;
    } else {
      return false;
    }
    if |actual| != |expected| {
      return false;
    }
    for i := 0 to |expected|
      invariant forall k | 0 <= k < i :: actual[k] == expected[k]
    {
      if actual[i] != expected[i] {
        return false;
      }
    }
    assert actual == expected;
    return true;
  }

  /** `rejectUnknownFields`: the fields in any order, each against the allowed names. */
  method RejectUnknownFields(fields: map<string, Any>, allowed: seq<string>) returns (ok: bool)
    ensures ok <==> forall k | k in fields :: k in allowed
  {
    var left := fields.Keys;
    while left != {}
      invariant left <= fields.Keys
      invariant forall k | k in fields && k !in left :: k in allowed
    {
      var field :| field in left;
      var known := false;
      for i := 0 to |allowed|
        invariant known <==> field in allowed[..i]
      {
        if field == allowed[i] {
          known := true;
          break;
        }
      }
      if !known {
        return false;
      }
      left := left - {field};
    }
    return true;
  }

  // ---------------------------------------------------------------- fields of an object

  function Field(fields: map<string, Any>, key: string): Any {
    if key in fields then fields[key] else ANull
  }

  /** `requiredString`; the empty text where it fails. */
  function FieldText(fields: map<string, Any>, key: string): string {
    var v := Field(fields, key);
    if v.AText? then v.text else ""
  }

  /** `required` and `object`; None where either fails. */
  function FieldObject(fields: map<string, Any>, key: string): Option<map<string, Any>> {
    var v := Field(fields, key);
    if v.AObject? then Some(v.fields) else None
  }

  function FieldStrings(fields: map<string, Any>, key: string): Option<seq<string>> {
    StringsOf(Field(fields, key))
  }

  function FieldSize(fields: map<string, Any>, key: string): Option<int64> {
    PositiveInteger64(Field(fields, key))
  }

  predicate FieldIs(fields: map<string, Any>, key: string, expected: int64) {
    ExactInteger64(Field(fields, key), expected)
  }

  /** Go's comparison of an interface value with a string. */
  predicate FieldIsText(fields: map<string, Any>, key: string, expected: string) {
    Field(fields, key) == AText(expected)
  }

  lemma FieldSurvivesWire(fields: map<string, Any>, key: string)
    ensures Field(WireFields(fields), key) == Wire(Field(fields, key))
  {
  }

  lemma AnyFieldSurvivesWire(fields: map<string, Any>, k: string, n: int64, t: string)
    ensures FieldText(WireFields(fields), k) == FieldText(fields, k)
    ensures FieldStrings(WireFields(fields), k) == FieldStrings(fields, k)
    ensures FieldSize(WireFields(fields), k) == FieldSize(fields, k)
    ensures FieldIs(WireFields(fields), k, n) == FieldIs(fields, k, n)
    ensures FieldIsText(WireFields(fields), k, t) == FieldIsText(fields, k, t)
  {
    FieldSurvivesWire(fields, k);
    IntegersSurviveWire(Field(fields, k), n);
    StringsSurviveWire(Field(fields, k));
  }

  /** What the checks read of an object, they read of its wire form too. */
  lemma FieldsSurviveWire(fields: map<string, Any>)
    ensures forall k :: FieldText(WireFields(fields), k) == FieldText(fields, k)
    ensures forall k :: FieldStrings(WireFields(fields), k) == FieldStrings(fields, k)
    ensures forall k :: FieldSize(WireFields(fields), k) == FieldSize(fields, k)
    ensures forall k, n :: FieldIs(WireFields(fields), k, n) == FieldIs(fields, k, n)
    ensures forall k, t :: FieldIsText(WireFields(fields), k, t) == FieldIsText(fields, k, t)
  {
    forall k, t ensures FieldIsText(WireFields(fields), k, t) == FieldIsText(fields, k, t) {
      AnyFieldSurvivesWire(fields, k, 0, t);
    }
    forall k ensures FieldStrings(WireFields(fields), k) == FieldStrings(fields, k) {
      AnyFieldSurvivesWire(fields, k, 0, "");
    }
    forall k ensures FieldText(WireFields(fields), k) == FieldText(fields, k) {
      AnyFieldSurvivesWire(fields, k, 0, "");
    }
    forall k ensures FieldSize(WireFields(fields), k) == FieldSize(fields, k) {
      AnyFieldSurvivesWire(fields, k, 0, "");
    }
    forall k, n: int64 ensures FieldIs(WireFields(fields), k, n) == FieldIs(fields, k, n) {
      AnyFieldSurvivesWire(fields, k, n, "");
    }
  }

  lemma FieldObjectSurvivesWire(fields: map<string, Any>, key: string)
    ensures FieldObject(WireFields(fields), key).Some? <==> FieldObject(fields, key).Some?
    ensures FieldObject(fields, key).Some? ==>
              FieldObject(WireFields(fields), key).value == WireFields(FieldObject(fields, key).value)
  {
    FieldSurvivesWire(fields, key);
  }
}
