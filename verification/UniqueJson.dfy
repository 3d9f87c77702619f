/** JSON documents as token streams, and the streaming check that no object repeats a key. */
module UniqueJson {
  import opened Prelude

  datatype Json =
    | JString(text: string)
    | JNumber(numeral: string)
    | JBool(value: bool)
    | JNull
    | JArray(items: seq<Json>)
    | JObject(members: seq<Member>)

  datatype Member = Member(key: string, value: Json)

  datatype Token =
    | ObjectOpen | ObjectClose | ArrayOpen | ArrayClose
    | Text(text: string) | Number(numeral: string) | Bool(value: bool) | Null

  // ---------------------------------------------------------------- documents and their token streams

  function Tokens(v: Json): seq<Token> {
    match v
    case JString(s) => [Text(s)]
    case JNumber(n) => [Number(n)]
    case JBool(b) => [Bool(b)]
    case JNull => [Null]
    case JArray(items) => [ArrayOpen] + ItemTokens(items) + [ArrayClose]
    case JObject(members) => [ObjectOpen] + MemberTokens(members) + [ObjectClose]
  }

  function ItemTokens(items: seq<Json>): seq<Token> {
    if items == [] then [] else Tokens(items[0]) + ItemTokens(items[1..])
  }

  function MemberTokens(members: seq<Member>): seq<Token> {
    if members == [] then [] else [Text(members[0].key)] + Tokens(members[0].value) + MemberTokens(members[1..])
  }

  /** No object at any depth repeats a key. */
  predicate Unique(v: Json) {
    match v
    case JArray(items) => forall i | 0 <= i < |items| :: Unique(items[i])
    case JObject(members) =>
      DistinctKeys(members) && forall i | 0 <= i < |members| :: Unique(members[i].value)
    case _ => true
  }

  // ---------------------------------------------------------------- the check, on what remains of the stream

  /** Consumes one value; fails on the end of input, a stray delimiter or a repeated key. */
  function Consume(ts: seq<Token>): (r: Option<seq<Token>>)
    ensures r.Some? ==> |r.value| < |ts|
    decreases |ts|, 0
  {
    if ts == [] then None
    else match ts[0]
      case ObjectOpen => ConsumeMembers(ts[1..], {})
      case ArrayOpen => ConsumeItems(ts[1..])
      case ObjectClose => None
      case ArrayClose => None
      case _ => Some(ts[1..])
  }

  function ConsumeItems(ts: seq<Token>): (r: Option<seq<Token>>)
    ensures r.Some? ==> |r.value| < |ts|
    decreases |ts|, 1
  {
    if ts == [] || ts[0] == ObjectClose then None
    else if ts[0] == ArrayClose then Some(ts[1..])
    else
      var rest := Consume(ts);
      if rest.None? then None else ConsumeItems(rest.value)
  }

  function ConsumeMembers(ts: seq<Token>, seen: set<string>): (r: Option<seq<Token>>)
    ensures r.Some? ==> |r.value| < |ts|
    decreases |ts|, 0
  {
    if ts == [] || ts[0] == ArrayClose then None
    else if ts[0] == ObjectClose then Some(ts[1..])
    else if !ts[0].Text? || ts[0].text in seen then None
    else
      var rest := Consume(ts[1..]);
      if rest.None? then None else ConsumeMembers(rest.value, seen + {ts[0].text})
  }

  // ---------------------------------------------------------------- accepted exactly when unique

  lemma Wrapped(opening: Token, inner: seq<Token>, closing: Token, rest: seq<Token>)
    ensures [opening] + inner + [closing] + rest == [opening] + (inner + ([closing] + rest))
  {
  }

  lemma ConsumeOpening(ts: seq<Token>)
    ensures Consume([ArrayOpen] + ts) == ConsumeItems(ts)
    ensures Consume([ObjectOpen] + ts) == ConsumeMembers(ts, {})
  {
    assert ([ArrayOpen] + ts)[1..] == ts && ([ObjectOpen] + ts)[1..] == ts;
  }

  lemma ConsumeScalar(t: Token, rest: seq<Token>)
    requires t.Text? || t.Number? || t.Bool? || t.Null?
    ensures Consume([t] + rest) == Some(rest)
  {
    assert ([t] + rest)[1..] == rest;
  }

  lemma {:induction false} ConsumeTokens(v: Json, rest: seq<Token>)
    ensures Consume(Tokens(v) + rest) == if Unique(v) then Some(rest) else None
    decreases v, 0
  {
    match v
    case JString(s) => ConsumeScalar(Text(s), rest);
    case JNumber(n) => ConsumeScalar(Number(n), rest);
    case JBool(b) => ConsumeScalar(Bool(b), rest);
    case JNull => ConsumeScalar(Null, rest);
    case JArray(items) =>
      Wrapped(ArrayOpen, ItemTokens(items), ArrayClose, rest);
      ConsumeOpening(ItemTokens(items) + ([ArrayClose] + rest));
      ConsumeItemTokens(v, items, rest);
    case JObject(members) =>
      Wrapped(ObjectOpen, MemberTokens(members), ObjectClose, rest);
      ConsumeOpening(MemberTokens(members) + ([ObjectClose] + rest));
      ConsumeMemberTokens(v, members, {}, rest);
  }

  lemma {:induction false} StartsValue(v: Json)
    ensures Tokens(v) != [] && Tokens(v)[0] != ArrayClose && Tokens(v)[0] != ObjectClose
  {
  }

  lemma {:induction false} ConsumeItemTokens(parent: Json, items: seq<Json>, rest: seq<Token>)
    requires forall i | 0 <= i < |items| :: items[i] < parent
    ensures ConsumeItems(ItemTokens(items) + ([ArrayClose] + rest))
            == if forall i | 0 <= i < |items| :: Unique(items[i]) then Some(rest) else None
    decreases parent, 0, |items|
  {
    var ts := ItemTokens(items) + ([ArrayClose] + rest);
    if items == [] {
      assert ts == [ArrayClose] + rest;
      assert ts[1..] == rest;
    } else {
      var after := ItemTokens(items[1..]) + ([ArrayClose] + rest);
      assert ts == Tokens(items[0]) + after;
      StartsValue(items[0]);
      ConsumeTokens(items[0], after);
      ConsumeItemTokens(parent, items[1..], rest);
      assert (forall i | 0 <= i < |items| :: Unique(items[i]))
        <==> Unique(items[0]) && forall i | 0 <= i < |items[1..]| :: Unique(items[1..][i]);
    }
  }

  predicate NewKeys(members: seq<Member>, seen: set<string>) {
    DistinctKeys(members) && forall i | 0 <= i < |members| :: members[i].key !in seen
  }

  lemma NewKeysHead(members: seq<Member>, seen: set<string>)
    requires members != []
    ensures NewKeys(members, seen) <==> members[0].key !in seen && NewKeys(members[1..], seen + {members[0].key})
  {
    var tail := members[1..];
    assert forall i | 0 <= i < |tail| :: tail[i] == members[i + 1];
    if members[0].key !in seen && NewKeys(tail, seen + {members[0].key}) {
      forall i, j | 0 <= i < j < |members| ensures members[i].key != members[j].key {
        assert members[j] == tail[j - 1];
        if i > 0 {
          assert members[i] == tail[i - 1];
        }
      }
      forall i | 0 <= i < |members| ensures members[i].key !in seen {
        if i > 0 {
          assert members[i] == tail[i - 1];
        }
      }
    }
  }

  lemma {:induction false} ConsumeMemberTokens(parent: Json, members: seq<Member>, seen: set<string>, rest: seq<Token>)
    requires forall i | 0 <= i < |members| :: members[i].value < parent
    ensures ConsumeMembers(MemberTokens(members) + ([ObjectClose] + rest), seen)
            == if NewKeys(members, seen) && (forall i | 0 <= i < |members| :: Unique(members[i].value)) then Some(rest) else None
    decreases parent, 0, |members|
  {
    var ts := MemberTokens(members) + ([ObjectClose] + rest);
    if members == [] {
      assert ts == [ObjectClose] + rest;
      assert ts[1..] == rest;
    } else {
      var Member(key, value) := members[0];
      var after := MemberTokens(members[1..]) + ([ObjectClose] + rest);
      assert ts == [Text(key)] + (Tokens(value) + after);
      assert ts[1..] == Tokens(value) + after;
      ConsumeTokens(value, after);
      ConsumeMemberTokens(parent, members[1..], seen + {key}, rest);
      NewKeysHead(members, seen);
      assert (forall i | 0 <= i < |members| :: Unique(members[i].value))
        <==> Unique(value) && forall i | 0 <= i < |members[1..]| :: Unique(members[1..][i].value);
    }
  }

  /** Whatever the check accepts is the token stream of a document without repeated keys. */
  lemma {:induction false} AcceptedIsDocument(ts: seq<Token>) returns (v: Json)
    requires Consume(ts).Some?
    ensures ts == Tokens(v) + Consume(ts).value && Unique(v)
    decreases |ts|, 0
  {
    assert ts == [ts[0]] + ts[1..];
    match ts[0]
    case Text(s) => v := JString(s);
    case Number(n) => v := JNumber(n);
    case Bool(b) => v := JBool(b);
    case Null => v := JNull;
    case ArrayOpen =>
      var items := AcceptedItems(ts[1..]);
      v := JArray(items);
    case ObjectOpen =>
      var members := AcceptedMembers(ts[1..], {});
      v := JObject(members);
  }

  lemma {:induction false} AcceptedItems(ts: seq<Token>) returns (items: seq<Json>)
    requires ConsumeItems(ts).Some?
    ensures ts == (ItemTokens(items) + [ArrayClose]) + ConsumeItems(ts).value
    ensures forall i | 0 <= i < |items| :: Unique(items[i])
    decreases |ts|, 1
  {
    if ts[0] == ArrayClose {
      items := [];
      assert ts == [ArrayClose] + ts[1..];
    } else {
      var first := AcceptedIsDocument(ts);
      var others := AcceptedItems(Consume(ts).value);
      items := [first] + others;
      assert items[1..] == others;
    }
  }

  lemma {:induction false} AcceptedMembers(ts: seq<Token>, seen: set<string>) returns (members: seq<Member>)
    requires ConsumeMembers(ts, seen).Some?
    ensures ts == (MemberTokens(members) + [ObjectClose]) + ConsumeMembers(ts, seen).value
    ensures NewKeys(members, seen) && forall i | 0 <= i < |members| :: Unique(members[i].value)
    decreases |ts|, 0
  {
    assert ts == [ts[0]] + ts[1..];
    if ts[0] == ObjectClose {
      members := [];
    } else {
      var key := ts[0].text;
      var value := AcceptedIsDocument(ts[1..]);
      var others := AcceptedMembers(Consume(ts[1..]).value, seen + {key});
      members := PrependMember(key, value, others, seen, ConsumeMembers(ts, seen).value);
    }
  }

  lemma PrependMember(key: string, value: Json, others: seq<Member>, seen: set<string>, rest: seq<Token>)
    returns (members: seq<Member>)
    requires key !in seen && Unique(value) && NewKeys(others, seen + {key})
    requires forall i | 0 <= i < |others| :: Unique(others[i].value)
    ensures [Text(key)] + (Tokens(value) + ((MemberTokens(others) + [ObjectClose]) + rest))
            == (MemberTokens(members) + [ObjectClose]) + rest
    ensures NewKeys(members, seen) && forall i | 0 <= i < |members| :: Unique(members[i].value)
  {
    members := [Member(key, value)] + others;
    assert members[1..] == others;
    NewKeysHead(members, seen);
  }

  // ---------------------------------------------------------------- decoding into maps

  datatype Value =
    | VString(text: string)
    | VNumber(numeral: string)
    | VBool(value: bool)
    | VNull
    | VArray(items: seq<Value>)
    | VObject(members: map<string, Value>)

  function Decode(v: Json): Value {
    match v
    case JString(s) => VString(s)
    case JNumber(n) => VNumber(n)
    case JBool(b) => VBool(b)
    case JNull => VNull
    case JArray(items) => VArray(seq(|items|, i requires 0 <= i < |items| => Decode(items[i])))
    case JObject(members) => VObject(DecodeMembers(members))
  }

  /** A later member replaces an earlier one with the same key. */
  function DecodeMembers(members: seq<Member>): map<string, Value> {
    if members == [] then map[]
    else
      var last := members[|members| - 1];
      DecodeMembers(members[..|members| - 1])[last.key := Decode(last.value)]
  }

  /** At every depth the decoded map has as many members as the object it came from. */
  predicate Lossless(v: Json) {
    match v
    case JArray(items) => forall i | 0 <= i < |items| :: Lossless(items[i])
    case JObject(members) =>
      |DecodeMembers(members)| == |members| && forall i | 0 <= i < |members| :: Lossless(members[i].value)
    case _ => true
  }

  lemma {:induction false} DecodedKey(members: seq<Member>, key: string)
    ensures key in DecodeMembers(members) <==> exists i | 0 <= i < |members| :: members[i].key == key
  {
    if members != [] {
      var front := members[..|members| - 1];
      DecodedKey(front, key);
      if i :| 0 <= i < |members| && members[i].key == key {
        assert i < |front| ==> front[i].key == key;
      }
    }
  }

  lemma MapUpdateSize<K, V>(m: map<K, V>, k: K, v: V)
    ensures |m[k := v]| == |m| + if k in m then 0 else 1
  {
    assert m[k := v].Keys == m.Keys + {k};
    assert |m[k := v]| == |m[k := v].Keys| && |m| == |m.Keys|;
    assert k in m ==> m.Keys + {k} == m.Keys;
  }

  predicate DistinctKeys(members: seq<Member>) {
    forall i, j | 0 <= i < j < |members| :: members[i].key != members[j].key
  }

  lemma DistinctKeysSnoc(members: seq<Member>)
    requires members != []
    ensures var front, last := members[..|members| - 1], members[|members| - 1];
            DistinctKeys(members) <==> DistinctKeys(front) && forall i | 0 <= i < |front| :: front[i].key != last.key
  {
    var front := members[..|members| - 1];
    assert forall i | 0 <= i < |front| :: front[i] == members[i];
  }

  lemma {:induction false} DecodedSize(members: seq<Member>)
    ensures |DecodeMembers(members)| <= |members|
    ensures |DecodeMembers(members)| == |members| <==> DistinctKeys(members)
  {
    if members != [] {
      var front, last := members[..|members| - 1], members[|members| - 1];
      DecodedSize(front);
      DecodedKey(front, last.key);
      MapUpdateSize(DecodeMembers(front), last.key, Decode(last.value));
      DistinctKeysSnoc(members);
    }
  }

  /** Decoding an accepted document loses no member, and decoding any other document loses one. */
  lemma {:induction false} UniqueIsLossless(v: Json)
    ensures Unique(v) <==> Lossless(v)
  {
    match v
    case JArray(items) =>
      forall i | 0 <= i < |items| ensures Unique(items[i]) <==> Lossless(items[i]) {
        UniqueIsLossless(items[i]);
      }
    case JObject(members) =>
      DecodedSize(members);
      forall i | 0 <= i < |members| ensures Unique(members[i].value) <==> Lossless(members[i].value) {
        UniqueIsLossless(members[i].value);
      }
    case _ =>
  }

  /** In a document without repeated keys every member can be read back from the map. */
  lemma {:induction false} MemberSurvives(members: seq<Member>, i: nat)
    requires i < |members| && NewKeys(members, {})
    ensures members[i].key in DecodeMembers(members)
    ensures DecodeMembers(members)[members[i].key] == Decode(members[i].value)
  {
    if i < |members| - 1 {
      var front := members[..|members| - 1];
      assert forall j | 0 <= j < |front| :: front[j] == members[j];
      MemberSurvives(front, i);
    }
  }

  // ---------------------------------------------------------------- the stateful decoder

  /** A tokenizer: the tokens that remain and the delimiters that are open (true for an object). */
  class Decoder {
    var rest: seq<Token>
    var open: seq<bool>

    constructor (contents: seq<Token>)
      ensures rest == contents && open == []
    {
      rest, open := contents, [];
    }

    /** The next token; fails at the end of input and on a closing delimiter that does not match. */
    method Next() returns (token: Option<Token>)
      modifies this
      ensures token.None? <==> old(rest) == []
                               || (old(rest)[0].ObjectClose? && (old(open) == [] || !old(open)[|old(open)| - 1]))
                               || (old(rest)[0].ArrayClose? && (old(open) == [] || old(open)[|old(open)| - 1]))
      ensures token.Some? ==>
                && token.value == old(rest)[0] && rest == old(rest)[1..]
                && open == if token.value.ObjectOpen? then old(open) + [true]
                           else if token.value.ArrayOpen? then old(open) + [false]
                           else if token.value.ObjectClose? || token.value.ArrayClose? then old(open)[..|old(open)| - 1]
                           else old(open)
    {
      if |rest| == 0 {
        return None;
      }
      var t := rest[0];
      if t.ObjectClose? || t.ArrayClose? {
        if |open| == 0 || open[|open| - 1] != t.ObjectClose? {
          return None;
        }
        open := open[..|open| - 1];
      } else if t.ObjectOpen? || t.ArrayOpen? {
        open := open + [t.ObjectOpen?];
      }
      rest := rest[1..];
      token := Some(t);
    }

    method More() returns (more: bool)
      ensures more <==> rest != [] && rest[0] != ObjectClose && rest[0] != ArrayClose
    {
      more := |rest| > 0 && rest[0] != ObjectClose && rest[0] != ArrayClose;
    }
  }

  method ConsumeUniqueJsonValue(decoder: Decoder) returns (ok: bool)
    modifies decoder
    ensures ok <==> Consume(old(decoder.rest)).Some?
    ensures ok ==> decoder.rest == Consume(old(decoder.rest)).value && decoder.open == old(decoder.open)
    decreases |decoder.rest|, 1
  {
    var token := decoder.Next();
    if token.None? {
      return false;
    }
    match token.value
    case ObjectOpen => ok := ConsumeUniqueMembers(decoder);
    case ArrayOpen => ok := ConsumeUniqueItems(decoder);
    case ObjectClose => return false;
    case ArrayClose => return false;
    case _ => return true;
  }

  method ConsumeUniqueMembers(decoder: Decoder) returns (ok: bool)
    requires decoder.open != [] && decoder.open[|decoder.open| - 1]
    modifies decoder
    ensures ok <==> ConsumeMembers(old(decoder.rest), {}).Some?
    ensures ok ==> decoder.rest == ConsumeMembers(old(decoder.rest), {}).value
                   && decoder.open == old(decoder.open)[..|old(decoder.open)| - 1]
    decreases |decoder.rest|, 2
  {
    var seen: set<string> := {};
    var more := decoder.More();
    while more
      invariant more <==> decoder.rest != [] && decoder.rest[0] != ObjectClose && decoder.rest[0] != ArrayClose
      invariant decoder.open == old(decoder.open) && |decoder.rest| <= |old(decoder.rest)|
      invariant ConsumeMembers(decoder.rest, seen) == ConsumeMembers(old(decoder.rest), {})
      decreases |decoder.rest|
    {
      var keyToken := decoder.Next();
      if keyToken.None? || !keyToken.value.Text? || keyToken.value.text in seen {
        return false;
      }
      seen := seen + {keyToken.value.text};
      var consumed := ConsumeUniqueJsonValue(decoder);
      if !consumed {
        return false;
      }
      more := decoder.More();
    }
    var close := decoder.Next();
    ok := close.Some?;
  }

  method ConsumeUniqueItems(decoder: Decoder) returns (ok: bool)
    requires decoder.open != [] && !decoder.open[|decoder.open| - 1]
    modifies decoder
    ensures ok <==> ConsumeItems(old(decoder.rest)).Some?
    ensures ok ==> decoder.rest == ConsumeItems(old(decoder.rest)).value
                   && decoder.open == old(decoder.open)[..|old(decoder.open)| - 1]
    decreases |decoder.rest|, 2
  {
    var more := decoder.More();
    while more
      invariant more <==> decoder.rest != [] && decoder.rest[0] != ObjectClose && decoder.rest[0] != ArrayClose
      invariant decoder.open == old(decoder.open) && |decoder.rest| <= |old(decoder.rest)|
      invariant ConsumeItems(decoder.rest) == ConsumeItems(old(decoder.rest))
      decreases |decoder.rest|
    {
      var consumed := ConsumeUniqueJsonValue(decoder);
      if !consumed {
        return false;
      }
      more := decoder.More();
    }
    var close := decoder.Next();
    ok := close.Some?;
  }
}
