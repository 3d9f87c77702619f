/** What the identities of media items mean: when an item claims one, and when two items share one. */
module IdentityLaws {
  import opened Prelude
  import opened Text
  import opened SearchIdentity

  const PROVIDERS := ["imdb", "tmdb", "tvdb"]

  function ProviderIdentity(mediaType: string, provider: string, value: string): string {
    mediaType + ":" + provider + ":" + value
  }

  // ---------------------------------------------------------------- what an item claims

  /** The text is a provider's name in any case, a colon, and `value`. */
  predicate Names(text: string, provider: string, value: string) {
    && |text| >= 6 && Lower(text[..4]) == provider && text[4] == ':' && text[5..] == value
    && forall i | 0 <= i < |value| :: !IsLineTerminator(value[i])
  }

  /** A resource id or item id stands for `value` at the provider: `provider:value`, or an IMDb title on its own. */
  ghost predicate CandidateMeans(candidate: Option<string>, provider: string, value: string) {
    && candidate.Some?
    && var text := Trim(candidate.value);
    || (exists v :: Names(text, provider, v) && value == Normalized(v))
    || (provider == "imdb" && IsImdbTitle(text) && value == Lower(text))
  }

  /** An external id entry stands for `value` at the provider, with or without the provider's name in front. */
  predicate EntryMeans(entry: (string, string), provider: string, value: string) {
    && Normalized(entry.0) == provider && value != ""
    && (Normalized(entry.1) == provider + ":" + value
        || (Normalized(entry.1) == value && !(provider + ":" <= value)))
  }

  ghost predicate Means(item: MediaItem, provider: string, value: string) {
    || (exists i | 0 <= i < |item.externalIds| :: EntryMeans(item.externalIds[i], provider, value))
    || CandidateMeans(item.resourceId, provider, value)
    || CandidateMeans(Some(item.id), provider, value)
  }

  lemma PrefixAndRest(prefix: string, value: string)
    requires prefix <= value
    ensures value == prefix + value[|prefix|..]
  {
  }

  lemma NormalizedBlank(s: string)
    ensures Normalized(s) == "" <==> Trim(s) == ""
  {
    assert |Normalized(s)| == |Trim(s)|;
  }

  lemma EntryClaim(mediaType: string, provider: string, entry: (string, string), identity: string)
    ensures identity in EntryClaims(mediaType, provider, entry) <==>
            exists value :: EntryMeans(entry, provider, value) && identity == ProviderIdentity(mediaType, provider, value)
  {
    var text, prefix := Normalized(entry.1), provider + ":";
    NormalizedBlank(entry.1);
    var bare := if prefix <= text then text[|prefix|..] else text;
    if prefix <= text {
      PrefixAndRest(prefix, text);
    }
    if Normalized(entry.0) == provider && bare != "" {
      assert EntryMeans(entry, provider, bare);
    }
    forall value | EntryMeans(entry, provider, value) ensures value == bare && Trim(entry.1) != "" {
      if text == prefix + value {
        assert text[|prefix|..] == value;
      }
    }
  }

  ghost predicate SomeEntryClaims(mediaType: string, provider: string, entries: seq<(string, string)>, identity: string) {
    exists i :: 0 <= i < |entries| && identity in EntryClaims(mediaType, provider, entries[i])
  }

  lemma SomeEntrySnoc(mediaType: string, provider: string, front: seq<(string, string)>, last: (string, string), identity: string)
    ensures SomeEntryClaims(mediaType, provider, front + [last], identity) <==>
            SomeEntryClaims(mediaType, provider, front, identity) || identity in EntryClaims(mediaType, provider, last)
  {
    var entries := front + [last];
    assert entries[|front|] == last;
    if i :| 0 <= i < |front| && identity in EntryClaims(mediaType, provider, front[i]) {
      assert entries[i] == front[i];
    }
    if i :| 0 <= i < |entries| && identity in EntryClaims(mediaType, provider, entries[i]) {
      assert i < |front| ==> entries[i] == front[i];
    }
  }

  lemma {:induction false} EntriesClaim(mediaType: string, provider: string, entries: seq<(string, string)>, identity: string)
    ensures identity in EntriesClaims(mediaType, provider, entries) <==> SomeEntryClaims(mediaType, provider, entries, identity)
  {
    if entries != [] {
      var front, last := entries[..|entries| - 1], entries[|entries| - 1];
      EntriesClaim(mediaType, provider, front, identity);
      SomeEntrySnoc(mediaType, provider, front, last, identity);
      assert entries == front + [last];
    }
  }

  lemma ProviderIsTrimmed(text: string)
    requires Lower(text) in PROVIDERS
    ensures Trim(text) == text && Normalized(text) == Lower(text)
  {
    var l := Lower(text);
    assert |text| == 4 && forall i | 0 <= i < 4 :: 'a' <= l[i] <= 'z';
    forall i | 0 <= i < 4 ensures !IsSpace(text[i]) {
      assert l[i] == LowerChar(text[i]);
    }
    TrimmedStays(text);
  }

  lemma TrimTwice(s: string)
    ensures Trim(Trim(s)) == Trim(s)
  {
    TrimmedEnds(s);
    TrimmedStays(Trim(s));
  }

  lemma TitleIsNotNamed(text: string)
    requires IsImdbTitle(text)
    ensures Namespaced(text).None?
  {
    if |text| >= 6 {
      assert IsDigit(text[2..][2]);
    }
  }

  lemma NamedParts(text: string, provider: string)
    requires provider in PROVIDERS
    ensures Namespaced(text).Some? && Normalized(Namespaced(text).value.0) == provider
            <==> exists v :: Names(text, provider, v)
    ensures forall v | Names(text, provider, v) :: Namespaced(text) == Some((text[..4], v))
  {
    if Namespaced(text).Some? {
      ProviderIsTrimmed(text[..4]);
      var v := text[5..];
      assert forall i | 0 <= i < |v| :: v[i] == text[i + 5];
      if Lower(text[..4]) == provider {
        assert Names(text, provider, v);
      }
    }
    forall v | Names(text, provider, v) ensures Namespaced(text) == Some((text[..4], v)) {
      forall i | 5 <= i < |text| ensures !IsLineTerminator(text[i]) {
        assert text[i] == v[i - 5];
      }
    }
  }

  lemma CandidateClaim(mediaType: string, provider: string, candidate: Option<string>, identity: string)
    requires provider in PROVIDERS
    ensures identity in CandidateClaims(mediaType, provider, candidate) <==>
            exists value :: CandidateMeans(candidate, provider, value) && identity == ProviderIdentity(mediaType, provider, value)
  {
    if candidate.Some? {
      var text := Trim(candidate.value);
      TrimTwice(candidate.value);
      NamedParts(text, provider);
      if IsImdbTitle(text) {
        TitleIsNotNamed(text);
      }
      if v :| Names(text, provider, v) {
        assert CandidateMeans(candidate, provider, Normalized(v));
      } else if provider == "imdb" && IsImdbTitle(text) {
        assert CandidateMeans(candidate, provider, Lower(text));
        ImdbText(mediaType, Lower(text));
      }
    }
  }

  lemma ImdbText(mediaType: string, value: string)
    ensures mediaType + ":imdb:" + value == ProviderIdentity(mediaType, "imdb", value)
  {
    assert ":imdb:" == ":" + "imdb" + ":";
  }

  /** An item claims an identity exactly for each provider and value that its external ids, resource id or id stand for. */
  lemma ClaimsExactly(item: MediaItem, identity: string)
    ensures identity in Claims(item) <==>
            exists provider, value :: provider in PROVIDERS && Means(item, provider, value)
                                      && identity == ProviderIdentity(Normalized(item.mediaType), provider, value)
  {
    forall provider | provider in PROVIDERS
      ensures identity in ProviderClaims(item, provider) <==>
              exists value :: Means(item, provider, value) && identity == ProviderIdentity(Normalized(item.mediaType), provider, value)
    {
      ProviderClaimed(item, provider, identity);
    }
    assert PROVIDERS[0] == "imdb" && PROVIDERS[1] == "tmdb" && PROVIDERS[2] == "tvdb";
  }

  lemma ProviderClaimed(item: MediaItem, provider: string, identity: string)
    requires provider in PROVIDERS
    ensures identity in ProviderClaims(item, provider) <==>
            exists value :: Means(item, provider, value) && identity == ProviderIdentity(Normalized(item.mediaType), provider, value)
  {
    var m := Normalized(item.mediaType);
    EntriesClaim(m, provider, item.externalIds, identity);
    CandidateClaim(m, provider, item.resourceId, identity);
    CandidateClaim(m, provider, Some(item.id), identity);
    forall i | 0 <= i < |item.externalIds|
      ensures identity in EntryClaims(m, provider, item.externalIds[i]) <==>
              exists value :: EntryMeans(item.externalIds[i], provider, value) && identity == ProviderIdentity(m, provider, value)
    {
      EntryClaim(m, provider, item.externalIds[i], identity);
    }
    if identity in ProviderClaims(item, provider) {
      MeaningOf(item, provider, identity);
    }
  }

  lemma MeaningOf(item: MediaItem, provider: string, identity: string)
    requires provider in PROVIDERS && identity in ProviderClaims(item, provider)
    ensures exists value :: Means(item, provider, value) && identity == ProviderIdentity(Normalized(item.mediaType), provider, value)
  {
    var m := Normalized(item.mediaType);
    if identity in EntriesClaims(m, provider, item.externalIds) {
      EntriesClaim(m, provider, item.externalIds, identity);
      var i :| 0 <= i < |item.externalIds| && identity in EntryClaims(m, provider, item.externalIds[i]);
      EntryClaim(m, provider, item.externalIds[i], identity);
      var value :| EntryMeans(item.externalIds[i], provider, value) && identity == ProviderIdentity(m, provider, value);
      assert Means(item, provider, value);
    } else if identity in CandidateClaims(m, provider, item.resourceId) {
      CandidateClaim(m, provider, item.resourceId, identity);
      var value :| CandidateMeans(item.resourceId, provider, value) && identity == ProviderIdentity(m, provider, value);
      assert Means(item, provider, value);
    } else {
      CandidateClaim(m, provider, Some(item.id), identity);
      var value :| CandidateMeans(Some(item.id), provider, value) && identity == ProviderIdentity(m, provider, value);
      assert Means(item, provider, value);
    }
  }

  // ---------------------------------------------------------------- when two items share an identity

  predicate NoColon(s: string) {
    Without(':', s)
  }

  lemma SplitAtColon(a: string, x: string, b: string, y: string)
    requires NoColon(a) && NoColon(b) && a + ":" + x == b + ":" + y
    ensures a == b && x == y
  {
    SplitAtMark(':', a, x, b, y);
  }

  lemma Regrouped(m: string, p: string, u: string)
    ensures ProviderIdentity(m, p, u) == m + ":" + (p + ":" + u)
  {
  }

  lemma ProviderIdentityIsInjective(m: string, p: string, u: string, n: string, q: string, v: string)
    requires NoColon(m) && NoColon(n) && p in PROVIDERS && q in PROVIDERS
    ensures ProviderIdentity(m, p, u) == ProviderIdentity(n, q, v) <==> m == n && p == q && u == v
  {
    if ProviderIdentity(m, p, u) == ProviderIdentity(n, q, v) {
      Regrouped(m, p, u);
      Regrouped(n, q, v);
      SplitAtColon(m, p + ":" + u, n, q + ":" + v);
      SplitAtColon(p, u, q, v);
    }
  }

  /** Some provider knows the item. */
  ghost predicate Known(item: MediaItem) {
    exists provider, value :: provider in PROVIDERS && Means(item, provider, value)
  }

  function AddonOf(item: MediaItem): string {
    Normalized(item.sourceAddonId.GetOr("unscoped-addon"))
  }

  function CatalogOf(item: MediaItem): string {
    Normalized(item.sourceCatalogId.GetOr("unscoped-catalog"))
  }

  function LocalId(item: MediaItem): string {
    Normalized(if Trim(item.resourceId.GetOr("")) != "" then Trim(item.resourceId.value) else item.id)
  }

  function OpaqueText(m: string, addon: string, catalog: string, id: string): string {
    m + ":" + ("addon" + ":" + (addon + ":" + ("catalog" + ":" + (catalog + ":" + ("id" + ":" + id)))))
  }

  lemma Marked(left: string, word: string, right: string)
    ensures left + (":" + word + ":") + right == left + ":" + (word + ":" + right)
  {
  }

  lemma Chained(m: string, a: string, c: string, i: string, x: string, y: string, z: string)
    ensures m + x + a + y + c + z + i == m + x + (a + y + (c + z + i))
  {
  }

  lemma OpaqueRegrouped(m: string, a: string, c: string, i: string)
    ensures m + ":addon:" + a + ":catalog:" + c + ":id:" + i == OpaqueText(m, a, c, i)
  {
    var x, y, z := ":" + "addon" + ":", ":" + "catalog" + ":", ":" + "id" + ":";
    assert x == ":addon:" && y == ":catalog:" && z == ":id:";
    Chained(m, a, c, i, x, y, z);
    Marked(c, "id", i);
    Marked(a, "catalog", c + z + i);
    Marked(m, "addon", a + y + (c + z + i));
  }

  lemma OpaqueParts(item: MediaItem)
    ensures OpaqueIdentity(item) == OpaqueText(Normalized(item.mediaType), AddonOf(item), CatalogOf(item), LocalId(item))
  {
    OpaqueRegrouped(Normalized(item.mediaType), AddonOf(item), CatalogOf(item), LocalId(item));
  }

  lemma OpaqueIsInjective(m: string, a: string, c: string, i: string, n: string, b: string, d: string, j: string)
    requires NoColon(m) && NoColon(n) && NoColon(a) && NoColon(b) && NoColon(c) && NoColon(d)
    ensures OpaqueText(m, a, c, i) == OpaqueText(n, b, d, j) <==> m == n && a == b && c == d && i == j
  {
    if OpaqueText(m, a, c, i) == OpaqueText(n, b, d, j) {
      var x, y := "id" + ":" + i, "id" + ":" + j;
      var cx, dy := "catalog" + ":" + (c + ":" + x), "catalog" + ":" + (d + ":" + y);
      var ax, by_ := "addon" + ":" + (a + ":" + cx), "addon" + ":" + (b + ":" + dy);
      SplitAtColon(m, ax, n, by_);
      SplitAtColon("addon", a + ":" + cx, "addon", b + ":" + dy);
      SplitAtColon(a, cx, b, dy);
      SplitAtColon("catalog", c + ":" + x, "catalog", d + ":" + y);
      SplitAtColon(c, x, d, y);
      SplitAtColon("id", i, "id", j);
    }
  }

  lemma OpaqueIsNoProvider(m: string, a: string, c: string, i: string, n: string, q: string, v: string)
    requires NoColon(m) && NoColon(n) && q in PROVIDERS
    ensures OpaqueText(m, a, c, i) != ProviderIdentity(n, q, v)
  {
    var rest := a + ":" + ("catalog" + ":" + (c + ":" + ("id" + ":" + i)));
    if OpaqueText(m, a, c, i) == ProviderIdentity(n, q, v) {
      Regrouped(n, q, v);
      SplitAtColon(m, "addon" + ":" + rest, n, q + ":" + v);
      SplitAtColon("addon", rest, q, v);
    }
  }

  lemma IdsExactly(item: MediaItem, identity: string)
    ensures Known(item) ==>
              (identity in Ids(item) <==>
               exists provider, value :: provider in PROVIDERS && Means(item, provider, value)
                                         && identity == ProviderIdentity(Normalized(item.mediaType), provider, value))
    ensures !Known(item) ==> Ids(item) == {OpaqueIdentity(item)}
  {
    ClaimsExactly(item, identity);
    if Known(item) {
      var provider, value :| provider in PROVIDERS && Means(item, provider, value);
      ClaimsExactly(item, ProviderIdentity(Normalized(item.mediaType), provider, value));
    } else if Claims(item) != [] {
      ClaimsExactly(item, Claims(item)[0]);
    }
  }

  /** The parts of the identities are told apart by their colons. */
  ghost predicate Separable(item: MediaItem) {
    && NoColon(Normalized(item.mediaType))
    && (!Known(item) ==> NoColon(AddonOf(item)) && NoColon(CatalogOf(item)))
  }

  /** Two items are of one type and stand for the same value at some provider, or no provider knows either of them and
      they have the same id in the same catalogue of the same addon. */
  ghost predicate SameTitle(a: MediaItem, b: MediaItem) {
    && Normalized(a.mediaType) == Normalized(b.mediaType)
    && ((exists provider, value :: provider in PROVIDERS && Means(a, provider, value) && Means(b, provider, value))
        || (!Known(a) && !Known(b) && AddonOf(a) == AddonOf(b) && CatalogOf(a) == CatalogOf(b) && LocalId(a) == LocalId(b)))
  }

  lemma MeaningIsHeld(item: MediaItem, provider: string, value: string)
    requires provider in PROVIDERS && Means(item, provider, value)
    ensures ProviderIdentity(Normalized(item.mediaType), provider, value) in Ids(item)
  {
    IdsExactly(item, ProviderIdentity(Normalized(item.mediaType), provider, value));
  }

  lemma SameTitleShares(a: MediaItem, b: MediaItem)
    requires SameTitle(a, b)
    ensures exists identity :: identity in Ids(a) && identity in Ids(b)
  {
    if provider, value :| provider in PROVIDERS && Means(a, provider, value) && Means(b, provider, value) {
      var identity := ProviderIdentity(Normalized(a.mediaType), provider, value);
      IdsExactly(a, identity);
      IdsExactly(b, identity);
      assert identity in Ids(a) && identity in Ids(b);
    } else {
      OpaqueParts(a);
      OpaqueParts(b);
      IdsExactly(a, OpaqueIdentity(a));
      IdsExactly(b, OpaqueIdentity(a));
      assert OpaqueIdentity(a) in Ids(a) && OpaqueIdentity(a) in Ids(b);
    }
  }

  lemma SharingIsSameTitle(a: MediaItem, b: MediaItem, identity: string)
    requires Separable(a) && Separable(b) && identity in Ids(a) && identity in Ids(b)
    ensures SameTitle(a, b)
  {
    var m, n := Normalized(a.mediaType), Normalized(b.mediaType);
    IdsExactly(a, identity);
    IdsExactly(b, identity);
    OpaqueParts(a);
    OpaqueParts(b);
    if Known(a) {
      var p, u :| p in PROVIDERS && Means(a, p, u) && identity == ProviderIdentity(m, p, u);
      if Known(b) {
        var q, v :| q in PROVIDERS && Means(b, q, v) && identity == ProviderIdentity(n, q, v);
        ProviderIdentityIsInjective(m, p, u, n, q, v);
      } else {
        OpaqueIsNoProvider(n, AddonOf(b), CatalogOf(b), LocalId(b), m, p, u);
      }
    } else if Known(b) {
      var q, v :| q in PROVIDERS && Means(b, q, v) && identity == ProviderIdentity(n, q, v);
      OpaqueIsNoProvider(m, AddonOf(a), CatalogOf(a), LocalId(a), n, q, v);
    } else {
      OpaqueIsInjective(m, AddonOf(a), CatalogOf(a), LocalId(a), n, AddonOf(b), CatalogOf(b), LocalId(b));
    }
  }

  /** Two items share an identity if and only if they are the same title: for every pair of items whose types have no colon
      in them and, where no provider knows an item, whose addon and catalogue have none. */
  lemma SharedIdentityIsSameTitle(a: MediaItem, b: MediaItem)
    requires Separable(a) && Separable(b)
    ensures !(Ids(a) !! Ids(b)) <==> SameTitle(a, b)
  {
    if SameTitle(a, b) {
      SameTitleShares(a, b);
    }
    if !(Ids(a) !! Ids(b)) {
      var identity :| identity in Ids(a) && identity in Ids(b);
      SharingIsSameTitle(a, b, identity);
    }
  }

  // ---------------------------------------------------------------- ids alone

  /** An item that only its id says something about. */
  predicate OnlyId(item: MediaItem) {
    item.externalIds == [] && item.resourceId.None?
  }

  lemma NamedMeansOne(item: MediaItem, provider: string, v: string)
    requires OnlyId(item) && provider in PROVIDERS && Names(Trim(item.id), provider, v)
    ensures forall q, u :: q in PROVIDERS && Means(item, q, u) <==> q == provider && u == Normalized(v)
  {
    var text := Trim(item.id);
    NamedParts(text, provider);
    if IsImdbTitle(text) {
      TitleIsNotNamed(text);
    }
    assert CandidateMeans(Some(item.id), provider, Normalized(v));
    assert provider in PROVIDERS;
  }

  /** Items of one type with the ids `p:v` and `p:w` share an identity if and only if v and w agree up to case and outer
      white space. */
  lemma NamedIdsShare(a: MediaItem, b: MediaItem, provider: string, v: string, w: string)
    requires OnlyId(a) && OnlyId(b) && Normalized(a.mediaType) == Normalized(b.mediaType) && provider in PROVIDERS
    requires Names(Trim(a.id), provider, v) && Names(Trim(b.id), provider, w)
    ensures !(Ids(a) !! Ids(b)) <==> Normalized(v) == Normalized(w)
  {
    NamedMeansOne(a, provider, v);
    NamedMeansOne(b, provider, w);
    var x, y := ProviderIdentity(Normalized(a.mediaType), provider, Normalized(v)), ProviderIdentity(Normalized(a.mediaType), provider, Normalized(w));
    assert Means(a, provider, Normalized(v)) && Means(b, provider, Normalized(w));
    OneIdentity(a, provider, Normalized(v));
    OneIdentity(b, provider, Normalized(w));
    if x == y {
      assert x in Ids(a) && x in Ids(b);
    }
    SameProviderSameValue(Normalized(a.mediaType), provider, Normalized(v), Normalized(w));
  }

  lemma SameProviderSameValue(m: string, p: string, u: string, v: string)
    ensures ProviderIdentity(m, p, u) == ProviderIdentity(m, p, v) <==> u == v
  {
    var prefix := m + ":" + p + ":";
    assert (prefix + u)[|prefix|..] == u && (prefix + v)[|prefix|..] == v;
  }

  lemma OneIdentity(item: MediaItem, provider: string, value: string)
    requires provider in PROVIDERS
    requires forall q, u :: q in PROVIDERS && Means(item, q, u) <==> q == provider && u == value
    ensures Ids(item) == {ProviderIdentity(Normalized(item.mediaType), provider, value)}
  {
    assert Means(item, provider, value);
    forall identity ensures identity in Ids(item) <==> identity == ProviderIdentity(Normalized(item.mediaType), provider, value) {
      IdsExactly(item, identity);
    }
  }

  // ---------------------------------------------------------------- every way to write it

  /** The ways to say that an item is `value` at `provider`: an external id with or without the provider's name, a resource
      id or an id with it, in any case, and for IMDb the title number alone. */
  ghost predicate Says(item: MediaItem, provider: string, value: string) {
    || (exists i | 0 <= i < |item.externalIds| ::
          Normalized(item.externalIds[i].0) == provider
          && Normalized(item.externalIds[i].1) in [value, provider + ":" + value])
    || (item.resourceId.Some? && SaysText(item.resourceId.value, provider, value))
    || SaysText(item.id, provider, value)
  }

  predicate SaysText(text: string, provider: string, value: string) {
    Lower(Trim(text)) == provider + ":" + value || (provider == "imdb" && IsImdbTitle(Trim(text)) && Lower(Trim(text)) == value)
  }

  /** A value as it is compared: lower case, without outer white space, line breaks or the provider's name. */
  predicate PlainValue(provider: string, value: string) {
    && value != "" && Normalized(value) == value && !(provider + ":" <= value)
    && forall i | 0 <= i < |value| :: !IsLineTerminator(value[i])
  }

  lemma LowerKeepsBreaks(c: char)
    ensures IsLineTerminator(LowerChar(c)) <==> IsLineTerminator(c)
    ensures IsSpace(LowerChar(c)) <==> IsSpace(c)
    ensures LowerChar(LowerChar(c)) == LowerChar(c)
    ensures LowerChar(c) == ':' <==> c == ':'
  {
  }

  lemma TextSaysMeans(text: string, provider: string, value: string)
    requires provider in PROVIDERS && PlainValue(provider, value) && SaysText(text, provider, value)
    ensures CandidateMeans(Some(text), provider, value)
  {
    var t := Trim(text);
    if Lower(t) == provider + ":" + value {
      var v := t[5..];
      assert |t| == 5 + |value|;
      assert Lower(t)[..4] == provider && Lower(t)[4] == ':' && Lower(t)[5..] == value;
      forall i | 0 <= i < |t| ensures Lower(t)[i] == LowerChar(t[i]) {
      }
      LowerKeepsBreaks(t[4]);
      forall i | 0 <= i < |v| ensures !IsLineTerminator(v[i]) && value[i] == LowerChar(v[i]) {
        assert value[i] == Lower(t)[i + 5];
        LowerKeepsBreaks(v[i]);
      }
      assert Lower(t[..4]) == provider;
      assert Names(t, provider, v);
      LowerIsPlain(v, value);
    }
  }

  lemma LowerIsPlain(v: string, value: string)
    requires |v| == |value| && value != "" && Normalized(value) == value
    requires forall i | 0 <= i < |v| :: value[i] == LowerChar(v[i])
    ensures Normalized(v) == value
  {
    assert |Trim(value)| == |value| by {
      assert |Normalized(value)| == |Trim(value)|;
    }
    TrimShorter(value);
    assert Trim(value) == value;
    TrimmedEnds(value);
    LowerKeepsBreaks(v[0]);
    LowerKeepsBreaks(v[|v| - 1]);
    TrimmedStays(v);
    assert Lower(v) == value;
  }

  lemma {:induction false} TrimStartShorter(s: string)
    ensures |TrimStart(s)| <= |s| && (|TrimStart(s)| == |s| ==> TrimStart(s) == s)
  {
    if s != "" && IsSpace(s[0]) {
      TrimStartShorter(s[1..]);
    }
  }

  /** Trimming shortens a text, or leaves it as it is. */
  lemma TrimShorter(s: string)
    ensures |Trim(s)| <= |s| && (|Trim(s)| == |s| ==> Trim(s) == s)
  {
    TrimStartShorter(s);
    TrimEndEnds(TrimStart(s));
  }

  lemma SaysMeans(item: MediaItem, provider: string, value: string)
    requires provider in PROVIDERS && PlainValue(provider, value) && Says(item, provider, value)
    ensures Means(item, provider, value)
  {
    if item.resourceId.Some? && SaysText(item.resourceId.value, provider, value) {
      TextSaysMeans(item.resourceId.value, provider, value);
    } else if SaysText(item.id, provider, value) {
      TextSaysMeans(item.id, provider, value);
    } else {
      var i :| 0 <= i < |item.externalIds| && Normalized(item.externalIds[i].0) == provider
               && Normalized(item.externalIds[i].1) in [value, provider + ":" + value];
      assert EntryMeans(item.externalIds[i], provider, value);
    }
  }

  /** However two items of one type say the same value at a provider, the search takes them for the same title. */
  lemma EveryFormAgrees(a: MediaItem, b: MediaItem, provider: string, value: string)
    requires Normalized(a.mediaType) == Normalized(b.mediaType) && provider in PROVIDERS && PlainValue(provider, value)
    requires Says(a, provider, value) && Says(b, provider, value)
    ensures ProviderIdentity(Normalized(a.mediaType), provider, value) in Ids(a) * Ids(b)
  {
    SaysMeans(a, provider, value);
    SaysMeans(b, provider, value);
    MeaningIsHeld(a, provider, value);
    MeaningIsHeld(b, provider, value);
  }

  // ---------------------------------------------------------------- where a colon runs the parts together

  lemma PartsRunTogether(m: string, p: string, v: string)
    ensures ProviderIdentity(m, p, p + ":" + v) == ProviderIdentity(m + ":" + p, p, v)
  {
  }

  /** For a provider p, an item of a type `m:p` shares an identity with one of the type `m` whose value begins with `p:`. */
  lemma ColonInTypeCollides(a: MediaItem, b: MediaItem, m: string, p: string, v: string)
    requires p in PROVIDERS && Normalized(a.mediaType) == m && Normalized(b.mediaType) == m + ":" + p
    requires Means(a, p, p + ":" + v) && Means(b, p, v)
    ensures ProviderIdentity(m, p, p + ":" + v) in Ids(a) * Ids(b)
  {
    PartsRunTogether(m, p, v);
    MeaningIsHeld(a, p, p + ":" + v);
    MeaningIsHeld(b, p, v);
  }

  lemma PlainText(text: string)
    requires text != "" && forall i | 0 <= i < |text| :: 'a' <= text[i] <= 'z' || text[i] == ':'
    ensures Trim(text) == text && Lower(text) == text && Normalized(text) == text
    ensures forall i | 0 <= i < |text| :: !IsLineTerminator(text[i])
  {
    TrimmedStays(text);
  }

  lemma PlainParts(text: string, provider: string, value: string)
    requires |provider| == 4 && text == provider + ":" + value && value != "" && |text| > 5
    requires forall i | 0 <= i < |text| :: 'a' <= text[i] <= 'z' || text[i] == ':'
    ensures text[..4] == provider && text[4] == ':' && text[5..] == value
    ensures Lower(provider) == provider
    ensures forall i | 0 <= i < |value| :: 'a' <= value[i] <= 'z' || value[i] == ':'
  {
    forall i | 0 <= i < |value| ensures value[i] == text[i + 5] {
    }
    forall i | 0 <= i < 4 ensures provider[i] == text[i] {
    }
  }

  lemma ProvidersAreShort(provider: string)
    requires provider in PROVIDERS
    ensures |provider| == 4
  {
  }

  lemma PlainIdMeans(item: MediaItem, provider: string, value: string)
    requires item.id == provider + ":" + value && provider in PROVIDERS && value != ""
    requires forall i | 0 <= i < |item.id| :: 'a' <= item.id[i] <= 'z' || item.id[i] == ':'
    ensures Means(item, provider, value)
  {
    ProvidersAreShort(provider);
    PlainText(item.id);
    PlainParts(item.id, provider, value);
    PlainText(value);
    assert Names(item.id, provider, value);
    assert CandidateMeans(Some(item.id), provider, value);
  }

  /** The types "a" and "a:imdb", with the ids "imdb:imdb:x" and "imdb:x". */
  lemma TypesWithColonCollide(a: MediaItem, b: MediaItem, p: string, v: string)
    requires p == "imdb" && v == "x"
    requires a.mediaType == "a" && a.id == p + ":" + (p + ":" + v)
    requires b.mediaType == a.mediaType + ":" + p && b.id == p + ":" + v
    ensures !(Ids(a) !! Ids(b)) && Normalized(a.mediaType) != Normalized(b.mediaType)
  {
    PlainText(a.mediaType);
    PlainText(b.mediaType);
    assert PROVIDERS[0] == p;
    PlainIdMeans(a, p, p + ":" + v);
    PlainIdMeans(b, p, v);
    ColonInTypeCollides(a, b, a.mediaType, p, v);
  }

  /** Moving `:catalog:` from the addon into the catalogue leaves the opaque identity as it is. */
  lemma ColonInAddonCollides(m: string, x: string, y: string, z: string, id: string)
    ensures OpaqueText(m, x + ":catalog:" + y, z, id) == OpaqueText(m, x, y + ":catalog:" + z, id)
  {
    var rest := z + ":" + ("id" + ":" + id);
    assert ":catalog:" == ":" + "catalog" + ":";
    Marked(x, "catalog", y + ":" + ("catalog" + ":" + rest));
    Marked(y, "catalog", rest);
    assert x + ":catalog:" + y + ":" + ("catalog" + ":" + rest) == x + ":" + ("catalog" + ":" + (y + ":" + ("catalog" + ":" + rest)));
    assert y + ":catalog:" + z + ":" + ("id" + ":" + id) == y + ":" + ("catalog" + ":" + rest);
  }
}
