/** Media items of the TV client and the identities under which a search recognises them. */
module SearchIdentity {
  import opened Prelude
  import opened Text

  datatype MediaItem = MediaItem(
    id: string,
    resourceId: Option<string>,
    mediaType: string,
    title: string,
    externalIds: seq<(string, string)>,
    sourceAddonId: Option<string>,
    sourceCatalogId: Option<string>)

  function Normalized(value: string): string {
    Lower(Trim(value))
  }

  /** The pattern `^(imdb|tmdb|tvdb):(.+)$`, ignoring case: provider and remainder. */
  function Namespaced(s: string): Option<(string, string)> {
    if |s| >= 6 && s[4] == ':' && Lower(s[..4]) in ["imdb", "tmdb", "tvdb"]
       && forall i | 5 <= i < |s| :: !IsLineTerminator(s[i])
    then Some((s[..4], s[5..]))
    else None
  }

  /** What one external id entry claims for a provider: nothing or one identity. */
  function EntryClaims(mediaType: string, provider: string, entry: (string, string)): seq<string> {
    if Normalized(entry.0) != provider || Trim(entry.1) == "" then []
    else
      var value := Normalized(entry.1);
      var prefix := provider + ":";
      var bare := if prefix <= value then value[|prefix|..] else value;
      if bare == "" then [] else [mediaType + ":" + provider + ":" + bare]
  }

  /** What a resource id or an item id claims for a provider. */
  function CandidateClaims(mediaType: string, provider: string, candidate: Option<string>): seq<string> {
    if candidate.None? || Trim(candidate.value) == "" then []
    else
      var text := Trim(candidate.value);
      var named := Namespaced(text);
      if named.Some? && Normalized(named.value.0) == provider
      then [mediaType + ":" + provider + ":" + Normalized(named.value.1)]
      else if provider == "imdb" && IsImdbTitle(text) then [mediaType + ":imdb:" + Normalized(text)]
      else []
  }

  function EntriesClaims(mediaType: string, provider: string, entries: seq<(string, string)>): seq<string> {
    if entries == [] then []
    else
      EntriesClaims(mediaType, provider, entries[..|entries| - 1])
      + EntryClaims(mediaType, provider, entries[|entries| - 1])
  }

  function ProviderClaims(item: MediaItem, provider: string): seq<string> {
    var mediaType := Normalized(item.mediaType);
    EntriesClaims(mediaType, provider, item.externalIds)
    + CandidateClaims(mediaType, provider, item.resourceId)
    + CandidateClaims(mediaType, provider, Some(item.id))
  }

  /** Every identity an item claims, best provider first, repetitions included. */
  function Claims(item: MediaItem): seq<string> {
    ProviderClaims(item, "imdb") + ProviderClaims(item, "tmdb") + ProviderClaims(item, "tvdb")
  }

  /** The identity of an item that no provider knows: scoped by addon and catalogue. */
  function OpaqueIdentity(item: MediaItem): string {
    var addon := Normalized(item.sourceAddonId.GetOr("unscoped-addon"));
    var catalog := Normalized(item.sourceCatalogId.GetOr("unscoped-catalog"));
    var resource := Trim(item.resourceId.GetOr(""));
    Normalized(item.mediaType) + ":addon:" + addon + ":catalog:" + catalog
    + ":id:" + Normalized(if resource != "" then resource else item.id)
  }

  /** The identities of an item, in the order in which the search collects them. */
  function IdentitiesOf(item: MediaItem): (r: seq<string>)
    ensures r != [] && NoRepeats(r)
  {
    var claims := Claims(item);
    if claims == [] then [OpaqueIdentity(item)]
    else
      assert claims[0] in Distinct(claims);
      Distinct(claims)
  }

  function Ids(item: MediaItem): (r: set<string>)
    ensures r != {}
  {
    var identities := IdentitiesOf(item);
    var r := set s | s in identities;
    assert identities[0] in r;
    r
  }

  /** The representative key of a published item: the first identity collected. */
  function CanonicalIdentity(item: MediaItem): (r: string)
    ensures r in Ids(item)
  {
    IdentitiesOf(item)[0]
  }

  /** The loop over the external ids, for one provider. */
  method CollectEntries(mediaType: string, provider: string, entries: seq<(string, string)>, identities: seq<string>,
                        ghost done: seq<string>)
    returns (r: seq<string>)
    requires identities == Distinct(done)
    ensures r == Distinct(done + EntriesClaims(mediaType, provider, entries))
  {
    r := identities;
    assert done + [] == done;
    for e := 0 to |entries|
      invariant r == Distinct(done + EntriesClaims(mediaType, provider, entries[..e]))
    {
      var claimed := EntryClaims(mediaType, provider, entries[e]);
      assert entries[..e + 1][..e] == entries[..e];
      AddClaim(done, EntriesClaims(mediaType, provider, entries[..e]), claimed);
      if claimed != [] {
        r := Add(r, claimed[0]);
      }
    }
    assert entries[..|entries|] == entries;
  }

  /** The turn of one provider: the external ids, then the two candidates. */
  method CollectProvider(item: MediaItem, provider: string, identities: seq<string>, ghost done: seq<string>)
    returns (r: seq<string>)
    requires identities == Distinct(done)
    ensures r == Distinct(done + ProviderClaims(item, provider))
  {
    var mediaType := Normalized(item.mediaType);
    r := CollectEntries(mediaType, provider, item.externalIds, identities, done);
    ghost var claims := EntriesClaims(mediaType, provider, item.externalIds);
    r := CollectCandidate(mediaType, provider, item.resourceId, r, done, claims);
    claims := claims + CandidateClaims(mediaType, provider, item.resourceId);
    r := CollectCandidate(mediaType, provider, Some(item.id), r, done, claims);
  }

  method CollectCandidate(mediaType: string, provider: string, candidate: Option<string>, identities: seq<string>,
                          ghost done: seq<string>, ghost claims: seq<string>)
    returns (r: seq<string>)
    requires identities == Distinct(done + claims)
    ensures r == Distinct(done + (claims + CandidateClaims(mediaType, provider, candidate)))
  {
    var found := CandidateClaims(mediaType, provider, candidate);
    AddClaim(done, claims, found);
    r := if found != [] then Add(identities, found[0]) else identities;
  }

  /** The outer loop of the collection. */
  method CollectAll(item: MediaItem, providers: seq<string>) returns (r: seq<string>)
    ensures r == Distinct(AllProviderClaims(item, providers))
  {
    r := [];
    for p := 0 to |providers|
      invariant r == Distinct(AllProviderClaims(item, providers[..p]))
    {
      r := CollectProvider(item, providers[p], r, AllProviderClaims(item, providers[..p]));
      assert providers[..p + 1][..p] == providers[..p];
    }
    assert providers[..|providers|] == providers;
  }

  method SearchIdentities(item: MediaItem) returns (identities: seq<string>)
    ensures identities == IdentitiesOf(item)
  {
    identities := CollectAll(item, ["imdb", "tmdb", "tvdb"]);
    IdentitiesDecided(item, identities);
    if |identities| == 0 {
      identities := [OpaqueIdentity(item)];
    }
  }

  lemma IdentitiesDecided(item: MediaItem, identities: seq<string>)
    requires identities == Distinct(AllProviderClaims(item, ["imdb", "tmdb", "tvdb"]))
    ensures IdentitiesOf(item) == if identities == [] then [OpaqueIdentity(item)] else identities
  {
    AllProviders(item);
    assert Claims(item) != [] ==> Claims(item)[0] in Distinct(Claims(item));
  }

  lemma AddClaim(done: seq<string>, claims: seq<string>, claimed: seq<string>)
    requires |claimed| <= 1
    ensures Distinct(done + (claims + claimed))
            == if claimed == [] then Distinct(done + claims) else Add(Distinct(done + claims), claimed[0])
  {
    if claimed == [] {
      assert claims + claimed == claims;
    } else {
      DistinctSnoc(done + claims, claimed[0]);
      assert done + (claims + claimed) == (done + claims) + [claimed[0]];
    }
  }

  ghost function AllProviderClaims(item: MediaItem, providers: seq<string>): seq<string> {
    if providers == [] then []
    else AllProviderClaims(item, providers[..|providers| - 1]) + ProviderClaims(item, providers[|providers| - 1])
  }

  lemma AllProviders(item: MediaItem)
    ensures AllProviderClaims(item, ["imdb", "tmdb", "tvdb"]) == Claims(item)
  {
    var p := ["imdb", "tmdb", "tvdb"];
    assert p[..2] == ["imdb", "tmdb"] && p[..2][..1] == ["imdb"] && p[..2][..1][..0] == [];
    assert AllProviderClaims(item, ["imdb"]) == ProviderClaims(item, "imdb");
    assert AllProviderClaims(item, ["imdb", "tmdb"]) == ProviderClaims(item, "imdb") + ProviderClaims(item, "tmdb");
  }

  /** The representative key comes from the best provider that knows the item. */
  lemma {:induction false} CanonicalPrefersProviders(item: MediaItem)
    ensures ProviderClaims(item, "imdb") != [] ==> CanonicalIdentity(item) in ProviderClaims(item, "imdb")
    ensures ProviderClaims(item, "imdb") == [] && ProviderClaims(item, "tmdb") != []
            ==> CanonicalIdentity(item) in ProviderClaims(item, "tmdb")
    ensures ProviderClaims(item, "imdb") == [] && ProviderClaims(item, "tmdb") == [] && ProviderClaims(item, "tvdb") != []
            ==> CanonicalIdentity(item) in ProviderClaims(item, "tvdb")
    ensures Claims(item) == [] ==> Ids(item) == {OpaqueIdentity(item)}
  {
    if Claims(item) != [] {
      DistinctKeepsFirst(Claims(item));
    }
  }
}
