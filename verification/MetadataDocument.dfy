/** The metadata cache's document: snapshots, aliases that lead to them, expiry and eviction. */
module MetadataDocument {
  import opened Prelude
  import opened Text
  import opened UniqueJson

  const MAX_SNAPSHOTS := 256
  const MAX_AGE := 30 * 24 * 60 * 60 * 1000

  // ---------------------------------------------------------------- items and snapshots

  datatype Field = Title | PosterUrl | BackgroundUrl | LogoUrl | Description | ReleaseInfo | Released

  datatype Number = Finite(value: real) | NotFinite

  datatype Source = Source(addonId: string, id: string)

  /** `externalIds` is listed in the order in which the key computation sorts it. */
  datatype MediaItem = MediaItem(
    id: string, titleId: string, resourceId: string, mediaType: string, sourceAddonId: string, sources: seq<Source>,
    externalIds: seq<(string, string)>, texts: map<Field, string>,
    voteAverage: Option<Number>, voteCount: Option<Number>, genres: Option<Json>, cast: Option<Json>)

  datatype Snapshot = Snapshot(
    texts: map<Field, string>, voteAverage: Option<real>, voteCount: Option<real>,
    externalIds: seq<(string, string)>, genres: Option<Json>, cast: Option<Json>)

  const NOTHING := Snapshot(map[], None, None, [], None, None)

  predicate Populated(s: string) {
    Trim(s) != ""
  }

  function FiniteOf(n: Option<Number>): Option<real> {
    if n.Some? && n.value.Finite? then Some(n.value.value) else None
  }

  /** The parts of an item worth remembering. */
  function SnapshotOf(details: MediaItem): Snapshot {
    Snapshot(map f | f in details.texts && Populated(details.texts[f]) :: details.texts[f],
             FiniteOf(details.voteAverage), FiniteOf(details.voteCount),
             details.externalIds, details.genres, details.cast)
  }

  /** `{ ...prior, ...newer }`. */
  function Spread(prior: Snapshot, newer: Snapshot): Snapshot {
    Snapshot(prior.texts + newer.texts,
             if newer.voteAverage.Some? then newer.voteAverage else prior.voteAverage,
             if newer.voteCount.Some? then newer.voteCount else prior.voteCount,
             if newer.externalIds != [] then newer.externalIds else prior.externalIds,
             if newer.genres.Some? then newer.genres else prior.genres,
             if newer.cast.Some? then newer.cast else prior.cast)
  }

  /** An item completed from a cached snapshot. */
  function Overlay(item: MediaItem, cached: Snapshot): MediaItem {
    item.(texts := item.texts + (map f | f in cached.texts && Populated(cached.texts[f]) :: cached.texts[f]),
          voteAverage := if cached.voteAverage.Some? then Some(Finite(cached.voteAverage.value)) else item.voteAverage,
          voteCount := if cached.voteCount.Some? then Some(Finite(cached.voteCount.value)) else item.voteCount,
          externalIds := OverlayIds(item.externalIds, cached.externalIds),
          genres := if cached.genres.Some? then cached.genres else item.genres,
          cast := if cached.cast.Some? then cached.cast else item.cast)
  }

  function PutId(ids: seq<(string, string)>, id: (string, string)): seq<(string, string)> {
    if ids == [] then [id] else if ids[0].0 == id.0 then [id] + ids[1..] else [ids[0]] + PutId(ids[1..], id)
  }

  function OverlayIds(ids: seq<(string, string)>, cached: seq<(string, string)>): seq<(string, string)> {
    if cached == [] then ids
    else
      var last := cached[|cached| - 1];
      var before := OverlayIds(ids, cached[..|cached| - 1]);
      if Populated(last.1) then PutId(before, last) else before
  }

  // ---------------------------------------------------------------- identity keys

  function Clipped(s: string): string {
    var t := Trim(s);
    if |t| <= 1024 then t else t[..1024]
  }

  function SourceIdentities(sources: seq<Source>, resource: string): seq<string> {
    if sources == [] then []
    else
      var last := sources[|sources| - 1];
      var source := Clipped(if last.addonId != "" then last.addonId else last.id);
      SourceIdentities(sources[..|sources| - 1], resource)
      + (if source != "" then ["resource:" + source + ":" + resource] else [])
  }

  function ResourceIdentities(item: MediaItem): seq<string> {
    var resource := Clipped(if item.resourceId != "" then item.resourceId else item.id);
    if resource == "" then []
    else
      var tv := if item.mediaType == "tv" then Clipped(item.sourceAddonId) else "";
      var named := (if tv != "" then ["resource:" + tv + ":" + resource] else []) + SourceIdentities(item.sources, resource);
      if named == [] then ["resource:" + resource] else Distinct(named)
  }

  function ExternalIdentities(ids: seq<(string, string)>): seq<string> {
    if ids == [] then []
    else
      var provider, external := Lower(Clipped(ids[|ids| - 1].0)), Clipped(ids[|ids| - 1].1);
      ExternalIdentities(ids[..|ids| - 1])
      + (if provider != "" && external != "" then ["external:" + provider + ":" + external] else [])
  }

  function TitleIdentity(title: string): seq<string> {
    if Clipped(title) == "" then [] else ["title:" + Clipped(title)]
  }

  function Prefixed(prefix: string, identities: seq<string>): seq<string> {
    seq(|identities|, i requires 0 <= i < |identities| => prefix + identities[i])
  }

  /** The identities an item has without a separately resolved title. */
  function OwnIdentities(item: MediaItem): seq<string> {
    TitleIdentity(item.titleId)
    + if item.mediaType == "episode" then ResourceIdentities(item) + ExternalIdentities(item.externalIds)
      else ExternalIdentities(item.externalIds) + ResourceIdentities(item)
  }

  function KeyPrefix(item: MediaItem, locale: string): string {
    var language := Lower(Clipped(locale));
    (if language == "" then "und" else language) + "|" + Lower(Clipped(item.mediaType)) + "|"
  }

  function IdentityKeys(item: MediaItem, locale: string, titleId: string): seq<string> {
    Distinct(Prefixed(KeyPrefix(item, locale), TitleIdentity(titleId) + OwnIdentities(item)))
  }

  lemma PrefixedSuffix(prefix: string, a: seq<string>, b: seq<string>)
    ensures forall k | k in Prefixed(prefix, b) :: k in Prefixed(prefix, a + b)
  {
    forall k | k in Prefixed(prefix, b) ensures k in Prefixed(prefix, a + b) {
      var i :| 0 <= i < |b| && Prefixed(prefix, b)[i] == k;
      assert Prefixed(prefix, a + b)[|a| + i] == k;
    }
  }

  /** The keys under which an item is looked up are among those under which it was stored. */
  lemma {:induction false} LookupKeysAreStored(item: MediaItem, locale: string, titleId: string)
    ensures forall k | k in IdentityKeys(item, locale, "") :: k in IdentityKeys(item, locale, titleId)
  {
    var prefix, own := KeyPrefix(item, locale), OwnIdentities(item);
    assert TitleIdentity("") + own == own;
    PrefixedSuffix(prefix, TitleIdentity(titleId), own);
  }

  // ---------------------------------------------------------------- the document

  datatype Entry = Entry(key: string, updatedAt: int, value: Snapshot)

  datatype Document = Document(snapshots: seq<Entry>, aliases: map<string, string>)

  const EMPTY := Document([], map[])

  function Find(snapshots: seq<Entry>, key: string): Option<Entry> {
    if snapshots == [] then None
    else if snapshots[0].key == key then Some(snapshots[0])
    else Find(snapshots[1..], key)
  }

  function Put(snapshots: seq<Entry>, e: Entry): seq<Entry> {
    if snapshots == [] then [e]
    else if snapshots[0].key == e.key then [e] + snapshots[1..]
    else [snapshots[0]] + Put(snapshots[1..], e)
  }

  predicate DistinctKeys(snapshots: seq<Entry>) {
    forall i, j | 0 <= i < j < |snapshots| :: snapshots[i].key != snapshots[j].key
  }

  /** Every alias points at an existing snapshot. */
  predicate Valid(d: Document) {
    DistinctKeys(d.snapshots) && forall k | k in d.aliases :: Find(d.snapshots, d.aliases[k]).Some?
  }

  predicate Unexpired(e: Entry, now: int) {
    now - e.updatedAt <= MAX_AGE
  }

  function Target(d: Document, key: string): string {
    if key in d.aliases then d.aliases[key] else key
  }

  /** One step of aliasing, then the snapshot, if it has not expired. */
  function Resolve(d: Document, key: string, now: int): Option<Entry> {
    var e := Find(d.snapshots, Target(d, key));
    if e.Some? && Unexpired(e.value, now) then e else None
  }

  function CachedEntry(d: Document, keys: seq<string>, now: int): Option<Entry> {
    if keys == [] then None
    else if Resolve(d, keys[0], now).Some? then Resolve(d, keys[0], now)
    else CachedEntry(d, keys[1..], now)
  }

  /** A lookup finds a snapshot if and only if the key leads to it and it is at most thirty days old, in milliseconds. */
  lemma LookupIsFresh(d: Document, key: string, now: int, e: Entry)
    ensures Resolve(d, key, now) == Some(e) <==>
            && Find(d.snapshots, if key in d.aliases then d.aliases[key] else key) == Some(e)
            && now - e.updatedAt <= 2_592_000_000
  {
  }

  lemma {:induction false} FindPut(snapshots: seq<Entry>, e: Entry, key: string)
    ensures Find(Put(snapshots, e), key) == if key == e.key then Some(e) else Find(snapshots, key)
  {
    if snapshots != [] && snapshots[0].key != e.key {
      FindPut(snapshots[1..], e, key);
    }
  }

  lemma {:induction false} FindKey(snapshots: seq<Entry>, key: string)
    ensures Find(snapshots, key).Some? ==> Find(snapshots, key).value.key == key && Find(snapshots, key).value in snapshots
    ensures Find(snapshots, key).None? <==> forall i | 0 <= i < |snapshots| :: snapshots[i].key != key
  {
    if snapshots != [] {
      FindKey(snapshots[1..], key);
      assert snapshots == [snapshots[0]] + snapshots[1..];
    }
  }

  lemma {:induction false} FindMember(snapshots: seq<Entry>, e: Entry)
    requires DistinctKeys(snapshots) && e in snapshots
    ensures Find(snapshots, e.key) == Some(e)
  {
    var i :| 0 <= i < |snapshots| && snapshots[i] == e;
    if i > 0 {
      assert snapshots[0].key != snapshots[i].key;
      assert snapshots[1..][i - 1] == e;
      assert forall j, k | 0 <= j < k < |snapshots[1..]| :: snapshots[1..][j] == snapshots[j + 1] && snapshots[1..][k] == snapshots[k + 1];
      FindMember(snapshots[1..], e);
    }
  }

  lemma {:induction false} PutDistinct(snapshots: seq<Entry>, e: Entry)
    requires DistinctKeys(snapshots)
    ensures DistinctKeys(Put(snapshots, e))
  {
    if snapshots != [] && snapshots[0].key != e.key {
      var tail := snapshots[1..];
      assert forall i | 0 <= i < |tail| :: tail[i] == snapshots[i + 1];
      PutDistinct(tail, e);
      var r := Put(tail, e);
      FindPut(tail, e, snapshots[0].key);
      FindKey(tail, snapshots[0].key);
      FindKey(r, snapshots[0].key);
    }
  }

  // ---------------------------------------------------------------- storing an item

  /** Every key of the item becomes an alias of one target. */
  function Aliased(aliases: map<string, string>, keys: seq<string>, target: string): map<string, string> {
    if keys == [] then aliases else Aliased(aliases, keys[..|keys| - 1], target)[keys[|keys| - 1] := target]
  }

  /** What is known under `keys` before a store, and the key it is stored under. */
  function Known(d: Document, keys: seq<string>, now: int): Snapshot {
    var previous := CachedEntry(d, keys, now);
    if previous.Some? then previous.value.value else NOTHING
  }

  function StoreKey(d: Document, keys: seq<string>, now: int): string
    requires keys != []
  {
    var previous := CachedEntry(d, keys, now);
    if previous.Some? then previous.value.key else keys[0]
  }

  /** The document after storing `details` under `keys`, and whether it changed; without a key nothing is stored. */
  function Stored(d: Document, keys: seq<string>, details: MediaItem, now: int): (Document, bool) {
    if keys == [] then (d, false)
    else
      var target, value := StoreKey(d, keys, now), Spread(Known(d, keys, now), SnapshotOf(details));
      var renewed := CachedEntry(d, keys, now).None? || Known(d, keys, now) != value;
      var aliases := Aliased(d.aliases, keys, target);
      (Document(if renewed then Put(d.snapshots, Entry(target, now, value)) else d.snapshots, aliases),
       renewed || aliases != d.aliases)
  }

  lemma {:induction false} AliasedProperties(aliases: map<string, string>, keys: seq<string>, target: string, k: string)
    ensures k in Aliased(aliases, keys, target) <==> k in keys || k in aliases
    ensures k in keys ==> Aliased(aliases, keys, target)[k] == target
    ensures k !in keys && k in aliases ==> Aliased(aliases, keys, target)[k] == aliases[k]
  {
    if keys != [] {
      AliasedProperties(aliases, keys[..|keys| - 1], target, k);
      assert keys == keys[..|keys| - 1] + [keys[|keys| - 1]];
    }
  }

  lemma {:induction false} CachedEntryFound(d: Document, keys: seq<string>, now: int)
    ensures CachedEntry(d, keys, now).Some? ==>
              var e := CachedEntry(d, keys, now).value;
              Find(d.snapshots, e.key) == Some(e) && Unexpired(e, now)
  {
    if keys != [] {
      FindKey(d.snapshots, Target(d, keys[0]));
      CachedEntryFound(d, keys[1..], now);
    }
  }

  /** Storing keeps every alias valid, and right after it each key of the item resolves in one step to the same
      unexpired snapshot, which holds the stored details over what was known before. */
  lemma StoredResolves(d: Document, keys: seq<string>, details: MediaItem, now: int) returns (e: Entry)
    requires Valid(d) && keys != []
    ensures var after := Stored(d, keys, details, now).0;
            && Valid(after)
            && (forall k | k in keys :: Resolve(after, k, now) == Some(e))
            && e.value == Spread(Known(d, keys, now), SnapshotOf(details))
  {
    CachedEntryFound(d, keys, now);
    var target, value := StoreKey(d, keys, now), Spread(Known(d, keys, now), SnapshotOf(details));
    var after := Stored(d, keys, details, now).0;
    var renewed := Entry(target, now, value);
    e := if CachedEntry(d, keys, now).None? || Known(d, keys, now) != value then renewed else CachedEntry(d, keys, now).value;
    PutDistinct(d.snapshots, renewed);
    FindPut(d.snapshots, renewed, target);
    forall k | k in after.aliases ensures Find(after.snapshots, after.aliases[k]).Some? {
      AliasedProperties(d.aliases, keys, target, k);
      FindPut(d.snapshots, renewed, after.aliases[k]);
    }
    forall k | k in keys ensures Resolve(after, k, now) == Some(e) {
      AliasedProperties(d.aliases, keys, target, k);
    }
  }

  /** The shown item has every populated text, finite vote, genre list and cast list of the details. */
  predicate Shows(shown: MediaItem, details: MediaItem) {
    && (forall f | f in details.texts && Populated(details.texts[f]) :: f in shown.texts && shown.texts[f] == details.texts[f])
    && (FiniteOf(details.voteAverage).Some? ==> shown.voteAverage == Some(Finite(FiniteOf(details.voteAverage).value)))
    && (FiniteOf(details.voteCount).Some? ==> shown.voteCount == Some(Finite(FiniteOf(details.voteCount).value)))
    && (details.genres.Some? ==> shown.genres == details.genres) && (details.cast.Some? ==> shown.cast == details.cast)
  }

  lemma OverlayShows(item: MediaItem, known: Snapshot, details: MediaItem)
    ensures Shows(Overlay(item, Spread(known, SnapshotOf(details))), details)
  {
  }

  lemma FirstIsFound(d: Document, keys: seq<string>, now: int, e: Entry)
    requires keys != [] && Resolve(d, keys[0], now) == Some(e)
    ensures CachedEntry(d, keys, now) == Some(e)
  {
  }

  /** An item looked up right after it was stored shows every populated text, finite vote, genre list and cast list of the
      stored details. */
  lemma {:induction false} StoredDetailsAreReturned(d: Document, item: MediaItem, details: MediaItem, locale: string, titleId: string, now: int)
    requires Valid(d) && IdentityKeys(item, locale, "") != []
    ensures var found := CachedEntry(Stored(d, IdentityKeys(item, locale, titleId), details, now).0, IdentityKeys(item, locale, ""), now);
            found.Some? && Shows(Overlay(item, found.value.value), details)
  {
    var keys, lookup := IdentityKeys(item, locale, titleId), IdentityKeys(item, locale, "");
    LookupKeysAreStored(item, locale, titleId);
    assert lookup[0] in lookup;
    var e := StoredResolves(d, keys, details, now);
    FirstIsFound(Stored(d, keys, details, now).0, lookup, now, e);
    OverlayShows(item, Known(d, keys, now), details);
  }

  /** A partial refresh loses nothing: what the details leave out stays as it was known. */
  lemma StoredKeepsKnown(d: Document, keys: seq<string>, details: MediaItem, now: int)
    requires Valid(d) && keys != []
    ensures var known := Known(d, keys, now);
            var found := CachedEntry(Stored(d, keys, details, now).0, keys, now);
            && found.Some?
            && var v := found.value.value;
            && (forall f | f in known.texts && !(f in details.texts && Populated(details.texts[f])) ::
                  f in v.texts && v.texts[f] == known.texts[f])
            && (forall f | f in v.texts :: f in known.texts || (f in details.texts && Populated(details.texts[f])))
            && (FiniteOf(details.voteAverage).None? ==> v.voteAverage == known.voteAverage)
            && (FiniteOf(details.voteCount).None? ==> v.voteCount == known.voteCount)
            && v.externalIds == (if details.externalIds == [] then known.externalIds else details.externalIds)
            && (details.genres.None? ==> v.genres == known.genres) && (details.cast.None? ==> v.cast == known.cast)
  {
    var e := StoredResolves(d, keys, details, now);
    assert keys[0] in keys;
  }

  /** What the cache does not know is shown as the item itself has it. */
  lemma OverlayKeepsOwn(item: MediaItem, cached: Snapshot)
    ensures var shown := Overlay(item, cached);
            && (forall f | !(f in cached.texts && Populated(cached.texts[f])) ::
                  (f in shown.texts <==> f in item.texts) && (f in item.texts ==> shown.texts[f] == item.texts[f]))
            && (cached.voteAverage.None? ==> shown.voteAverage == item.voteAverage)
            && (cached.voteCount.None? ==> shown.voteCount == item.voteCount)
            && (cached.genres.None? ==> shown.genres == item.genres) && (cached.cast.None? ==> shown.cast == item.cast)
            && (cached.externalIds == [] ==> shown.externalIds == item.externalIds)
            && shown.id == item.id && shown.titleId == item.titleId && shown.resourceId == item.resourceId
            && shown.mediaType == item.mediaType && shown.sourceAddonId == item.sourceAddonId && shown.sources == item.sources
  {
  }

  // ---------------------------------------------------------------- what the keys are

  function LanguageOf(locale: string): string {
    if Lower(Clipped(locale)) == "" then "und" else Lower(Clipped(locale))
  }

  function TypeOf(item: MediaItem): string {
    Lower(Clipped(item.mediaType))
  }

  lemma KeyHasPrefix(item: MediaItem, locale: string, titleId: string, key: string)
    requires key in IdentityKeys(item, locale, titleId)
    ensures exists identity :: identity in TitleIdentity(titleId) + OwnIdentities(item)
                               && key == LanguageOf(locale) + "|" + (TypeOf(item) + "|" + identity)
  {
    var identities := TitleIdentity(titleId) + OwnIdentities(item);
    var prefix := KeyPrefix(item, locale);
    assert key in Prefixed(prefix, identities);
    var i :| 0 <= i < |identities| && Prefixed(prefix, identities)[i] == key;
    PrefixRegrouped(LanguageOf(locale), TypeOf(item), identities[i]);
    assert identities[i] in identities;
  }

  lemma PrefixRegrouped(language: string, mediaType: string, identity: string)
    ensures language + "|" + mediaType + "|" + identity == language + "|" + (mediaType + "|" + identity)
  {
  }

  /** Two items share a key only in one language, for one media type and with one identity: locales and types are kept
      apart, as long as they have no bar in them. */
  lemma SharedKeyMeansSame(a: MediaItem, la: string, ta: string, b: MediaItem, lb: string, tb: string, key: string)
    requires key in IdentityKeys(a, la, ta) && key in IdentityKeys(b, lb, tb)
    requires Without('|', LanguageOf(la)) && Without('|', LanguageOf(lb)) && Without('|', TypeOf(a)) && Without('|', TypeOf(b))
    ensures LanguageOf(la) == LanguageOf(lb) && TypeOf(a) == TypeOf(b)
    ensures exists identity :: identity in TitleIdentity(ta) + OwnIdentities(a) && identity in TitleIdentity(tb) + OwnIdentities(b)
                               && key == LanguageOf(la) + "|" + (TypeOf(a) + "|" + identity)
  {
    KeyHasPrefix(a, la, ta, key);
    KeyHasPrefix(b, lb, tb, key);
    var x :| x in TitleIdentity(ta) + OwnIdentities(a) && key == LanguageOf(la) + "|" + (TypeOf(a) + "|" + x);
    var y :| y in TitleIdentity(tb) + OwnIdentities(b) && key == LanguageOf(lb) + "|" + (TypeOf(b) + "|" + y);
    SplitAtMark('|', LanguageOf(la), TypeOf(a) + "|" + x, LanguageOf(lb), TypeOf(b) + "|" + y);
    SplitAtMark('|', TypeOf(a), x, TypeOf(b), y);
  }

  /** A title id, of the item or resolved for it, names an identity. */
  predicate TitleNames(title: string, identity: string) {
    Clipped(title) != "" && identity == "title:" + Clipped(title)
  }

  predicate ExternalNames(entry: (string, string), identity: string) {
    var provider, external := Lower(Clipped(entry.0)), Clipped(entry.1);
    provider != "" && external != "" && identity == "external:" + provider + ":" + external
  }

  function SourceName(s: Source): string {
    Clipped(if s.addonId != "" then s.addonId else s.id)
  }

  function ResourceOf(item: MediaItem): string {
    Clipped(if item.resourceId != "" then item.resourceId else item.id)
  }

  /** A source that the item names: one of its sources, or for a channel the addon it came from. */
  ghost predicate NamesSource(item: MediaItem, source: string) {
    && source != ""
    && ((item.mediaType == "tv" && source == Clipped(item.sourceAddonId))
        || exists i :: 0 <= i < |item.sources| && source == SourceName(item.sources[i]))
  }

  /** A resource is identified within each source that the item names, and on its own where it names none. */
  ghost predicate ResourceNames(item: MediaItem, identity: string) {
    && ResourceOf(item) != ""
    && if exists source :: NamesSource(item, source)
       then Within(item, ResourceOf(item), identity)
       else identity == "resource:" + ResourceOf(item)
  }

  lemma {:induction false} ExternalExactly(ids: seq<(string, string)>, identity: string)
    ensures identity in ExternalIdentities(ids) <==> exists i :: 0 <= i < |ids| && ExternalNames(ids[i], identity)
  {
    if ids != [] {
      var front, last := ids[..|ids| - 1], ids[|ids| - 1];
      ExternalExactly(front, identity);
      if i :| 0 <= i < |ids| && ExternalNames(ids[i], identity) {
        assert i < |front| ==> front[i] == ids[i];
      }
      if i :| 0 <= i < |front| && ExternalNames(front[i], identity) {
        assert ids[i] == front[i];
      }
      assert ids[|front|] == last;
    }
  }

  lemma {:induction false} SourcesExactly(sources: seq<Source>, resource: string, identity: string)
    ensures identity in SourceIdentities(sources, resource) <==>
            exists i :: 0 <= i < |sources| && SourceName(sources[i]) != ""
                        && identity == "resource:" + SourceName(sources[i]) + ":" + resource
  {
    if sources != [] {
      var front, last := sources[..|sources| - 1], sources[|sources| - 1];
      SourcesExactly(front, resource, identity);
      if i :| 0 <= i < |sources| && SourceName(sources[i]) != "" && identity == "resource:" + SourceName(sources[i]) + ":" + resource {
        assert i < |front| ==> front[i] == sources[i];
      }
      if i :| 0 <= i < |front| && SourceName(front[i]) != "" && identity == "resource:" + SourceName(front[i]) + ":" + resource {
        assert sources[i] == front[i];
      }
      assert sources[|front|] == last;
    }
  }

  /** The identities of a resource within sources. */
  function NamedIdentities(item: MediaItem, resource: string): seq<string> {
    var tv := if item.mediaType == "tv" then Clipped(item.sourceAddonId) else "";
    (if tv != "" then ["resource:" + tv + ":" + resource] else []) + SourceIdentities(item.sources, resource)
  }

  ghost predicate Within(item: MediaItem, resource: string, identity: string) {
    exists source :: NamesSource(item, source) && identity == "resource:" + source + ":" + resource
  }

  lemma NamedExactly(item: MediaItem, resource: string, identity: string)
    ensures identity in NamedIdentities(item, resource) <==> Within(item, resource, identity)
  {
    var tv := if item.mediaType == "tv" then Clipped(item.sourceAddonId) else "";
    SourcesExactly(item.sources, resource, identity);
    if identity in SourceIdentities(item.sources, resource) {
      var i :| 0 <= i < |item.sources| && SourceName(item.sources[i]) != ""
               && identity == "resource:" + SourceName(item.sources[i]) + ":" + resource;
      assert NamesSource(item, SourceName(item.sources[i]));
    } else if tv != "" && identity == "resource:" + tv + ":" + resource {
      assert NamesSource(item, tv);
    }
    if source :| NamesSource(item, source) && identity == "resource:" + source + ":" + resource {
      if !(item.mediaType == "tv" && source == Clipped(item.sourceAddonId)) {
        var i :| 0 <= i < |item.sources| && source == SourceName(item.sources[i]);
        assert SourceName(item.sources[i]) != "";
      }
    }
  }

  lemma NamedEmpty(item: MediaItem, resource: string)
    ensures NamedIdentities(item, resource) != [] <==> exists source :: NamesSource(item, source)
  {
    var named := NamedIdentities(item, resource);
    if named != [] {
      NamedExactly(item, resource, named[0]);
      var source :| NamesSource(item, source) && named[0] == "resource:" + source + ":" + resource;
    }
    if source :| NamesSource(item, source) {
      NamedExactly(item, resource, "resource:" + source + ":" + resource);
      assert Within(item, resource, "resource:" + source + ":" + resource);
    }
  }

  lemma ResourceExactly(item: MediaItem, identity: string)
    ensures identity in ResourceIdentities(item) <==> ResourceNames(item, identity)
  {
    NamedExactly(item, ResourceOf(item), identity);
    NamedEmpty(item, ResourceOf(item));
  }

  /** An item is kept under an identity if and only if a title id, an external id or its resource names it. */
  lemma IdentitiesExactly(item: MediaItem, titleId: string, identity: string)
    ensures identity in TitleIdentity(titleId) + OwnIdentities(item) <==>
            || TitleNames(titleId, identity) || TitleNames(item.titleId, identity)
            || (exists i :: 0 <= i < |item.externalIds| && ExternalNames(item.externalIds[i], identity))
            || ResourceNames(item, identity)
  {
    ExternalExactly(item.externalIds, identity);
    ResourceExactly(item, identity);
  }

  /** The first key, under which a new snapshot is stored, is a title's wherever there is a title id: the resolved one, then
      the item's own. */
  lemma TitleKeyComesFirst(item: MediaItem, locale: string, titleId: string)
    requires Clipped(titleId) != "" || Clipped(item.titleId) != ""
    ensures var keys := IdentityKeys(item, locale, titleId);
            var title := if Clipped(titleId) != "" then Clipped(titleId) else Clipped(item.titleId);
            keys != [] && keys[0] == KeyPrefix(item, locale) + ("title:" + title)
  {
    var identities := TitleIdentity(titleId) + OwnIdentities(item);
    var title := if Clipped(titleId) != "" then Clipped(titleId) else Clipped(item.titleId);
    assert identities[0] == "title:" + title;
    DistinctKeepsFirst(Prefixed(KeyPrefix(item, locale), identities));
  }

  // ---------------------------------------------------------------- expiry and eviction

  function Alive(snapshots: seq<Entry>, now: int): seq<Entry> {
    if snapshots == [] then []
    else
      Alive(snapshots[..|snapshots| - 1], now)
      + (if Unexpired(snapshots[|snapshots| - 1], now) then [snapshots[|snapshots| - 1]] else [])
  }

  /** Stable insertion, newest first. */
  function InsertByAge(sorted: seq<Entry>, e: Entry): seq<Entry> {
    if sorted == [] || sorted[|sorted| - 1].updatedAt >= e.updatedAt then sorted + [e]
    else InsertByAge(sorted[..|sorted| - 1], e) + [sorted[|sorted| - 1]]
  }

  function NewestFirst(snapshots: seq<Entry>): seq<Entry> {
    if snapshots == [] then [] else InsertByAge(NewestFirst(snapshots[..|snapshots| - 1]), snapshots[|snapshots| - 1])
  }

  function Retained(d: Document, now: int): seq<Entry> {
    var sorted := NewestFirst(Alive(d.snapshots, now));
    if |sorted| <= MAX_SNAPSHOTS then sorted else sorted[..MAX_SNAPSHOTS]
  }

  /** The document that `persist` leaves in memory and writes. */
  function Persisted(d: Document, now: int): Document {
    var kept := Retained(d, now);
    Document(kept, map k | k in d.aliases && Find(kept, d.aliases[k]).Some? :: d.aliases[k])
  }

  ghost predicate Descending(s: seq<Entry>) {
    forall i, j | 0 <= i < j < |s| :: s[i].updatedAt >= s[j].updatedAt
  }

  lemma {:induction false} AliveMembers(snapshots: seq<Entry>, now: int)
    requires DistinctKeys(snapshots)
    ensures forall e :: e in Alive(snapshots, now) <==> e in snapshots && Unexpired(e, now)
    ensures DistinctKeys(Alive(snapshots, now))
  {
    if snapshots != [] {
      var front, last := snapshots[..|snapshots| - 1], snapshots[|snapshots| - 1];
      assert snapshots == front + [last];
      AliveMembers(front, now);
      var a := Alive(front, now);
      forall i | 0 <= i < |a| ensures a[i].key != last.key {
        assert a[i] in a;
        var j :| 0 <= j < |front| && front[j] == a[i];
        assert snapshots[j].key != snapshots[|front|].key;
      }
    }
  }

  lemma {:induction false} InsertByAgeMembers(sorted: seq<Entry>, e: Entry)
    ensures forall x :: x in InsertByAge(sorted, e) <==> x in sorted || x == e
  {
    if sorted != [] && sorted[|sorted| - 1].updatedAt < e.updatedAt {
      InsertByAgeMembers(sorted[..|sorted| - 1], e);
      assert sorted == sorted[..|sorted| - 1] + [sorted[|sorted| - 1]];
    }
  }

  lemma {:induction false} InsertByAgeDescends(sorted: seq<Entry>, e: Entry)
    requires Descending(sorted)
    ensures Descending(InsertByAge(sorted, e))
  {
    if sorted != [] && sorted[|sorted| - 1].updatedAt < e.updatedAt {
      var front, last := sorted[..|sorted| - 1], sorted[|sorted| - 1];
      InsertByAgeDescends(front, e);
      InsertByAgeMembers(front, e);
      var r := InsertByAge(front, e);
      forall i | 0 <= i < |r| ensures r[i].updatedAt >= last.updatedAt {
        assert r[i] in r;
        if r[i] != e {
          var j :| 0 <= j < |front| && front[j] == r[i];
          assert sorted[j].updatedAt >= sorted[|front|].updatedAt;
        }
      }
    }
  }

  lemma {:induction false} InsertByAgeDistinct(sorted: seq<Entry>, e: Entry)
    requires DistinctKeys(sorted) && forall x | x in sorted :: x.key != e.key
    ensures DistinctKeys(InsertByAge(sorted, e))
  {
    if sorted != [] && sorted[|sorted| - 1].updatedAt < e.updatedAt {
      var front, last := sorted[..|sorted| - 1], sorted[|sorted| - 1];
      InsertByAgeDistinct(front, e);
      InsertByAgeMembers(front, e);
      var r := InsertByAge(front, e);
      assert last in sorted;
      forall i | 0 <= i < |r| ensures r[i].key != last.key {
        assert r[i] in r;
        if r[i] != e {
          var j :| 0 <= j < |front| && front[j] == r[i];
          assert sorted[j].key != sorted[|front|].key;
        }
      }
    } else {
      forall i | 0 <= i < |sorted| ensures sorted[i].key != e.key {
        assert sorted[i] in sorted;
      }
    }
  }

  lemma {:induction false} NewestFirstProperties(snapshots: seq<Entry>)
    requires DistinctKeys(snapshots)
    ensures forall x :: x in NewestFirst(snapshots) <==> x in snapshots
    ensures Descending(NewestFirst(snapshots)) && DistinctKeys(NewestFirst(snapshots))
  {
    if snapshots != [] {
      var front, last := snapshots[..|snapshots| - 1], snapshots[|snapshots| - 1];
      assert snapshots == front + [last];
      NewestFirstProperties(front);
      forall x | x in NewestFirst(front) ensures x.key != last.key {
        var j :| 0 <= j < |front| && front[j] == x;
        assert snapshots[j].key != snapshots[|front|].key;
      }
      InsertByAgeMembers(NewestFirst(front), last);
      InsertByAgeDescends(NewestFirst(front), last);
      InsertByAgeDistinct(NewestFirst(front), last);
    }
  }

  /** `persist` keeps at most 256 snapshots, all unexpired, none older than an unexpired one it drops; no alias dangles. */
  lemma PersistKeepsNewest(d: Document, now: int)
    requires Valid(d)
    ensures var p := Persisted(d, now);
            && Valid(p) && |p.snapshots| <= MAX_SNAPSHOTS
            && (forall e | e in p.snapshots :: e in d.snapshots && Unexpired(e, now))
            && (forall e, f | e in p.snapshots && f in d.snapshots && Unexpired(f, now) && f !in p.snapshots ::
                  e.updatedAt >= f.updatedAt)
            && (|p.snapshots| < MAX_SNAPSHOTS ==> forall f | f in d.snapshots && Unexpired(f, now) :: f in p.snapshots)
  {
    AliveMembers(d.snapshots, now);
    var alive := Alive(d.snapshots, now);
    NewestFirstProperties(alive);
    var sorted, kept := NewestFirst(alive), Retained(d, now);
    assert kept <= sorted;
    assert forall e | e in kept :: e in sorted;
    forall e, f | e in kept && f in sorted && f !in kept ensures e.updatedAt >= f.updatedAt {
      var i :| 0 <= i < |kept| && kept[i] == e;
      var j :| 0 <= j < |sorted| && sorted[j] == f;
      assert j >= |kept|;
    }
  }

  /** A key whose target survives resolves exactly as before; an alias whose target goes leaves its key to itself. */
  lemma PersistKeepsLookups(d: Document, key: string, now: int)
    requires Valid(d)
    ensures var p := Persisted(d, now);
            && (Find(p.snapshots, Target(d, key)).Some? ==>
                  Target(p, key) == Target(d, key) && Find(p.snapshots, Target(p, key)) == Find(d.snapshots, Target(d, key)))
            && (Find(p.snapshots, Target(d, key)).None? ==> Target(p, key) == key)
  {
    PersistKeepsNewest(d, now);
    var p := Persisted(d, now);
    var found := Find(p.snapshots, Target(d, key));
    if found.Some? {
      FindKey(p.snapshots, Target(d, key));
      FindMember(d.snapshots, found.value);
    }
  }

  /** Persisting leaves a lookup the same or turns it into a miss exactly when the target of the key is kept or the key
      has no kept snapshot of its own. */
  lemma PersistSameOrMiss(d: Document, key: string, now: int)
    requires Valid(d)
    ensures var p := Persisted(d, now);
            (Resolve(p, key, now) == Resolve(d, key, now) || Resolve(p, key, now).None?)
            <==> Find(p.snapshots, Target(d, key)).Some? || Find(p.snapshots, key).None?
  {
    var p := Persisted(d, now);
    PersistKeepsLookups(d, key, now);
    PersistKeepsNewest(d, now);
    FindKey(p.snapshots, key);
    FindKey(p.snapshots, Target(d, key));
    FindKey(d.snapshots, Target(d, key));
  }

  lemma {:induction false} AliveAll(snapshots: seq<Entry>, now: int)
    requires forall i | 0 <= i < |snapshots| :: Unexpired(snapshots[i], now)
    ensures Alive(snapshots, now) == snapshots
  {
    if snapshots != [] {
      AliveAll(snapshots[..|snapshots| - 1], now);
    }
  }

  lemma {:induction false} NewestFirstSorted(snapshots: seq<Entry>)
    requires Descending(snapshots)
    ensures NewestFirst(snapshots) == snapshots
  {
    if snapshots != [] {
      NewestFirstSorted(snapshots[..|snapshots| - 1]);
    }
  }

  /** A full document drops the snapshot that is older than all the others. */
  lemma OldestIsEvicted(crowd: seq<Entry>, oldest: Entry, aliases: map<string, string>, now: int)
    requires |crowd| == MAX_SNAPSHOTS && Descending(crowd + [oldest])
    requires forall i | 0 <= i < |crowd + [oldest]| :: Unexpired((crowd + [oldest])[i], now)
    ensures Persisted(Document(crowd + [oldest], aliases), now).snapshots == crowd
  {
    AliveAll(crowd + [oldest], now);
    NewestFirstSorted(crowd + [oldest]);
  }

  function Repeated(n: nat): string {
    seq(n, _ => 'b')
  }

  const TARGET := Entry("a", 0, NOTHING.(texts := map[Title := "The target"]))
  const OWN := Entry("b", 1, NOTHING)

  lemma CrowdLookups(crowd: seq<Entry>)
    requires |crowd| == MAX_SNAPSHOTS && forall i | 0 <= i < |crowd| :: crowd[i] == Entry(Repeated(i + 1), 1, NOTHING)
    ensures DistinctKeys(crowd + [TARGET]) && Descending(crowd + [TARGET])
    ensures forall i | 0 <= i < |crowd + [TARGET]| :: Unexpired((crowd + [TARGET])[i], 1)
    ensures Find(crowd, "b") == Some(OWN) && Find(crowd, "a").None? && Find(crowd + [TARGET], "a") == Some(TARGET)
  {
    var s := crowd + [TARGET];
    forall i | 0 <= i < MAX_SNAPSHOTS ensures s[i].key != "a" && |s[i].key| == i + 1 {
      assert s[i].key[0] == 'b';
    }
    assert crowd[0].key == "b";
    FindKey(crowd, "a");
    assert s[MAX_SNAPSHOTS] in s;
    FindMember(s, TARGET);
  }

  /** Evicting the target of an alias exposes the snapshot that the key has of its own: in a full document the lookup finds
      the target before persisting, and afterwards neither the target nor a miss. */
  lemma EvictionExposesOwn(crowd: seq<Entry>, target: Entry, own: Entry, key: string, now: int)
    requires |crowd| == MAX_SNAPSHOTS && DistinctKeys(crowd + [target]) && Descending(crowd + [target])
    requires forall i | 0 <= i < |crowd + [target]| :: Unexpired((crowd + [target])[i], now)
    requires Find(crowd, key) == Some(own) && Find(crowd, target.key).None?
    ensures var d := Document(crowd + [target], map[key := target.key]);
            Valid(d) && Resolve(d, key, now) == Some(target) && Resolve(Persisted(d, now), key, now) == Some(own)
  {
    var all, aliases := crowd + [target], map[key := target.key];
    assert all[|crowd|] == target && target in all;
    FindMember(all, target);
    OldestIsEvicted(crowd, target, aliases, now);
    FindKey(crowd, key);
  }

  /** One such document, with the crowd under the keys "b", "bb" and so on. */
  lemma EvictionCanExposeAnother(crowd: seq<Entry>)
    requires |crowd| == MAX_SNAPSHOTS && forall i | 0 <= i < |crowd| :: crowd[i] == Entry(Repeated(i + 1), 1, NOTHING)
    ensures var d := Document(crowd + [TARGET], map["b" := "a"]);
            Valid(d) && Resolve(d, "b", 1) == Some(TARGET) && Resolve(Persisted(d, 1), "b", 1) == Some(OWN)
  {
    CrowdLookups(crowd);
    EvictionExposesOwn(crowd, TARGET, OWN, "b", 1);
  }
}
