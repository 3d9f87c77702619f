/** The cached Home: which folders it keeps, how much of each, and for which collections. */
module HomeCache {
  import opened Prelude
  import opened UniqueJson
  import opened StableJson

  const MAX_SERIALIZED := 2_000_000
  const MAX_ITEMS := 5

  /** A folder with the items resolved for it; `other` stands for the fields the cache does not look at. */
  datatype Resolved = Resolved(collectionId: string, folderId: string, items: seq<Json>, page: int, hasMore: bool, other: Json)

  datatype Entry = Entry(key: string, folder: Resolved)

  /** Collections are kept as the JSON they arrived as; folders keep their insertion order. */
  datatype Document = Document(collections: seq<Json>, folders: seq<Entry>, signature: string, updatedAt: int)

  function KeyOf(r: Resolved): string {
    r.collectionId + ":" + r.folderId
  }

  function CacheProjection(r: Resolved): Resolved {
    if |r.items| <= MAX_ITEMS then r else r.(items := r.items[..MAX_ITEMS], page := 0, hasMore := true)
  }

  /** A field of a decoded object, if it is a string. */
  function TextField(v: Value, key: string): Option<string> {
    if v.VObject? && key in v.members && v.members[key].VString? then Some(v.members[key].text) else None
  }

  predicate Follows(v: Value, id: string) {
    TextField(v, "viewMode") == Some("follow_layout") && TextField(v, "id") == Some(id)
  }

  /** Whether a collection follows the layout, so that its folders are cached whole. */
  predicate Direct(collections: seq<Json>, id: string) {
    exists i | 0 <= i < |collections| :: Follows(Decode(collections[i]), id)
  }

  function Projected(collections: seq<Json>, r: Resolved): Resolved {
    if Direct(collections, r.collectionId) then r else CacheProjection(r)
  }

  function Signature(collections: seq<Json>): string {
    Stable(JArray(collections))
  }

  // ---------------------------------------------------------------- the insertion-ordered folder map

  function Put(entries: seq<Entry>, e: Entry): seq<Entry> {
    if entries == [] then [e]
    else if entries[0].key == e.key then [e] + entries[1..]
    else [entries[0]] + Put(entries[1..], e)
  }

  /** `Object.fromEntries` over the rows that name a folder. */
  function FoldersOf(collections: seq<Json>, rows: seq<Resolved>): seq<Entry> {
    if rows == [] then []
    else
      var front, last := FoldersOf(collections, rows[..|rows| - 1]), rows[|rows| - 1];
      if last.folderId == "" then front else Put(front, Entry(KeyOf(last), Projected(collections, last)))
  }

  function Values(entries: seq<Entry>): seq<Resolved> {
    seq(|entries|, i requires 0 <= i < |entries| => entries[i].folder)
  }

  function ProjectAll(collections: seq<Json>, entries: seq<Entry>): seq<Entry> {
    seq(|entries|, i requires 0 <= i < |entries| => entries[i].(folder := Projected(collections, entries[i].folder)))
  }

  // ---------------------------------------------------------------- writing

  method WriteHomeCache(collections: seq<Json>, rows: seq<Resolved>, updatedAt: int, length: Document -> nat)
    returns (document: Document)
    ensures document.collections == collections && document.signature == Signature(collections)
    ensures document.updatedAt == updatedAt && WellMade(document)
    ensures document.folders <= FoldersOf(collections, rows)
    ensures length(document) <= MAX_SERIALIZED || document.folders == []
    ensures forall n | |document.folders| < n <= |FoldersOf(collections, rows)| ::
              length(document.(folders := FoldersOf(collections, rows)[..n])) > MAX_SERIALIZED
  {
    var folders: seq<Entry> := [];
    for i := 0 to |rows|
      invariant folders == FoldersOf(collections, rows[..i])
    {
      assert rows[..i + 1][..i] == rows[..i];
      if rows[i].folderId != "" {
        folders := Put(folders, Entry(KeyOf(rows[i]), Projected(collections, rows[i])));
      }
    }
    assert rows[..|rows|] == rows;
    document := Document(collections, folders, Signature(collections), updatedAt);
    ghost var all := folders;
    FoldersWellMade(collections, rows);
    while length(document) > MAX_SERIALIZED && |document.folders| > 0
      invariant document == Document(collections, document.folders, Signature(collections), updatedAt)
      invariant document.folders <= all
      invariant forall n | |document.folders| < n <= |all| :: length(document.(folders := all[..n])) > MAX_SERIALIZED
      decreases |document.folders|
    {
      assert document.(folders := all[..|document.folders|]) == document;
      document := document.(folders := document.folders[..|document.folders| - 1]);
    }
  }

  method WriteHomeFolderCache(existing: Option<Document>, collections: seq<Json>, resolved: Resolved, updatedAt: int,
                              length: Document -> nat)
    returns (document: Document)
    ensures document.collections == collections && WellMade(document)
    ensures document.signature == Signature(collections) && document.updatedAt == updatedAt
    ensures document.folders <= FoldersOf(collections, Values(FoldersWith(existing, collections, resolved)))
    ensures length(document) <= MAX_SERIALIZED || document.folders == []
    ensures var all := FoldersOf(collections, Values(FoldersWith(existing, collections, resolved)));
            forall n | |document.folders| < n <= |all| :: length(document.(folders := all[..n])) > MAX_SERIALIZED
  {
    var folders := if existing.Some? && existing.value.signature == Signature(collections) then existing.value.folders else [];
    if resolved.folderId != "" {
      folders := Put(folders, Entry(KeyOf(resolved), resolved));
    }
    document := WriteHomeCache(collections, Values(folders), updatedAt, length);
  }

  function FoldersWith(existing: Option<Document>, collections: seq<Json>, resolved: Resolved): seq<Entry> {
    var stored := if existing.Some? && existing.value.signature == Signature(collections) then existing.value.folders else [];
    if resolved.folderId == "" then stored else Put(stored, Entry(KeyOf(resolved), resolved))
  }

  // ---------------------------------------------------------------- what a written document satisfies

  predicate DistinctKeys(entries: seq<Entry>) {
    forall i, j | 0 <= i < j < |entries| :: entries[i].key != entries[j].key
  }

  predicate Keyed(entries: seq<Entry>) {
    forall i | 0 <= i < |entries| :: entries[i].key == KeyOf(entries[i].folder) && entries[i].folder.folderId != ""
  }

  /** What every document written by `WriteHomeCache` satisfies. */
  predicate WellMade(d: Document) {
    && d.signature == Signature(d.collections) && DistinctKeys(d.folders) && Keyed(d.folders)
    && forall i | 0 <= i < |d.folders| :: Projected(d.collections, d.folders[i].folder) == d.folders[i].folder
  }

  lemma ProjectionIdempotent(collections: seq<Json>, r: Resolved)
    ensures Projected(collections, Projected(collections, r)) == Projected(collections, r)
    ensures KeyOf(Projected(collections, r)) == KeyOf(r)
  {
  }

  lemma {:induction false} PutProperties(entries: seq<Entry>, e: Entry)
    requires DistinctKeys(entries)
    ensures DistinctKeys(Put(entries, e))
    ensures forall x | x in Put(entries, e) :: x == e || x in entries
    ensures (forall i | 0 <= i < |entries| :: entries[i].key != e.key) ==> Put(entries, e) == entries + [e]
  {
    if entries != [] && entries[0].key != e.key {
      var tail := entries[1..];
      assert forall i | 0 <= i < |tail| :: tail[i] == entries[i + 1];
      PutProperties(tail, e);
      var r := Put(tail, e);
      forall j | 0 <= j < |r| ensures r[j].key != entries[0].key {
        assert r[j] in r;
      }
      assert entries == [entries[0]] + tail;
    }
  }

  lemma {:induction false} FoldersOfStored(collections: seq<Json>, entries: seq<Entry>)
    requires DistinctKeys(entries) && Keyed(entries)
    ensures FoldersOf(collections, Values(entries)) == ProjectAll(collections, entries)
  {
    if entries != [] {
      var front := entries[..|entries| - 1];
      FoldersOfStored(collections, front);
      assert Values(entries)[..|entries| - 1] == Values(front);
      PutProperties(ProjectAll(collections, front), ProjectAll(collections, entries)[|entries| - 1]);
    }
  }

  lemma ProjectCons(collections: seq<Json>, x: Entry, rest: seq<Entry>)
    ensures ProjectAll(collections, [x] + rest)
            == [x.(folder := Projected(collections, x.folder))] + ProjectAll(collections, rest)
  {
  }

  lemma {:induction false} ProjectPut(collections: seq<Json>, entries: seq<Entry>, e: Entry)
    requires ProjectAll(collections, entries) == entries
    ensures ProjectAll(collections, Put(entries, e)) == Put(entries, e.(folder := Projected(collections, e.folder)))
  {
    if entries == [] {
      ProjectCons(collections, e, []);
    } else {
      var tail := entries[1..];
      assert entries == [entries[0]] + tail;
      ProjectCons(collections, entries[0], tail);
      if entries[0].key == e.key {
        ProjectCons(collections, e, tail);
      } else {
        ProjectCons(collections, entries[0], Put(tail, e));
        ProjectPut(collections, tail, e);
      }
    }
  }

  /** The folder map of any rows is well made, and so is every initial run of it. */
  lemma {:induction false} FoldersWellMade(collections: seq<Json>, rows: seq<Resolved>)
    ensures var f := FoldersOf(collections, rows);
            && DistinctKeys(f) && Keyed(f)
            && forall i | 0 <= i < |f| :: Projected(collections, f[i].folder) == f[i].folder
  {
    if rows != [] {
      var front, last := rows[..|rows| - 1], rows[|rows| - 1];
      FoldersWellMade(collections, front);
      if last.folderId != "" {
        var f, e := FoldersOf(collections, front), Entry(KeyOf(last), Projected(collections, last));
        PutProperties(f, e);
        var r := Put(f, e);
        ProjectionIdempotent(collections, last);
        forall i | 0 <= i < |r|
          ensures && r[i].key == KeyOf(r[i].folder) && r[i].folder.folderId != ""
                  && Projected(collections, r[i].folder) == r[i].folder
        {
          assert r[i] in r;
        }
      }
    }
  }

  ghost predicate IsJson(collections: seq<Json>) {
    Unique(JArray(collections)) && WellFormed(Decode(JArray(collections)))
  }

  /** Equal signatures mean equal collections up to member order, and so the same directly cached collections. */
  lemma SignatureDecides(a: seq<Json>, b: seq<Json>)
    requires IsJson(a) && IsJson(b)
    ensures Signature(a) == Signature(b) <==> Decode(JArray(a)) == Decode(JArray(b))
    ensures Signature(a) == Signature(b) ==> forall id :: Direct(a, id) <==> Direct(b, id)
  {
    StableIsCanonical(JArray(a), JArray(b));
    if Decode(JArray(a)) == Decode(JArray(b)) {
      var x, y := Decode(JArray(a)).items, Decode(JArray(b)).items;
      assert x == y && |a| == |b|;
      assert forall i | 0 <= i < |a| :: Decode(a[i]) == x[i] && Decode(b[i]) == y[i];
    }
  }

  /** `stored` with the resolved folder in it, if the folder has an id. */
  function WithFolder(collections: seq<Json>, stored: seq<Entry>, resolved: Resolved): seq<Entry> {
    if resolved.folderId == "" then stored else Put(stored, Entry(KeyOf(resolved), Projected(collections, resolved)))
  }

  /** Caching one folder keeps the old folders exactly when the collections are the same up to member order; the kept
      ones stay as they were, in their order, and the new folder takes the place of an older copy of itself. A folder
      without an id is not cached. */
  lemma FolderWriteKeepsFolders(existing: Document, collections: seq<Json>, resolved: Resolved)
    requires WellMade(existing) && IsJson(existing.collections) && IsJson(collections)
    ensures var same := Decode(JArray(existing.collections)) == Decode(JArray(collections));
            FoldersOf(collections, Values(FoldersWith(Some(existing), collections, resolved)))
            == WithFolder(collections, if same then existing.folders else [], resolved)
  {
    SignatureDecides(existing.collections, collections);
    var stored := if existing.signature == Signature(collections) then existing.folders else [];
    assert ProjectAll(collections, stored) == stored;
    if resolved.folderId == "" {
      FoldersOfStored(collections, stored);
    } else {
      PutIsRewritten(collections, stored, resolved);
    }
  }

  lemma PutIsRewritten(collections: seq<Json>, stored: seq<Entry>, resolved: Resolved)
    requires DistinctKeys(stored) && Keyed(stored) && ProjectAll(collections, stored) == stored && resolved.folderId != ""
    ensures FoldersOf(collections, Values(Put(stored, Entry(KeyOf(resolved), resolved))))
            == Put(stored, Entry(KeyOf(resolved), Projected(collections, resolved)))
  {
    var e := Entry(KeyOf(resolved), resolved);
    PutProperties(stored, e);
    var entries := Put(stored, e);
    forall i | 0 <= i < |entries| ensures entries[i].key == KeyOf(entries[i].folder) && entries[i].folder.folderId != "" {
      assert entries[i] in entries;
    }
    FoldersOfStored(collections, entries);
    ProjectPut(collections, stored, e);
  }

  // ---------------------------------------------------------------- what a cached folder shows

  /** The document has a member with this key and text. */
  ghost predicate Says(j: Json, key: string, text: string) {
    j.JObject? && exists i :: 0 <= i < |j.members| && j.members[i] == Member(key, JString(text))
  }

  lemma SaysText(j: Json, key: string, text: string)
    requires Unique(j)
    ensures TextField(Decode(j), key) == Some(text) <==> Says(j, key, text)
  {
    if j.JObject? {
      DecodedKey(j.members, key);
      forall i | 0 <= i < |j.members| && j.members[i].key == key
        ensures key in DecodeMembers(j.members) && DecodeMembers(j.members)[key] == Decode(j.members[i].value)
      {
        MemberSurvives(j.members, i);
      }
      if TextField(Decode(j), key) == Some(text) {
        var i :| 0 <= i < |j.members| && j.members[i].key == key;
        assert Decode(j.members[i].value) == VString(text);
        assert j.members[i] == Member(key, JString(text));
      }
    }
  }

  /** The collection follows the layout: its document says so. */
  ghost predicate FollowsLayout(collections: seq<Json>, id: string) {
    exists i :: 0 <= i < |collections| && Says(collections[i], "viewMode", "follow_layout") && Says(collections[i], "id", id)
  }

  lemma DirectFollowsLayout(collections: seq<Json>, id: string)
    requires forall i | 0 <= i < |collections| :: Unique(collections[i])
    ensures Direct(collections, id) <==> FollowsLayout(collections, id)
  {
    forall i | 0 <= i < |collections|
      ensures Follows(Decode(collections[i]), id) <==>
              Says(collections[i], "viewMode", "follow_layout") && Says(collections[i], "id", id)
    {
      SaysText(collections[i], "viewMode", "follow_layout");
      SaysText(collections[i], "id", id);
    }
    if i :| 0 <= i < |collections| && Says(collections[i], "viewMode", "follow_layout") && Says(collections[i], "id", id) {
      assert Follows(Decode(collections[i]), id);
    }
  }

  /** A folder of a collection that follows the layout is cached whole; of any other, its first five items are, and where
      that leaves some out it claims the first page and more to come. Nothing else of it changes. */
  lemma CachedFolderShows(collections: seq<Json>, r: Resolved)
    requires forall i | 0 <= i < |collections| :: Unique(collections[i])
    ensures var q := Projected(collections, r);
            if FollowsLayout(collections, r.collectionId) || |r.items| <= 5 then q == r
            else
              && |q.items| == 5 && (forall i | 0 <= i < 5 :: q.items[i] == r.items[i]) && q.page == 0 && q.hasMore
              && q.collectionId == r.collectionId && q.folderId == r.folderId && q.other == r.other
  {
    DirectFollowsLayout(collections, r.collectionId);
  }
}
