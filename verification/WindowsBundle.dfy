/** The three executables embedded in the Windows installer, read from its ZIP overlay. */
module WindowsBundle {
  import opened Prelude
  import opened ManifestValues

  const X64_NAME := "Rivune-x64.exe"
  const ARM64_NAME := "Rivune-arm64.exe"
  const UNINSTALLER_NAME := "Rivune-Uninstall.exe"
  const MAX_SIZE: int64 := 0x7FFF_FFFF

  datatype Metadata = Metadata(size: int64, digest: string)

  /** An archive entry; `content` is None where it cannot be read to the end. */
  datatype ZipEntry = ZipEntry(name: string, regular: bool, deflated: bool, declaredSize: nat, content: Option<Metadata>)

  const NAMES := {X64_NAME, ARM64_NAME, UNINSTALLER_NAME}

  lemma ThreeNames()
    ensures |NAMES| == 3
  {
    assert |X64_NAME| == 14 && |ARM64_NAME| == 16 && |UNINSTALLER_NAME| == 20;
  }

  predicate Acceptable(e: ZipEntry, expected: set<string>) {
    && e.name in expected && e.regular && e.deflated && 0 < e.declaredSize <= MAX_SIZE
    && e.content.Some? && e.content.value.size == e.declaredSize
  }

  function Names(entries: seq<ZipEntry>): set<string> {
    if entries == [] then {} else Names(entries[..|entries| - 1]) + {entries[|entries| - 1].name}
  }

  /** Acceptable entries, none of a name that an earlier one has. */
  predicate AllAcceptable(entries: seq<ZipEntry>, expected: set<string>) {
    entries == []
    || (var front, last := entries[..|entries| - 1], entries[|entries| - 1];
        AllAcceptable(front, expected) && Acceptable(last, expected) && last.name !in Names(front))
  }

  function Contents(entries: seq<ZipEntry>, expected: set<string>): map<string, Metadata>
    requires AllAcceptable(entries, expected)
  {
    if entries == [] then map[]
    else Contents(entries[..|entries| - 1], expected)[entries[|entries| - 1].name := entries[|entries| - 1].content.value]
  }

  /** The metadata of a bundle of exactly three acceptable entries. */
  function Bundle(entries: seq<ZipEntry>): Option<map<string, Metadata>> {
    if |entries| == 3 && AllAcceptable(entries, NAMES) then Some(Contents(entries, NAMES)) else None
  }

  lemma {:induction false} ContentsKeys(entries: seq<ZipEntry>, expected: set<string>)
    requires AllAcceptable(entries, expected)
    ensures Contents(entries, expected).Keys == Names(entries) <= expected && |Names(entries)| == |entries|
    ensures forall n | n in Contents(entries, expected) :: 0 < Contents(entries, expected)[n].size <= MAX_SIZE
  {
    if entries != [] {
      ContentsKeys(entries[..|entries| - 1], expected);
    }
  }

  /** An accepted entry keeps its own size and digest, whatever follows it. */
  lemma {:induction false} EntryIsKept(entries: seq<ZipEntry>, expected: set<string>, i: nat)
    requires AllAcceptable(entries, expected) && i < |entries|
    ensures entries[i].name in Contents(entries, expected) && entries[i].content == Some(Contents(entries, expected)[entries[i].name])
  {
    ContentsKeys(entries, expected);
    if i < |entries| - 1 {
      ContentsKeys(entries[..|entries| - 1], expected);
      EntryIsKept(entries[..|entries| - 1], expected, i);
    }
  }

  lemma SubsetOfSameSize<T>(a: set<T>, b: set<T>)
    requires a <= b && |a| == |b|
    ensures a == b
  {
    assert |b - a| == |b| - |a|;
  }

  lemma LargerSet<T>(a: set<T>, b: set<T>)
    requires a <= b
    ensures |a| <= |b|
  {
    assert |b| == |a| + |b - a|;
  }

  /** Three distinct expected names are all of them: an accepted bundle holds metadata for each executable. */
  lemma BundleIsComplete(entries: seq<ZipEntry>)
    requires Bundle(entries).Some?
    ensures Bundle(entries).value.Keys == NAMES
    ensures forall n | n in NAMES :: 0 < Bundle(entries).value[n].size <= MAX_SIZE
    ensures forall i | 0 <= i < |entries| ::
              entries[i].name in NAMES && entries[i].content == Some(Bundle(entries).value[entries[i].name])
  {
    ContentsKeys(entries, NAMES);
    ThreeNames();
    SubsetOfSameSize(Contents(entries, NAMES).Keys, NAMES);
    forall i | 0 <= i < |entries|
      ensures entries[i].name in NAMES && entries[i].content == Some(Contents(entries, NAMES)[entries[i].name])
    {
      EntryIsKept(entries, NAMES, i);
    }
  }

  lemma {:induction false} PrefixAcceptable(entries: seq<ZipEntry>, expected: set<string>, i: nat)
    requires AllAcceptable(entries, expected) && i <= |entries|
    ensures AllAcceptable(entries[..i], expected)
  {
    if i == |entries| {
      assert entries[..i] == entries;
    } else {
      PrefixAcceptable(entries[..|entries| - 1], expected, i);
      assert entries[..|entries| - 1][..i] == entries[..i];
    }
  }

  lemma NextAcceptable(entries: seq<ZipEntry>, expected: set<string>, i: nat)
    requires i < |entries|
    ensures var front, e := entries[..i], entries[i];
            && entries[..i + 1][..i] == front && Names(entries[..i + 1]) == Names(front) + {e.name}
            && (AllAcceptable(entries[..i + 1], expected) <==> AllAcceptable(front, expected) && Acceptable(e, expected) && e.name !in Names(front))
            && (AllAcceptable(entries, expected) ==> AllAcceptable(entries[..i + 1], expected))
  {
    assert entries[..i + 1][..i] == entries[..i];
    if AllAcceptable(entries, expected) {
      PrefixAcceptable(entries, expected, i + 1);
    }
  }

  /** The loop of `windowsBundleMetadata`, with its map of names already met. */
  method ReadEntries(entries: seq<ZipEntry>, expected: set<string>) returns (r: Option<map<string, Metadata>>)
    ensures r == if |entries| == |expected| && AllAcceptable(entries, expected) then Some(Contents(entries, expected)) else None
  {
    var met := map n | n in expected :: false;
    assert met.Keys == expected;
    if |entries| != |met| {
      return None;
    }
    var metadata: map<string, Metadata> := map[];
    for i := 0 to |entries|
      invariant met.Keys == expected && AllAcceptable(entries[..i], expected) && metadata == Contents(entries[..i], expected)
      invariant forall n | n in expected :: met[n] <==> n in Names(entries[..i])
    {
      var e := entries[i];
      NextAcceptable(entries, expected, i);
      if e.name !in met || met[e.name] || !e.regular {
        return None;
      }
      if !e.deflated || e.declaredSize == 0 || e.declaredSize > MAX_SIZE {
        return None;
      }
      met := met[e.name := true];
      if e.content.None? || e.content.value.size != e.declaredSize {
        return None;
      }
      metadata := metadata[e.name := e.content.value];
    }
    assert entries[..|entries|] == entries;
    return Some(metadata);
  }

  /** `windowsBundleMetadata`, given the entries of the archive. */
  method WindowsBundleMetadata(entries: seq<ZipEntry>) returns (r: Option<map<string, Metadata>>)
    ensures r == Bundle(entries)
  {
    ThreeNames();
    r := ReadEntries(entries, NAMES);
  }

  // ---------------------------------------------------------------- which bundles are accepted

  /** A regular, deflated entry whose content is read to its declared size, within the limit. */
  predicate Intact(e: ZipEntry) {
    && e.regular && e.deflated && 0 < e.declaredSize <= MAX_SIZE
    && e.content.Some? && e.content.value.size == e.declaredSize
  }

  ghost predicate Occurs(entries: seq<ZipEntry>, name: string) {
    exists i :: 0 <= i < |entries| && entries[i].name == name
  }

  lemma {:induction false} NamesOccur(entries: seq<ZipEntry>, name: string)
    ensures name in Names(entries) <==> Occurs(entries, name)
  {
    if entries != [] {
      var front, last := entries[..|entries| - 1], entries[|entries| - 1];
      NamesOccur(front, name);
      if i :| 0 <= i < |front| && front[i].name == name {
        assert entries[i].name == name;
      }
      if i :| 0 <= i < |entries| && entries[i].name == name {
        assert i < |front| ==> front[i].name == name;
      }
      assert entries[|front|] == last;
    }
  }

  lemma {:induction false} FewNames(entries: seq<ZipEntry>, expected: set<string>)
    requires Names(entries) <= expected && forall i | 0 <= i < |entries| :: Intact(entries[i])
    ensures |Names(entries)| <= |entries|
    ensures |Names(entries)| == |entries| ==> AllAcceptable(entries, expected)
  {
    if entries != [] {
      FewNames(entries[..|entries| - 1], expected);
      assert Intact(entries[|entries| - 1]);
    }
  }

  lemma {:induction false} AcceptableIsIntact(entries: seq<ZipEntry>, expected: set<string>, i: nat)
    requires AllAcceptable(entries, expected) && i < |entries|
    ensures Intact(entries[i])
  {
    if i < |entries| - 1 {
      AcceptableIsIntact(entries[..|entries| - 1], expected, i);
    }
  }

  /** A bundle is accepted if and only if it has three entries, all intact, and each of the three names occurs. */
  lemma BundleIsAccepted(entries: seq<ZipEntry>)
    ensures Bundle(entries).Some? <==>
            && |entries| == 3 && (forall i | 0 <= i < |entries| :: Intact(entries[i]))
            && (forall n | n in NAMES :: Occurs(entries, n))
  {
    ThreeNames();
    if Bundle(entries).Some? {
      ContentsKeys(entries, NAMES);
      SubsetOfSameSize(Names(entries), NAMES);
      forall n | n in NAMES ensures Occurs(entries, n) {
        NamesOccur(entries, n);
      }
      forall i | 0 <= i < |entries| ensures Intact(entries[i]) {
        AcceptableIsIntact(entries, NAMES, i);
      }
    }
    if |entries| == 3 && (forall i | 0 <= i < |entries| :: Intact(entries[i])) && (forall n | n in NAMES :: Occurs(entries, n)) {
      forall n | n in NAMES ensures n in Names(entries) {
        NamesOccur(entries, n);
      }
      FewNames(entries, Names(entries));
      LargerSet(NAMES, Names(entries));
      SubsetOfSameSize(NAMES, Names(entries));
      FewNames(entries, NAMES);
    }
  }
}
