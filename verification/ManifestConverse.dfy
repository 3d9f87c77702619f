/** The converse of generation: the validator accepts nothing but what the generator writes. */
module ManifestConverse {
  import opened Prelude
  import opened Text
  import opened ManifestValues
  import opened Manifest
  import opened ManifestGeneration
  import opened ManifestAcceptance
  import opened WindowsBundle
  import Decimal
  import SemVer

  // ---------------------------------------------------------------- what a check pins on the wire

  /** Two objects hold the same under a key, once written. */
  predicate Agree(f: map<string, Any>, g: map<string, Any>, key: string) {
    key in f && key in g && Wire(f[key]) == Wire(g[key])
  }

  lemma TextAgrees(f: map<string, Any>, g: map<string, Any>, key: string)
    requires FieldText(f, key) == FieldText(g, key) && FieldText(f, key) != ""
    ensures Agree(f, g, key)
  {
  }

  /** A decimal text is the notation of its number. */
  lemma CanonicalDecimal(s: string)
    requires IsPositiveDecimal(s) && ParseInt64(s).Some?
    ensures s == Decimal.Show(ParseInt64(s).value)
  {
    Decimal.ShowOf(s);
  }

  lemma PositiveOnWire(v: Any)
    requires PositiveInteger64(v).Some?
    ensures Wire(v) == ANumber(Decimal.Show(PositiveInteger64(v).value))
  {
    if v.ANumber? {
      CanonicalDecimal(v.numeral);
    }
  }

  lemma SizeAgrees(f: map<string, Any>, g: map<string, Any>)
    requires FieldSize(f, "size").Some? && FieldSize(f, "size") == FieldSize(g, "size")
    ensures Agree(f, g, "size")
  {
    PositiveOnWire(Field(f, "size"));
    PositiveOnWire(Field(g, "size"));
  }

  lemma StringsOnWire(v: Any)
    requires StringsOf(v).Some?
    ensures Wire(v) == Wire(AStrings(StringsOf(v).value))
  {
    if v.AList? {
      var w, x := Wire(v).items, Wire(AStrings(StringsOf(v).value)).items;
      assert forall i | 0 <= i < |w| :: w[i] == Wire(v.items[i]) && v.items[i].AText?;
      assert w == x;
    }
  }

  lemma StringsAgree(f: map<string, Any>, g: map<string, Any>, key: string)
    requires FieldStrings(f, key).Some? && FieldStrings(f, key) == FieldStrings(g, key)
    ensures Agree(f, g, key)
  {
    StringsOnWire(Field(f, key));
    StringsOnWire(Field(g, key));
  }

  lemma ObjectAgrees(f: map<string, Any>, g: map<string, Any>, key: string)
    requires FieldObject(f, key).Some? && FieldObject(g, key).Some?
    requires WireFields(FieldObject(f, key).value) == WireFields(FieldObject(g, key).value)
    ensures Agree(f, g, key)
  {
  }

  lemma ExactAgrees(f: map<string, Any>, g: map<string, Any>, key: string, n: int64)
    requires ExactInteger(Field(f, key), n) && ExactInteger(Field(g, key), n)
    ensures Agree(f, g, key)
  {
  }

  /** Objects with the same allowed fields, agreeing on each, are written alike. */
  lemma AgreeOnAll(f: map<string, Any>, g: map<string, Any>, allowed: seq<string>)
    requires OnlyFields(f, allowed) && OnlyFields(g, allowed) && forall k | k in allowed :: Agree(f, g, k)
    ensures WireFields(f) == WireFields(g)
  {
    var x, y := WireFields(f), WireFields(g);
    forall k ensures k in x <==> k in y {
      if k in f {
        assert Agree(f, g, k);
      }
      if k in g {
        assert Agree(f, g, k);
      }
    }
    forall k | k in x ensures x[k] == y[k] {
      assert k in f;
      assert Agree(f, g, k);
    }
  }

  // ---------------------------------------------------------------- valid objects are determined by a few values

  lemma CommonAgree(p: Package, f: map<string, Any>, g: map<string, Any>, tag: string)
    requires ValidCommon(p, f, tag) && ValidCommon(p, g, tag)
    requires FieldSize(f, "size") == FieldSize(g, "size") && FieldText(f, "sha256") == FieldText(g, "sha256")
    ensures Agree(f, g, "fileName") && Agree(f, g, "url") && Agree(f, g, "size") && Agree(f, g, "sha256")
  {
    TextAgrees(f, g, "fileName");
    TextAgrees(f, g, "url");
    SizeAgrees(f, g);
    TextAgrees(f, g, "sha256");
  }

  ghost predicate CommonOk(f: map<string, Any>, g: map<string, Any>) {
    Agree(f, g, "fileName") && Agree(f, g, "url") && Agree(f, g, "size") && Agree(f, g, "sha256")
  }

  /** The fields that say what system a package is for. */
  ghost predicate SystemOk(f: map<string, Any>, g: map<string, Any>) {
    Agree(f, g, "format") && Agree(f, g, "architectures") && Agree(f, g, "minimumOsVersion") && Agree(f, g, "signature")
  }

  lemma SystemAgrees(f: map<string, Any>, g: map<string, Any>)
    requires FieldText(f, "format") == FieldText(g, "format") != ""
    requires FieldText(f, "minimumOsVersion") == FieldText(g, "minimumOsVersion") != ""
    requires FieldText(f, "signature") == FieldText(g, "signature") != ""
    requires FieldStrings(f, "architectures").Some? && FieldStrings(f, "architectures") == FieldStrings(g, "architectures")
    ensures SystemOk(f, g)
  {
    TextAgrees(f, g, "format");
    StringsAgree(f, g, "architectures");
    TextAgrees(f, g, "minimumOsVersion");
    TextAgrees(f, g, "signature");
  }

  lemma AndroidKeys(f: map<string, Any>, g: map<string, Any>)
    requires SystemOk(f, g) && CommonOk(f, g)
    requires Agree(f, g, "applicationId") && Agree(f, g, "buildVersion") && Agree(f, g, "signingCertificateSha256")
    ensures forall k | k in ANDROID_FIELDS :: Agree(f, g, k)
  {
  }

  lemma AppleKeys(f: map<string, Any>, g: map<string, Any>)
    requires SystemOk(f, g) && CommonOk(f, g) && Agree(f, g, "bundleIdentifier")
    ensures forall k | k in APPLE_FIELDS :: Agree(f, g, k)
  {
  }

  lemma TvKeys(f: map<string, Any>, g: map<string, Any>)
    requires SystemOk(f, g) && CommonOk(f, g) && Agree(f, g, "applicationId")
    ensures forall k | k in TV_FIELDS :: Agree(f, g, k)
  {
  }

  lemma WindowsKeys(f: map<string, Any>, g: map<string, Any>)
    requires SystemOk(f, g) && CommonOk(f, g) && Agree(f, g, "executables")
    ensures forall k | k in WINDOWS_FIELDS :: Agree(f, g, k)
  {
  }

  lemma NamesAreGiven(p: Package)
    ensures Format(p) != "" && MinimumOs(p) != "" && Identifier(p) != ""
  {
  }

  lemma AndroidDetermined(f: map<string, Any>, g: map<string, Any>)
    requires ValidAndroid(f) && ValidAndroid(g) && CommonOk(f, g)
    requires FieldText(f, "buildVersion") == FieldText(g, "buildVersion")
    requires FieldText(f, "signingCertificateSha256") == FieldText(g, "signingCertificateSha256")
    ensures WireFields(f) == WireFields(g)
  {
    SystemAgrees(f, g);
    TextAgrees(f, g, "applicationId");
    TextAgrees(f, g, "buildVersion");
    TextAgrees(f, g, "signingCertificateSha256");
    AndroidKeys(f, g);
    AgreeOnAll(f, g, ANDROID_FIELDS);
  }

  lemma AppleDetermined(p: Package, f: map<string, Any>, g: map<string, Any>)
    requires ValidApple(p, f) && ValidApple(p, g) && CommonOk(f, g)
    ensures WireFields(f) == WireFields(g)
  {
    NamesAreGiven(p);
    SystemAgrees(f, g);
    TextAgrees(f, g, "bundleIdentifier");
    AppleKeys(f, g);
    AgreeOnAll(f, g, APPLE_FIELDS);
  }

  lemma TvDetermined(p: Package, f: map<string, Any>, g: map<string, Any>)
    requires ValidTv(p, f) && ValidTv(p, g) && CommonOk(f, g)
    ensures WireFields(f) == WireFields(g)
  {
    NamesAreGiven(p);
    SystemAgrees(f, g);
    TextAgrees(f, g, "applicationId");
    TvKeys(f, g);
    AgreeOnAll(f, g, TV_FIELDS);
  }

  lemma RuntimeDetermined(f: map<string, Any>, g: map<string, Any>)
    requires ValidRuntime(f) && ValidRuntime(g) && CommonOk(f, g)
    ensures WireFields(f) == WireFields(g)
  {
    TextAgrees(f, g, "format");
    StringsAgree(f, g, "platforms");
    AgreeOnAll(f, g, RUNTIME_FIELDS);
  }

  /** The metadata an executable's fields carry. */
  function MetadataIn(executables: map<string, Any>, architecture: string): Metadata {
    var e := FieldObject(executables, architecture).GetOr(map[]);
    Metadata(FieldSize(e, "size").GetOr(0), FieldText(e, "sha256"))
  }

  lemma ExecutableDetermined(f: map<string, Any>, g: map<string, Any>, architecture: string, name: string)
    requires name != "" && ValidExecutable(f, architecture, name) && ValidExecutable(g, architecture, name)
    requires MetadataIn(f, architecture) == MetadataIn(g, architecture)
    ensures Agree(f, g, architecture)
  {
    var x, y := FieldObject(f, architecture).value, FieldObject(g, architecture).value;
    TextAgrees(x, y, "fileName");
    SizeAgrees(x, y);
    TextAgrees(x, y, "sha256");
    AgreeOnAll(x, y, ["fileName", "size", "sha256"]);
    ObjectAgrees(f, g, architecture);
  }

  lemma ExecutablesDetermined(x: map<string, Any>, y: map<string, Any>)
    requires OnlyFields(x, ["x64", "arm64"]) && OnlyFields(y, ["x64", "arm64"])
    requires ValidExecutable(x, "x64", X64_NAME) && ValidExecutable(y, "x64", X64_NAME)
    requires ValidExecutable(x, "arm64", ARM64_NAME) && ValidExecutable(y, "arm64", ARM64_NAME)
    requires MetadataIn(x, "x64") == MetadataIn(y, "x64") && MetadataIn(x, "arm64") == MetadataIn(y, "arm64")
    ensures WireFields(x) == WireFields(y)
  {
    ExecutableDetermined(x, y, "x64", X64_NAME);
    ExecutableDetermined(x, y, "arm64", ARM64_NAME);
    AgreeOnAll(x, y, ["x64", "arm64"]);
  }

  lemma WindowsDetermined(f: map<string, Any>, g: map<string, Any>)
    requires ValidWindows(f) && ValidWindows(g) && CommonOk(f, g)
    requires var x, y := FieldObject(f, "executables").value, FieldObject(g, "executables").value;
             MetadataIn(x, "x64") == MetadataIn(y, "x64") && MetadataIn(x, "arm64") == MetadataIn(y, "arm64")
    ensures WireFields(f) == WireFields(g)
  {
    ExecutablesDetermined(FieldObject(f, "executables").value, FieldObject(g, "executables").value);
    ObjectAgrees(f, g, "executables");
    SystemAgrees(f, g);
    WindowsKeys(f, g);
    AgreeOnAll(f, g, WINDOWS_FIELDS);
  }

  function ExecutablesIn(fields: map<string, Any>): map<string, Any> {
    FieldObject(fields, "executables").GetOr(map[])
  }

  /** The values that a valid package leaves open. */
  ghost predicate SameOpenValues(p: Package, f: map<string, Any>, g: map<string, Any>) {
    && FieldSize(f, "size") == FieldSize(g, "size") && FieldText(f, "sha256") == FieldText(g, "sha256")
    && (p == Android ==>
          FieldText(f, "buildVersion") == FieldText(g, "buildVersion")
          && FieldText(f, "signingCertificateSha256") == FieldText(g, "signingCertificateSha256"))
    && (p == Windows ==>
          MetadataIn(ExecutablesIn(f), "x64") == MetadataIn(ExecutablesIn(g), "x64")
          && MetadataIn(ExecutablesIn(f), "arm64") == MetadataIn(ExecutablesIn(g), "arm64"))
  }

  /** Two valid packages of one kind and release with the same open values are written alike. */
  lemma PackageDetermined(p: Package, f: map<string, Any>, g: map<string, Any>, tag: string)
    requires ValidPackage(p, f, tag) && ValidPackage(p, g, tag) && SameOpenValues(p, f, g)
    ensures WireFields(f) == WireFields(g)
  {
    CommonAgree(p, f, g, tag);
    match p
    case Android => AndroidDetermined(f, g);
    case Webos => TvDetermined(p, f, g);
    case Tizen => TvDetermined(p, f, g);
    case TvRuntime => RuntimeDetermined(f, g);
    case Windows => WindowsDetermined(f, g);
    case _ => AppleDetermined(p, f, g);
  }

  lemma PackageKeys(f: map<string, Any>, g: map<string, Any>)
    requires forall p: Package :: Agree(f, g, Key(p))
    ensures forall k | k in PACKAGE_FIELDS :: Agree(f, g, k)
  {
    assert Agree(f, g, Key(Android)) && Agree(f, g, Key(Ios)) && Agree(f, g, Key(Tvos)) && Agree(f, g, Key(Visionos));
    assert Agree(f, g, Key(Macos)) && Agree(f, g, Key(Webos)) && Agree(f, g, Key(Tizen)) && Agree(f, g, Key(TvRuntime));
    assert Agree(f, g, Key(Windows));
  }

  lemma PackagesDetermined(f: map<string, Any>, g: map<string, Any>, tag: string)
    requires ValidPackages(f, tag) && ValidPackages(g, tag)
    requires forall p: Package :: SameOpenValues(p, FieldObject(f, Key(p)).GetOr(map[]), FieldObject(g, Key(p)).GetOr(map[]))
    ensures WireFields(f) == WireFields(g)
  {
    forall p: Package ensures Agree(f, g, Key(p)) {
      PackageDetermined(p, FieldObject(f, Key(p)).value, FieldObject(g, Key(p)).value, tag);
      ObjectAgrees(f, g, Key(p));
    }
    PackageKeys(f, g);
    AgreeOnAll(f, g, PACKAGE_FIELDS);
  }

  lemma RootKeys(f: map<string, Any>, g: map<string, Any>)
    requires Agree(f, g, "schemaVersion") && Agree(f, g, "channel") && Agree(f, g, "version") && Agree(f, g, "tagName")
    requires Agree(f, g, "publishedAt") && Agree(f, g, "releaseUrl") && Agree(f, g, "packages")
    ensures forall k | k in ROOT_FIELDS :: Agree(f, g, k)
  {
  }

  lemma {:induction false} MatchedIsNotEmpty(s: string)
    requires SemVer.Matches(s)
    ensures s != ""
  {
    var v :| SemVer.WellFormed(v) && s == SemVer.Print(v);
    assert |SemVer.Print(v)| >= |v.major| > 0;
  }

  lemma RootDetermined(f: map<string, Any>, g: map<string, Any>, isTimestamp: string -> bool)
    requires ValidRoot(f, isTimestamp) && ValidRoot(g, isTimestamp)
    requires FieldText(f, "version") == FieldText(g, "version") && FieldText(f, "publishedAt") == FieldText(g, "publishedAt")
    requires Agree(f, g, "packages")
    ensures WireFields(f) == WireFields(g)
  {
    MatchedIsNotEmpty(FieldText(f, "version"));
    ExactAgrees(f, g, "schemaVersion", SCHEMA_VERSION);
    TextAgrees(f, g, "channel");
    TextAgrees(f, g, "version");
    TextAgrees(f, g, "tagName");
    TextAgrees(f, g, "publishedAt");
    TextAgrees(f, g, "releaseUrl");
    RootKeys(f, g);
    AgreeOnAll(f, g, ROOT_FIELDS);
  }

  // ---------------------------------------------------------------- files and options for a valid manifest

  function FieldsIn(m: Any, p: Package): map<string, Any> {
    if m.AObject? then FieldObject(FieldObject(m.fields, "packages").GetOr(map[]), Key(p)).GetOr(map[]) else map[]
  }

  function OptionsOf(m: Any): Options {
    var root := if m.AObject? then m.fields else map[];
    var android := FieldsIn(m, Android);
    Options(FieldText(root, "channel"), FieldText(root, "tagName"), FieldText(root, "publishedAt"), FieldText(root, "releaseUrl"),
            FieldText(android, "applicationId"), FieldText(android, "buildVersion"), FieldText(android, "signingCertificateSha256"),
            (p: Package) => AssetName(p), (p: Package) => FieldText(FieldsIn(m, p), "url"))
  }

  function Embedded(name: string, content: Metadata): ZipEntry {
    ZipEntry(name, true, true, if content.size > 0 then content.size else 1, Some(content))
  }

  function EntriesFor(x64: Metadata, arm64: Metadata): seq<ZipEntry> {
    [Embedded(X64_NAME, x64), Embedded(ARM64_NAME, arm64), Embedded(UNINSTALLER_NAME, Metadata(1, ""))]
  }

  function FileFor(m: Any, p: Package): File {
    var fields := FieldsIn(m, p);
    var executables := ExecutablesIn(fields);
    File(FieldSize(fields, "size").GetOr(0), FieldText(fields, "sha256"),
         if p == Windows then Some(EntriesFor(MetadataIn(executables, "x64"), MetadataIn(executables, "arm64"))) else None)
  }

  function FilesOf(file: Package -> File): map<string, File> {
    map[AssetName(Android) := file(Android), AssetName(Ios) := file(Ios), AssetName(Tvos) := file(Tvos),
        AssetName(Visionos) := file(Visionos), AssetName(Macos) := file(Macos), AssetName(Webos) := file(Webos),
        AssetName(Tizen) := file(Tizen), AssetName(TvRuntime) := file(TvRuntime), AssetName(Windows) := file(Windows)]
  }

  function DiskOf(m: Any): map<string, File> {
    FilesOf((p: Package) => FileFor(m, p))
  }

  lemma FileLookup(file: Package -> File, p: Package)
    ensures AssetName(p) in FilesOf(file) && FilesOf(file)[AssetName(p)] == file(p)
  {
  }

  lemma {:induction false} AfterSlashOf(name: string)
    requires forall i | 0 <= i < |name| :: name[i] != '/'
    ensures AfterSlash(name) == name
  {
    if name != "" {
      AfterSlashOf(name[..|name| - 1]);
      assert name == name[..|name| - 1] + [name[|name| - 1]];
    }
  }

  lemma BaseOfAsset(p: Package)
    ensures Base(AssetName(p)) == AssetName(p)
  {
    NamesAreSafe(p);
    var name := AssetName(p);
    forall i | 0 <= i < |name| ensures name[i] != '/' {
      assert IsNameChar(name[i]) || name[i] in "._+-";
    }
    AfterSlashOf(name);
  }

  lemma ThreeEntries(a: ZipEntry, b: ZipEntry, c: ZipEntry)
    requires Acceptable(a, NAMES) && Acceptable(b, NAMES) && Acceptable(c, NAMES)
    requires a.name != b.name && a.name != c.name && b.name != c.name
    ensures var r := Bundle([a, b, c]);
            r.Some? && r.value.Keys == NAMES && r.value[a.name] == a.content.value && r.value[b.name] == b.content.value
  {
    var s := [a, b, c];
    assert s[..2] == [a, b] && s[..2][..1] == [a] && s[..2][..1][..0] == [];
    assert Names([a]) == {a.name};
    assert Names([a, b]) == {a.name, b.name};
    assert AllAcceptable([], NAMES);
    assert AllAcceptable([a], NAMES);
    assert AllAcceptable([a, b], NAMES);
    assert AllAcceptable(s, NAMES);
    BundleIsComplete(s);
    assert s[0] == a && s[1] == b;
  }

  lemma NamesDiffer()
    ensures X64_NAME != ARM64_NAME && X64_NAME != UNINSTALLER_NAME && ARM64_NAME != UNINSTALLER_NAME
  {
    assert |X64_NAME| == 14 && |ARM64_NAME| == 16 && |UNINSTALLER_NAME| == 20;
  }

  lemma BundleBuilt(x64: Metadata, arm64: Metadata)
    requires 0 < x64.size <= MAX_SIZE && 0 < arm64.size <= MAX_SIZE
    ensures var r := Bundle(EntriesFor(x64, arm64));
            r.Some? && r.value.Keys == NAMES && r.value[X64_NAME] == x64 && r.value[ARM64_NAME] == arm64
  {
    NamesDiffer();
    ThreeEntries(Embedded(X64_NAME, x64), Embedded(ARM64_NAME, arm64), Embedded(UNINSTALLER_NAME, Metadata(1, "")));
  }

  /** Files and options that carry what a manifest says. */
  ghost predicate Carry(m: Any, disk: map<string, File>, o: Options) {
    forall p: Package ::
      && o.path(p) == AssetName(p) && o.url(p) == FieldText(FieldsIn(m, p), "url")
      && AssetName(p) in disk && disk[AssetName(p)] == FileFor(m, p)
  }

  ghost predicate CarryTexts(root: map<string, Any>, android: map<string, Any>, o: Options) {
    && o.channel == FieldText(root, "channel") && o.tagName == FieldText(root, "tagName")
    && o.publishedAt == FieldText(root, "publishedAt") && o.releaseUrl == FieldText(root, "releaseUrl")
    && o.applicationId == FieldText(android, "applicationId") && o.buildVersion == FieldText(android, "buildVersion")
    && o.signingCertificate == FieldText(android, "signingCertificateSha256")
  }

  lemma FilesAndOptions(m: Any)
    requires m.AObject?
    ensures Carry(m, DiskOf(m), OptionsOf(m)) && CarryTexts(m.fields, FieldsIn(m, Android), OptionsOf(m))
  {
    forall p: Package ensures AssetName(p) in DiskOf(m) && DiskOf(m)[AssetName(p)] == FileFor(m, p) {
      FileLookup((q: Package) => FileFor(m, q), p);
    }
  }

  lemma ValidParts(m: Any, isTimestamp: string -> bool, p: Package)
    requires Valid(m, isTimestamp)
    ensures FieldObject(FieldObject(m.fields, "packages").value, Key(p)) == Some(FieldsIn(m, p))
    ensures ValidPackage(p, FieldsIn(m, p), FieldText(m.fields, "tagName"))
  {
  }

  lemma AssetFor(m: Any, disk: map<string, File>, o: Options, p: Package, tag: string)
    requires Carry(m, disk, o) && ValidCommon(p, FieldsIn(m, p), tag)
    ensures var fields := FieldsIn(m, p);
            && FieldSize(fields, "size").Some?
            && AssetOf(disk, o, p) == Some(Metadata(FieldSize(fields, "size").value, FieldText(fields, "sha256")))
            && FieldSize(fields, "size").value > 0
  {
    assert o.path(p) == AssetName(p);
  }

  lemma BundleFor(m: Any, disk: map<string, File>, o: Options, tag: string)
    requires Carry(m, disk, o) && ValidCommon(Windows, FieldsIn(m, Windows), tag) && ValidWindows(FieldsIn(m, Windows))
    ensures var executables := ExecutablesIn(FieldsIn(m, Windows));
            var bundle := BundleOf(disk, o.path(Windows));
            && bundle.Some? && bundle.value.Keys == NAMES
            && bundle.value[X64_NAME] == MetadataIn(executables, "x64") && bundle.value[ARM64_NAME] == MetadataIn(executables, "arm64")
            && IsSha256(MetadataIn(executables, "x64").digest) && IsSha256(MetadataIn(executables, "arm64").digest)
  {
    AssetFor(m, disk, o, Windows, tag);
    assert o.path(Windows) == AssetName(Windows);
    var executables := ExecutablesIn(FieldsIn(m, Windows));
    ExecutablesCarried(FieldsIn(m, Windows));
    BundleBuilt(MetadataIn(executables, "x64"), MetadataIn(executables, "arm64"));
  }

  lemma ExecutablesCarried(fields: map<string, Any>)
    requires ValidWindows(fields)
    ensures var x, y := MetadataIn(ExecutablesIn(fields), "x64"), MetadataIn(ExecutablesIn(fields), "arm64");
            0 < x.size <= MAX_SIZE && 0 < y.size <= MAX_SIZE && IsSha256(x.digest) && IsSha256(y.digest)
  {
  }

  /** What every package of a valid manifest says of itself. */
  ghost predicate AllValid(m: Any, tag: string) {
    forall p: Package :: ValidKind(p, FieldsIn(m, p)) && ValidCommon(p, FieldsIn(m, p), tag)
  }

  lemma ValidIsAllValid(m: Any, isTimestamp: string -> bool)
    requires Valid(m, isTimestamp)
    ensures AllValid(m, FieldText(m.fields, "tagName"))
  {
    forall p: Package ensures ValidKind(p, FieldsIn(m, p)) && ValidCommon(p, FieldsIn(m, p), FieldText(m.fields, "tagName")) {
      ValidParts(m, isTimestamp, p);
    }
  }

  lemma FilesAreReadable(m: Any, disk: map<string, File>, o: Options, tag: string)
    requires Carry(m, disk, o) && AllValid(m, tag)
    ensures Readable(disk, o)
  {
    forall p: Package ensures AssetOf(disk, o, p).Some? {
      AssetFor(m, disk, o, p, tag);
    }
    assert ValidKind(Windows, FieldsIn(m, Windows));
    BundleFor(m, disk, o, tag);
  }

  lemma ReleaseIsProper(root: map<string, Any>, android: map<string, Any>, o: Options, isTimestamp: string -> bool)
    requires ValidRoot(root, isTimestamp) && CarryTexts(root, android, o)
    ensures ProperRelease(o, isTimestamp) && VersionOf(o.tagName) == FieldText(root, "version")
  {
    assert o.tagName[0] == 'v' && o.tagName[1..] == FieldText(root, "version");
  }

  lemma AndroidIsProper(root: map<string, Any>, android: map<string, Any>, o: Options)
    requires ValidAndroid(android) && CarryTexts(root, android, o)
    ensures ProperAndroid(o)
  {
  }

  lemma AssetIsProper(m: Any, disk: map<string, File>, o: Options, p: Package)
    requires Carry(m, disk, o) && ValidCommon(p, FieldsIn(m, p), o.tagName)
    ensures AssetOf(disk, o, p).Some? && ProperAsset(p, Base(o.path(p)), o.url(p), AssetOf(disk, o, p).value, o.tagName)
  {
    AssetFor(m, disk, o, p, o.tagName);
    BaseOfAsset(p);
    assert o.path(p) == AssetName(p);
  }

  lemma PackageIsProper(m: Any, disk: map<string, File>, o: Options, p: Package)
    requires m.AObject? && Carry(m, disk, o) && CarryTexts(m.fields, FieldsIn(m, Android), o) && AllValid(m, o.tagName)
    requires Readable(disk, o)
    ensures ProperPackage(disk, o, p)
  {
    assert ValidKind(p, FieldsIn(m, p)) && ValidCommon(p, FieldsIn(m, p), o.tagName);
    AssetIsProper(m, disk, o, p);
    if p == Android {
      AndroidIsProper(m.fields, FieldsIn(m, Android), o);
    } else if p == Windows {
      BundleFor(m, disk, o, o.tagName);
    }
  }

  // ---------------------------------------------------------------- the same open values

  lemma BuiltAsset(disk: map<string, File>, o: Options, p: Package)
    requires Readable(disk, o)
    ensures var g, asset := FieldsOf(disk, o)(p), AssetOf(disk, o, p).value;
            FieldSize(g, "size") == (if asset.size > 0 then Some(asset.size) else None) && FieldText(g, "sha256") == asset.digest
  {
    BuiltPackage(disk, o, p);
  }

  lemma BuiltAndroid(disk: map<string, File>, o: Options)
    requires Readable(disk, o)
    ensures var g := FieldsOf(disk, o)(Android);
            && FieldText(g, "buildVersion") == o.buildVersion
            && FieldText(g, "signingCertificateSha256") == o.signingCertificate
  {
    BundleIsComplete(disk[o.path(Windows)].entries.value);
    assert AssetOf(disk, o, Android).Some?;
    AndroidLookup(o, AssetOf(disk, o, Android).value, BundleOf(disk, o.path(Windows)).value);
  }

  lemma BuiltMetadata(executables: map<string, Any>, architecture: string, name: string, entry: Metadata)
    requires Field(executables, architecture) == Executable(name, entry) && entry.size > 0
    ensures MetadataIn(executables, architecture) == entry
  {
  }

  lemma BuiltWindows(disk: map<string, File>, o: Options)
    requires Readable(disk, o)
    ensures var g, bundle := ExecutablesIn(FieldsOf(disk, o)(Windows)), BundleOf(disk, o.path(Windows)).value;
            && bundle.Keys == NAMES
            && MetadataIn(g, "x64") == bundle[X64_NAME] && MetadataIn(g, "arm64") == bundle[ARM64_NAME]
  {
    BundleIsComplete(disk[o.path(Windows)].entries.value);
    var bundle := BundleOf(disk, o.path(Windows)).value;
    assert AssetOf(disk, o, Windows).Some?;
    WindowsLookup(o, AssetOf(disk, o, Windows).value, bundle);
    ExecutableLookup(bundle);
    BuiltMetadata(Executables(bundle), "x64", X64_NAME, bundle[X64_NAME]);
    BuiltMetadata(Executables(bundle), "arm64", ARM64_NAME, bundle[ARM64_NAME]);
  }

  lemma OpenValuesAreTheSame(m: Any, disk: map<string, File>, o: Options, p: Package)
    requires m.AObject? && Carry(m, disk, o) && CarryTexts(m.fields, FieldsIn(m, Android), o) && AllValid(m, o.tagName)
    requires Readable(disk, o)
    ensures SameOpenValues(p, FieldsIn(m, p), FieldsOf(disk, o)(p))
  {
    assert ValidKind(p, FieldsIn(m, p)) && ValidCommon(p, FieldsIn(m, p), o.tagName);
    AssetFor(m, disk, o, p, o.tagName);
    BuiltAsset(disk, o, p);
    if p == Android {
      BuiltAndroid(disk, o);
    } else if p == Windows {
      BuiltWindows(disk, o);
      BundleFor(m, disk, o, o.tagName);
    }
  }

  lemma BuildAccepts(m: Any, disk: map<string, File>, o: Options, isTimestamp: string -> bool)
    requires Valid(m, isTimestamp) && Carry(m, disk, o) && CarryTexts(m.fields, FieldsIn(m, Android), o)
    ensures Readable(disk, o) && Build(disk, o, isTimestamp) == Some(Assembled(disk, o))
  {
    ValidIsAllValid(m, isTimestamp);
    FilesAreReadable(m, disk, o, o.tagName);
    ReleaseIsProper(m.fields, FieldsIn(m, Android), o, isTimestamp);
    forall p: Package ensures ProperPackage(disk, o, p) {
      PackageIsProper(m, disk, o, p);
    }
    BuildSucceeds(disk, o, isTimestamp);
  }

  lemma PackagesWrittenAlike(m: Any, disk: map<string, File>, o: Options, packages: map<string, Any>)
    requires m.AObject? && FieldObject(m.fields, "packages") == Some(packages) && ValidPackages(packages, o.tagName)
    requires Carry(m, disk, o) && CarryTexts(m.fields, FieldsIn(m, Android), o) && AllValid(m, o.tagName)
    requires Readable(disk, o) && ValidPackages(Packages(FieldsOf(disk, o)), o.tagName)
    ensures WireFields(packages) == WireFields(Packages(FieldsOf(disk, o)))
  {
    var built := Packages(FieldsOf(disk, o));
    forall p: Package
      ensures SameOpenValues(p, FieldObject(packages, Key(p)).GetOr(map[]), FieldObject(built, Key(p)).GetOr(map[]))
    {
      PackageLookup(FieldsOf(disk, o), p);
      OpenValuesAreTheSame(m, disk, o, p);
    }
    PackagesDetermined(packages, built, o.tagName);
  }

  lemma BuiltParts(disk: map<string, File>, o: Options, isTimestamp: string -> bool)
    requires Readable(disk, o) && Valid(Assembled(disk, o), isTimestamp)
    ensures var root, built := Root(o, Packages(FieldsOf(disk, o))), Packages(FieldsOf(disk, o));
            && ValidRoot(root, isTimestamp) && ValidPackages(built, o.tagName) && FieldObject(root, "packages") == Some(built)
            && FieldText(root, "version") == VersionOf(o.tagName) && FieldText(root, "publishedAt") == o.publishedAt
  {
    RootLookup(o, Packages(FieldsOf(disk, o)));
    RootTexts(o, Packages(FieldsOf(disk, o)));
  }

  lemma RootsWrittenAlike(f: map<string, Any>, g: map<string, Any>, x: map<string, Any>, y: map<string, Any>,
                          isTimestamp: string -> bool)
    requires ValidRoot(f, isTimestamp) && ValidRoot(g, isTimestamp)
    requires FieldText(f, "version") == FieldText(g, "version") && FieldText(f, "publishedAt") == FieldText(g, "publishedAt")
    requires FieldObject(f, "packages") == Some(x) && FieldObject(g, "packages") == Some(y) && WireFields(x) == WireFields(y)
    ensures Wire(AObject(f)) == Wire(AObject(g))
  {
    ObjectAgrees(f, g, "packages");
    RootDetermined(f, g, isTimestamp);
    WireObject(f);
    WireObject(g);
  }

  lemma WireObject(fields: map<string, Any>)
    ensures Wire(AObject(fields)) == AObject(WireFields(fields))
  {
  }

  lemma RootParts(m: Any, isTimestamp: string -> bool)
    requires Valid(m, isTimestamp)
    ensures ValidRoot(m.fields, isTimestamp) && FieldObject(m.fields, "packages").Some?
    ensures ValidPackages(FieldObject(m.fields, "packages").value, FieldText(m.fields, "tagName"))
  {
  }

  lemma AssembledAlike(m: Any, disk: map<string, File>, o: Options, isTimestamp: string -> bool, packages: map<string, Any>,
                       root: map<string, Any>, built: map<string, Any>)
    requires m.AObject? && ValidRoot(m.fields, isTimestamp) && FieldObject(m.fields, "packages") == Some(packages)
    requires ValidRoot(root, isTimestamp) && FieldObject(root, "packages") == Some(built)
    requires WireFields(packages) == WireFields(built) && CarryTexts(m.fields, FieldsIn(m, Android), o)
    requires FieldText(root, "version") == VersionOf(o.tagName) && FieldText(root, "publishedAt") == o.publishedAt
    ensures Wire(m) == Wire(AObject(root))
  {
    ReleaseIsProper(m.fields, FieldsIn(m, Android), o, isTimestamp);
    RootsWrittenAlike(m.fields, root, packages, built, isTimestamp);
  }

  /** For every valid manifest there are files and options for which generation succeeds and writes the same document. */
  lemma ValidIsWritten(m: Any, disk: map<string, File>, o: Options, isTimestamp: string -> bool)
    requires Valid(m, isTimestamp) && Carry(m, disk, o) && CarryTexts(m.fields, FieldsIn(m, Android), o)
    ensures Build(disk, o, isTimestamp).Some? && Wire(m) == Wire(Build(disk, o, isTimestamp).value)
  {
    BuildAccepts(m, disk, o, isTimestamp);
    ValidIsAllValid(m, isTimestamp);
    RootParts(m, isTimestamp);
    BuiltParts(disk, o, isTimestamp);
    var packages, built := FieldObject(m.fields, "packages").value, Packages(FieldsOf(disk, o));
    PackagesWrittenAlike(m, disk, o, packages);
    AssembledAlike(m, disk, o, isTimestamp, packages, Root(o, built), built);
  }

  ghost predicate Writes(disk: map<string, File>, o: Options, isTimestamp: string -> bool, m: Any) {
    Build(disk, o, isTimestamp).Some? && Wire(m) == Wire(Build(disk, o, isTimestamp).value)
  }

  /** A manifest is valid if and only if its document is one that the generator writes, for some files and options. */
  lemma ValidIsGenerated(m: Any, isTimestamp: string -> bool)
    ensures Valid(m, isTimestamp) <==> exists disk, o :: Writes(disk, o, isTimestamp, m)
  {
    if Valid(m, isTimestamp) {
      FilesAndOptions(m);
      ValidIsWritten(m, DiskOf(m), OptionsOf(m), isTimestamp);
      assert Writes(DiskOf(m), OptionsOf(m), isTimestamp, m);
    }
    if disk, o :| Writes(disk, o, isTimestamp, m) {
      VerdictSurvivesWire(m, isTimestamp);
      VerdictSurvivesWire(Build(disk, o, isTimestamp).value, isTimestamp);
    }
  }
}
