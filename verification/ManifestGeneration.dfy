/** Generating a manifest from release assets, and checking a manifest against the assets it describes. */
module ManifestGeneration {
  import opened Prelude
  import opened UniqueJson
  import opened ManifestValues
  import opened Manifest
  import opened WindowsBundle

  // ---------------------------------------------------------------- inputs

  /** A readable regular file; `entries` is None where it carries no ZIP archive. */
  datatype File = File(size: int64, digest: string, entries: Option<seq<ZipEntry>>)

  datatype Options = Options(
    channel: string, tagName: string, publishedAt: string, releaseUrl: string,
    applicationId: string, buildVersion: string, signingCertificate: string,
    path: Package -> string, url: Package -> string)

  function WithoutSlashes(path: string): string {
    if path != "" && path[|path| - 1] == '/' then WithoutSlashes(path[..|path| - 1]) else path
  }

  function AfterSlash(path: string): string {
    if path == "" || path[|path| - 1] == '/' then "" else AfterSlash(path[..|path| - 1]) + [path[|path| - 1]]
  }

  /** `filepath.Base`. */
  function Base(path: string): string {
    if path == "" then "."
    else if WithoutSlashes(path) == "" then "/"
    else AfterSlash(WithoutSlashes(path))
  }

  /** `assetMetadata`. */
  function Asset(disk: map<string, File>, path: string, maximum: int64): Option<Metadata> {
    if path in disk && 0 < disk[path].size <= maximum then Some(Metadata(disk[path].size, disk[path].digest)) else None
  }

  function AssetOf(disk: map<string, File>, o: Options, p: Package): Option<Metadata> {
    Asset(disk, o.path(p), MaxSize(p))
  }

  /** `windowsBundleMetadata`, past its own `assetMetadata`. */
  function BundleOf(disk: map<string, File>, path: string): Option<map<string, Metadata>> {
    if Asset(disk, path, MAX_SIZE).Some? && disk[path].entries.Some? then Bundle(disk[path].entries.value) else None
  }

  predicate Readable(disk: map<string, File>, o: Options) {
    (forall p: Package :: AssetOf(disk, o, p).Some?) && BundleOf(disk, o.path(Windows)).Some?
  }

  // ---------------------------------------------------------------- building

  function Common(name: string, url: string, asset: Metadata): map<string, Any> {
    map["fileName" := AText(name), "url" := AText(url), "size" := AInt64(asset.size), "sha256" := AText(asset.digest)]
  }

  function Executable(name: string, entry: Metadata): Any {
    AObject(map["fileName" := AText(name), "size" := AInt64(entry.size), "sha256" := AText(entry.digest)])
  }

  function Executables(bundle: map<string, Metadata>): map<string, Any>
    requires X64_NAME in bundle && ARM64_NAME in bundle
  {
    map["x64" := Executable(X64_NAME, bundle[X64_NAME]), "arm64" := Executable(ARM64_NAME, bundle[ARM64_NAME])]
  }

  /** The fields of `applePackage` that do not depend on the file. */
  function ApplePart(format: string, architectures: seq<string>, minimumOs: string, identifier: string): map<string, Any> {
    map["format" := AText(format), "architectures" := AStrings(architectures), "minimumOsVersion" := AText(minimumOs),
        "bundleIdentifier" := AText(identifier), "signature" := AText("unsigned")]
  }

  /** The fields of `tvPackage` that do not depend on the file. */
  function TvPart(format: string, minimumOs: string, identifier: string): map<string, Any> {
    map["format" := AText(format), "architectures" := AStrings(["universal"]), "minimumOsVersion" := AText(minimumOs),
        "applicationId" := AText(identifier), "signature" := AText("unsigned")]
  }

  /** The fields of `runtimePackage` that do not depend on the file. */
  function RuntimePart(): map<string, Any> {
    map["format" := AText("json"), "platforms" := AStrings(["webos", "tizen"])]
  }

  function AndroidPart(o: Options): map<string, Any> {
    map["format" := AText("apk"), "architectures" := AStrings(["universal"]), "minimumOsVersion" := AText("8.0"),
        "applicationId" := AText(o.applicationId), "buildVersion" := AText(o.buildVersion), "signature" := AText("signed"),
        "signingCertificateSha256" := AText(o.signingCertificate)]
  }

  function WindowsPart(executables: map<string, Any>): map<string, Any> {
    map["format" := AText("exe"), "architectures" := AStrings(["arm64", "x64"]), "minimumOsVersion" := AText("10.0.19041.0"),
        "signature" := AText("unsigned"), "executables" := AObject(executables)]
  }

  function Special(p: Package, o: Options, bundle: map<string, Metadata>): map<string, Any>
    requires X64_NAME in bundle && ARM64_NAME in bundle
  {
    match p
    case Android => AndroidPart(o)
    case Ios => ApplePart("ipa", ["arm64"], "15.0", "io.rivune.app")
    case Tvos => ApplePart("ipa", ["arm64"], "15.0", "io.rivune.app.tv")
    case Visionos => ApplePart("ipa", ["arm64"], "1.0", "io.rivune.app.vision")
    case Macos => ApplePart("dmg", ["arm64", "x64"], "12.0", "io.rivune.app.mac")
    case Webos => TvPart("ipk", "4.0", "io.rivune.app.webos")
    case Tizen => TvPart("wgt", "5.5", "RivuneTV01.Rivune")
    case TvRuntime => RuntimePart()
    case Windows => WindowsPart(Executables(bundle))
  }

  function PackageFields(p: Package, o: Options, asset: Metadata, bundle: map<string, Metadata>): map<string, Any>
    requires X64_NAME in bundle && ARM64_NAME in bundle
  {
    Special(p, o, bundle) + Common(Base(o.path(p)), o.url(p), asset)
  }

  /** The packages, given the fields of each. */
  function Packages(fields: Package -> map<string, Any>): map<string, Any> {
    map["android" := AObject(fields(Android)), "ios" := AObject(fields(Ios)), "tvos" := AObject(fields(Tvos)),
        "visionos" := AObject(fields(Visionos)), "macos" := AObject(fields(Macos)), "webos" := AObject(fields(Webos)),
        "tizen" := AObject(fields(Tizen)), "tvRuntime" := AObject(fields(TvRuntime)), "windows" := AObject(fields(Windows))]
  }

  /** `TrimPrefix(tag, "v")`. */
  function VersionOf(tag: string): string {
    if tag != "" && tag[0] == 'v' then tag[1..] else tag
  }

  function Root(o: Options, packages: map<string, Any>): map<string, Any> {
    map["schemaVersion" := AInt(SCHEMA_VERSION), "version" := AText(VersionOf(o.tagName))]
    + map["channel" := AText(o.channel), "tagName" := AText(o.tagName), "publishedAt" := AText(o.publishedAt),
          "releaseUrl" := AText(o.releaseUrl), "packages" := AObject(packages)]
  }

  function FieldsOf(disk: map<string, File>, o: Options): Package -> map<string, Any>
    requires Readable(disk, o)
  {
    BundleIsComplete(disk[o.path(Windows)].entries.value);
    var bundle := BundleOf(disk, o.path(Windows)).value;
    (p: Package) => PackageFields(p, o, AssetOf(disk, o, p).GetOr(Metadata(0, "")), bundle)
  }

  function Assembled(disk: map<string, File>, o: Options): Any
    requires Readable(disk, o)
  {
    AObject(Root(o, Packages(FieldsOf(disk, o))))
  }

  /** `buildManifest`: what it assembles, if its own validation accepts it. */
  ghost function Build(disk: map<string, File>, o: Options, isTimestamp: string -> bool): Option<Any> {
    if Readable(disk, o) && Valid(Assembled(disk, o), isTimestamp) then Some(Assembled(disk, o)) else None
  }

  // ---------------------------------------------------------------- checking against the assets

  /** An expectation that is given must be met. */
  predicate Agrees(fields: map<string, Any>, key: string, expected: string) {
    expected == "" || FieldIsText(fields, key, expected)
  }

  /** The size and digest of the manifest are those of the file. */
  predicate Describes(fields: map<string, Any>, name: string, asset: Metadata) {
    FieldIsText(fields, "fileName", name) && FieldIs(fields, "size", asset.size) && FieldIsText(fields, "sha256", asset.digest)
  }

  /** `validateExpectedAsset`. */
  predicate AssetAgrees(fields: map<string, Any>, disk: map<string, File>, o: Options, p: Package) {
    o.path(p) == ""
    || (AssetOf(disk, o, p).Some? && Describes(fields, Base(o.path(p)), AssetOf(disk, o, p).value))
  }

  function ObjectAt(fields: map<string, Any>, key: string): map<string, Any> {
    FieldObject(fields, key).GetOr(map[])
  }

  predicate ExecutablesAgree(fields: map<string, Any>, disk: map<string, File>, path: string) {
    path == ""
    || (var bundle := BundleOf(disk, path);
        && bundle.Some? && X64_NAME in bundle.value && ARM64_NAME in bundle.value
        && Describes(ObjectAt(ObjectAt(fields, "executables"), "x64"), X64_NAME, bundle.value[X64_NAME])
        && Describes(ObjectAt(ObjectAt(fields, "executables"), "arm64"), ARM64_NAME, bundle.value[ARM64_NAME]))
  }

  predicate RootAgrees(root: map<string, Any>, o: Options) {
    && Agrees(root, "channel", o.channel) && Agrees(root, "publishedAt", o.publishedAt)
    && Agrees(root, "tagName", o.tagName) && Agrees(root, "releaseUrl", o.releaseUrl)
  }

  predicate AndroidAgrees(fields: map<string, Any>, o: Options) {
    && Agrees(fields, "applicationId", o.applicationId) && Agrees(fields, "buildVersion", o.buildVersion)
    && Agrees(fields, "signingCertificateSha256", o.signingCertificate)
  }

  predicate PackageAgrees(packages: map<string, Any>, disk: map<string, File>, o: Options, p: Package) {
    var fields := ObjectAt(packages, Key(p));
    Agrees(fields, "url", o.url(p)) && AssetAgrees(fields, disk, o, p)
  }

  predicate AllPackagesAgree(packages: map<string, Any>, disk: map<string, File>, o: Options) {
    forall p: Package :: PackageAgrees(packages, disk, o, p)
  }

  predicate ExpectedPackages(packages: map<string, Any>, disk: map<string, File>, o: Options) {
    && AndroidAgrees(ObjectAt(packages, Key(Android)), o)
    && AllPackagesAgree(packages, disk, o)
    && ExecutablesAgree(ObjectAt(packages, Key(Windows)), disk, o.path(Windows))
  }

  /** `validateExpectedValues`, which runs on manifests already found valid. */
  predicate Expected(root: map<string, Any>, disk: map<string, File>, o: Options) {
    RootAgrees(root, o) && ExpectedPackages(ObjectAt(root, "packages"), disk, o)
  }

  // ---------------------------------------------------------------- lookups in what is built

  lemma CommonLookup(special: map<string, Any>, name: string, url: string, asset: Metadata)
    ensures var f := special + Common(name, url, asset);
            Field(f, "fileName") == AText(name) && Field(f, "url") == AText(url)
            && Field(f, "size") == AInt64(asset.size) && Field(f, "sha256") == AText(asset.digest)
  {
  }

  lemma PackageLookup(fields: Package -> map<string, Any>, p: Package)
    ensures Field(Packages(fields), Key(p)) == AObject(fields(p))
  {
  }

  lemma RootLookup(o: Options, packages: map<string, Any>)
    ensures var r := Root(o, packages);
            && Field(r, "channel") == AText(o.channel) && Field(r, "tagName") == AText(o.tagName)
            && Field(r, "publishedAt") == AText(o.publishedAt) && Field(r, "releaseUrl") == AText(o.releaseUrl)
            && Field(r, "packages") == AObject(packages)
  {
  }

  lemma AndroidLookup(o: Options, asset: Metadata, bundle: map<string, Metadata>)
    requires X64_NAME in bundle && ARM64_NAME in bundle
    ensures var f := PackageFields(Android, o, asset, bundle);
            && Field(f, "applicationId") == AText(o.applicationId) && Field(f, "buildVersion") == AText(o.buildVersion)
            && Field(f, "signingCertificateSha256") == AText(o.signingCertificate)
  {
  }

  lemma WindowsLookup(o: Options, asset: Metadata, bundle: map<string, Metadata>)
    requires X64_NAME in bundle && ARM64_NAME in bundle
    ensures Field(PackageFields(Windows, o, asset, bundle), "executables") == AObject(Executables(bundle))
  {
  }

  lemma ExecutableLookup(bundle: map<string, Metadata>)
    requires X64_NAME in bundle && ARM64_NAME in bundle
    ensures Field(Executables(bundle), "x64") == Executable(X64_NAME, bundle[X64_NAME])
    ensures Field(Executables(bundle), "arm64") == Executable(ARM64_NAME, bundle[ARM64_NAME])
  {
  }

  lemma BuiltPackage(disk: map<string, File>, o: Options, p: Package)
    requires Readable(disk, o)
    ensures var fields := ObjectAt(Packages(FieldsOf(disk, o)), Key(p));
            && FieldsOf(disk, o)(p) == fields
            && FieldIsText(fields, "url", o.url(p)) && FieldIsText(fields, "fileName", Base(o.path(p)))
            && Field(fields, "size") == AInt64(AssetOf(disk, o, p).value.size)
            && FieldIsText(fields, "sha256", AssetOf(disk, o, p).value.digest)
  {
    PackageLookup(FieldsOf(disk, o), p);
    BundleIsComplete(disk[o.path(Windows)].entries.value);
    assert AssetOf(disk, o, p).Some?;
    CommonLookup(Special(p, o, BundleOf(disk, o.path(Windows)).value), Base(o.path(p)), o.url(p), AssetOf(disk, o, p).value);
  }

  // ---------------------------------------------------------------- the comparison survives the text

  lemma ObjectAtWire(fields: map<string, Any>, key: string)
    ensures ObjectAt(WireFields(fields), key) == WireFields(ObjectAt(fields, key))
  {
    FieldObjectSurvivesWire(fields, key);
  }

  lemma DescribesSurvivesWire(fields: map<string, Any>, name: string, asset: Metadata)
    ensures Describes(WireFields(fields), name, asset) <==> Describes(fields, name, asset)
  {
    FieldsSurviveWire(fields);
  }

  lemma ExecutableSurvives(fields: map<string, Any>, architecture: string, name: string, asset: Metadata)
    ensures Describes(ObjectAt(ObjectAt(WireFields(fields), "executables"), architecture), name, asset)
            <==> Describes(ObjectAt(ObjectAt(fields, "executables"), architecture), name, asset)
  {
    ObjectAtWire(fields, "executables");
    ObjectAtWire(ObjectAt(fields, "executables"), architecture);
    DescribesSurvivesWire(ObjectAt(ObjectAt(fields, "executables"), architecture), name, asset);
  }

  lemma ExecutablesSurviveWire(fields: map<string, Any>, disk: map<string, File>, path: string)
    ensures ExecutablesAgree(WireFields(fields), disk, path) <==> ExecutablesAgree(fields, disk, path)
  {
    var bundle := BundleOf(disk, path);
    if bundle.Some? && X64_NAME in bundle.value && ARM64_NAME in bundle.value {
      ExecutableSurvives(fields, "x64", X64_NAME, bundle.value[X64_NAME]);
      ExecutableSurvives(fields, "arm64", ARM64_NAME, bundle.value[ARM64_NAME]);
    }
  }

  lemma FieldsAgreeOnWire(fields: map<string, Any>, disk: map<string, File>, o: Options, p: Package)
    ensures AssetAgrees(WireFields(fields), disk, o, p) <==> AssetAgrees(fields, disk, o, p)
    ensures Agrees(WireFields(fields), "url", o.url(p)) <==> Agrees(fields, "url", o.url(p))
  {
    if AssetOf(disk, o, p).Some? {
      DescribesSurvivesWire(fields, Base(o.path(p)), AssetOf(disk, o, p).value);
    }
    AnyFieldSurvivesWire(fields, "url", 0, o.url(p));
  }

  lemma PackageAgreesOnWire(packages: map<string, Any>, disk: map<string, File>, o: Options, p: Package)
    ensures PackageAgrees(WireFields(packages), disk, o, p) <==> PackageAgrees(packages, disk, o, p)
  {
    ObjectAtWire(packages, Key(p));
    FieldsAgreeOnWire(ObjectAt(packages, Key(p)), disk, o, p);
  }

  lemma AllPackagesAgreeOnWire(packages: map<string, Any>, disk: map<string, File>, o: Options)
    ensures AllPackagesAgree(WireFields(packages), disk, o) <==> AllPackagesAgree(packages, disk, o)
  {
    forall p: Package ensures PackageAgrees(WireFields(packages), disk, o, p) <==> PackageAgrees(packages, disk, o, p) {
      PackageAgreesOnWire(packages, disk, o, p);
    }
  }

  lemma AndroidAgreesOnWire(fields: map<string, Any>, o: Options)
    ensures AndroidAgrees(WireFields(fields), o) <==> AndroidAgrees(fields, o)
  {
    FieldsSurviveWire(fields);
  }

  lemma RootAgreesOnWire(root: map<string, Any>, o: Options)
    ensures RootAgrees(WireFields(root), o) <==> RootAgrees(root, o)
  {
    FieldsSurviveWire(root);
  }

  lemma PackagesExpectedOnWire(packages: map<string, Any>, disk: map<string, File>, o: Options)
    ensures ExpectedPackages(WireFields(packages), disk, o) <==> ExpectedPackages(packages, disk, o)
  {
    AllPackagesAgreeOnWire(packages, disk, o);
    ObjectAtWire(packages, Key(Android));
    ObjectAtWire(packages, Key(Windows));
    AndroidAgreesOnWire(ObjectAt(packages, Key(Android)), o);
    ExecutablesSurviveWire(ObjectAt(packages, Key(Windows)), disk, o.path(Windows));
  }

  lemma ExpectedSurvivesWire(root: map<string, Any>, disk: map<string, File>, o: Options)
    ensures Expected(WireFields(root), disk, o) <==> Expected(root, disk, o)
  {
    RootAgreesOnWire(root, o);
    ObjectAtWire(root, "packages");
    PackagesExpectedOnWire(ObjectAt(root, "packages"), disk, o);
  }

  // ---------------------------------------------------------------- generate, then validate

  /** A file that validation names has the name, size and digest of the one the manifest was generated from. */
  predicate AssetUnchanged(disk: map<string, File>, later: map<string, File>, o: Options, v: Options, p: Package) {
    v.path(p) == "" || (Base(v.path(p)) == Base(o.path(p)) && AssetOf(later, v, p) == AssetOf(disk, o, p))
  }

  /** The installer that validation names embeds the two executables of the one generated from. */
  predicate BundleUnchanged(disk: map<string, File>, later: map<string, File>, path: string, named: string)
    requires BundleOf(disk, path).Some?
  {
    named == ""
    || (var was, now := BundleOf(disk, path).value, BundleOf(later, named);
        BundleIsComplete(disk[path].entries.value);
        && now.Some? && X64_NAME in now.value && ARM64_NAME in now.value
        && now.value[X64_NAME] == was[X64_NAME] && now.value[ARM64_NAME] == was[ARM64_NAME])
  }

  predicate AllUnchanged(disk: map<string, File>, later: map<string, File>, o: Options, v: Options) {
    forall p: Package :: AssetUnchanged(disk, later, o, v, p)
  }

  /** The files that validation names are as they were when the manifest was generated. */
  predicate Unchanged(disk: map<string, File>, later: map<string, File>, o: Options, v: Options)
    requires Readable(disk, o)
  {
    AllUnchanged(disk, later, o, v) && BundleUnchanged(disk, later, o.path(Windows), v.path(Windows))
  }

  /** An expectation that is given is the value generated from. */
  predicate Same(expected: string, value: string) {
    expected == "" || expected == value
  }

  predicate SameTexts(o: Options, v: Options) {
    && Same(v.channel, o.channel) && Same(v.publishedAt, o.publishedAt) && Same(v.tagName, o.tagName)
    && Same(v.releaseUrl, o.releaseUrl) && Same(v.applicationId, o.applicationId)
    && Same(v.buildVersion, o.buildVersion) && Same(v.signingCertificate, o.signingCertificate)
  }

  predicate SameUrls(o: Options, v: Options) {
    forall p: Package :: Same(v.url(p), o.url(p))
  }

  lemma SameFilesAreUnchanged(disk: map<string, File>, o: Options)
    requires Readable(disk, o)
    ensures Unchanged(disk, disk, o, o) && SameTexts(o, o) && SameUrls(o, o)
  {
    BundleIsComplete(disk[o.path(Windows)].entries.value);
  }

  lemma TextAgreement(fields: map<string, Any>, key: string, value: string, expected: string)
    requires Field(fields, key) == AText(value)
    ensures Agrees(fields, key, expected) <==> Same(expected, value)
  {
  }

  lemma DescribesBuilt(fields: map<string, Any>, name: string, was: Metadata, expected: string, now: Metadata)
    requires FieldIsText(fields, "fileName", name) && Field(fields, "size") == AInt64(was.size)
    requires FieldIsText(fields, "sha256", was.digest)
    ensures Describes(fields, expected, now) <==> name == expected && was == now
  {
  }

  lemma AgreesWhenBuilt(packages: map<string, Any>, later: map<string, File>, o: Options, v: Options, p: Package, was: Metadata)
    requires var fields := ObjectAt(packages, Key(p));
             && FieldIsText(fields, "url", o.url(p)) && FieldIsText(fields, "fileName", Base(o.path(p)))
             && Field(fields, "size") == AInt64(was.size) && FieldIsText(fields, "sha256", was.digest)
    ensures PackageAgrees(packages, later, v, p) <==>
            && Same(v.url(p), o.url(p))
            && (v.path(p) == "" || (Base(v.path(p)) == Base(o.path(p)) && AssetOf(later, v, p) == Some(was)))
  {
    TextAgreement(ObjectAt(packages, Key(p)), "url", o.url(p), v.url(p));
    if AssetOf(later, v, p).Some? {
      DescribesBuilt(ObjectAt(packages, Key(p)), Base(o.path(p)), was, Base(v.path(p)), AssetOf(later, v, p).value);
    }
  }

  lemma BuiltPackageAgrees(disk: map<string, File>, later: map<string, File>, o: Options, v: Options, p: Package)
    requires Readable(disk, o)
    ensures PackageAgrees(Packages(FieldsOf(disk, o)), later, v, p)
            <==> Same(v.url(p), o.url(p)) && AssetUnchanged(disk, later, o, v, p)
  {
    BuiltPackage(disk, o, p);
    assert AssetOf(disk, o, p).Some?;
    AgreesWhenBuilt(Packages(FieldsOf(disk, o)), later, o, v, p, AssetOf(disk, o, p).value);
  }

  lemma BuiltExecutable(fields: map<string, Any>, architecture: string, name: string, was: Metadata, now: Metadata)
    requires Field(fields, architecture) == Executable(name, was)
    ensures Describes(ObjectAt(fields, architecture), name, now) <==> was == now
  {
  }

  lemma BuiltExecutablesAgree(disk: map<string, File>, later: map<string, File>, o: Options, named: string)
    requires Readable(disk, o)
    ensures ExecutablesAgree(ObjectAt(Packages(FieldsOf(disk, o)), Key(Windows)), later, named)
            <==> BundleUnchanged(disk, later, o.path(Windows), named)
  {
    var path := o.path(Windows);
    BuiltPackage(disk, o, Windows);
    BundleIsComplete(disk[path].entries.value);
    var was, now := BundleOf(disk, path).value, BundleOf(later, named);
    WindowsLookup(o, AssetOf(disk, o, Windows).value, was);
    ExecutableLookup(was);
    if now.Some? && X64_NAME in now.value && ARM64_NAME in now.value {
      BuiltExecutable(Executables(was), "x64", X64_NAME, was[X64_NAME], now.value[X64_NAME]);
      BuiltExecutable(Executables(was), "arm64", ARM64_NAME, was[ARM64_NAME], now.value[ARM64_NAME]);
    }
  }

  lemma BuiltRootAgrees(o: Options, v: Options, packages: map<string, Any>)
    ensures var root := Root(o, packages);
            && ObjectAt(root, "packages") == packages
            && (RootAgrees(root, v) <==>
                Same(v.channel, o.channel) && Same(v.publishedAt, o.publishedAt) && Same(v.tagName, o.tagName)
                && Same(v.releaseUrl, o.releaseUrl))
  {
    RootLookup(o, packages);
    var root := Root(o, packages);
    TextAgreement(root, "channel", o.channel, v.channel);
    TextAgreement(root, "publishedAt", o.publishedAt, v.publishedAt);
    TextAgreement(root, "tagName", o.tagName, v.tagName);
    TextAgreement(root, "releaseUrl", o.releaseUrl, v.releaseUrl);
  }

  lemma BuiltAndroidAgrees(disk: map<string, File>, o: Options, v: Options)
    requires Readable(disk, o)
    ensures AndroidAgrees(ObjectAt(Packages(FieldsOf(disk, o)), Key(Android)), v) <==>
            Same(v.applicationId, o.applicationId) && Same(v.buildVersion, o.buildVersion)
            && Same(v.signingCertificate, o.signingCertificate)
  {
    BuiltPackage(disk, o, Android);
    BundleIsComplete(disk[o.path(Windows)].entries.value);
    assert AssetOf(disk, o, Android).Some?;
    AndroidLookup(o, AssetOf(disk, o, Android).value, BundleOf(disk, o.path(Windows)).value);
    var fields := ObjectAt(Packages(FieldsOf(disk, o)), Key(Android));
    TextAgreement(fields, "applicationId", o.applicationId, v.applicationId);
    TextAgreement(fields, "buildVersion", o.buildVersion, v.buildVersion);
    TextAgreement(fields, "signingCertificateSha256", o.signingCertificate, v.signingCertificate);
  }

  lemma BuiltPackagesAgree(disk: map<string, File>, later: map<string, File>, o: Options, v: Options)
    requires Readable(disk, o)
    ensures AllPackagesAgree(Packages(FieldsOf(disk, o)), later, v) <==> SameUrls(o, v) && AllUnchanged(disk, later, o, v)
  {
    forall p: Package
      ensures PackageAgrees(Packages(FieldsOf(disk, o)), later, v, p)
              <==> Same(v.url(p), o.url(p)) && AssetUnchanged(disk, later, o, v, p)
    {
      BuiltPackageAgrees(disk, later, o, v, p);
    }
  }

  /** What was assembled from some options meets the expectations of others if and only if each text they give is the one
      generated from, and each file they name is unchanged. */
  lemma BuiltIsExpected(disk: map<string, File>, later: map<string, File>, o: Options, v: Options)
    requires Readable(disk, o)
    ensures Expected(Root(o, Packages(FieldsOf(disk, o))), later, v)
            <==> SameTexts(o, v) && SameUrls(o, v) && Unchanged(disk, later, o, v)
  {
    BuiltRootAgrees(o, v, Packages(FieldsOf(disk, o)));
    BuiltAndroidAgrees(disk, o, v);
    BuiltExecutablesAgree(disk, later, o, v.path(Windows));
    BuiltPackagesAgree(disk, later, o, v);
  }

  /** Generate, write, then validate: whatever the order in which the fields are written, the text of a generated
      manifest is decoded and found valid, and matches given expectations if and only if each text they give is the one
      generated from and each file they name is unchanged. */
  lemma {:induction false} GenerateThenValidate(
    disk: map<string, File>, later: map<string, File>, o: Options, v: Options, isTimestamp: string -> bool, text: Json)
    requires Build(disk, o, isTimestamp).Some? && Writes(text, Build(disk, o, isTimestamp).value)
    ensures var decoded := DecodeManifest(text, []);
            && decoded.Some? && decoded.value.AObject? && Valid(decoded.value, isTimestamp)
            && (Expected(decoded.value.fields, later, v) <==> SameTexts(o, v) && SameUrls(o, v) && Unchanged(disk, later, o, v))
  {
    var m := Build(disk, o, isTimestamp).value;
    WrittenIsDecoded(text, m);
    VerdictSurvivesWire(m, isTimestamp);
    ExpectedSurvivesWire(m.fields, later, v);
    BuiltIsExpected(disk, later, o, v);
  }

  /** In particular, validation with the same options accepts at once what generation has written. */
  lemma {:induction false} GeneratedIsAccepted(disk: map<string, File>, o: Options, isTimestamp: string -> bool) returns (text: Json)
    requires Build(disk, o, isTimestamp).Some?
    ensures var decoded := DecodeManifest(text, []);
            decoded.Some? && decoded.value.AObject? && Valid(decoded.value, isTimestamp) && Expected(decoded.value.fields, disk, o)
  {
    text := WritingExists(Build(disk, o, isTimestamp).value);
    GenerateThenValidate(disk, disk, o, o, isTimestamp, text);
    SameFilesAreUnchanged(disk, o);
  }
}
