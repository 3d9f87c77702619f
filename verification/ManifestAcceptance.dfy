/** When the generator's own validation accepts what it has assembled. */
module ManifestAcceptance {
  import opened Prelude
  import opened ManifestValues
  import opened Manifest
  import opened ManifestGeneration
  import opened WindowsBundle
  import SemVer

  predicate OnlyCommon(common: map<string, Any>) {
    common.Keys <= {"fileName", "url", "size", "sha256"}
  }

  lemma OutsideCommon(common: map<string, Any>)
    requires OnlyCommon(common)
    ensures "format" !in common && "architectures" !in common && "minimumOsVersion" !in common && "signature" !in common
    ensures "applicationId" !in common && "bundleIdentifier" !in common && "platforms" !in common
    ensures "buildVersion" !in common && "signingCertificateSha256" !in common && "executables" !in common
  {
  }

  lemma CommonIsAllowed(k: string)
    requires k in {"fileName", "url", "size", "sha256"}
    ensures k in ANDROID_FIELDS && k in APPLE_FIELDS && k in TV_FIELDS && k in RUNTIME_FIELDS && k in WINDOWS_FIELDS
  {
    assert ANDROID_FIELDS[7..] == ["fileName", "url", "size", "sha256"];
    assert APPLE_FIELDS[5..] == ["fileName", "url", "size", "sha256"];
    assert TV_FIELDS[5..] == ["fileName", "url", "size", "sha256"];
    assert RUNTIME_FIELDS[2..] == ["fileName", "url", "size", "sha256"];
    assert WINDOWS_FIELDS[4..8] == ["fileName", "url", "size", "sha256"];
  }

  lemma MergedOnly(special: map<string, Any>, common: map<string, Any>, allowed: seq<string>)
    requires OnlyFields(common, allowed)
    ensures OnlyFields(special + common, allowed) <==> OnlyFields(special, allowed)
  {
    forall k | k in special ensures k in special + common {
    }
  }

  /** The fields that `special` alone decides. */
  lemma MergedFields(special: map<string, Any>, common: map<string, Any>)
    requires OnlyCommon(common)
    ensures var f := special + common;
            && Field(f, "format") == Field(special, "format") && Field(f, "architectures") == Field(special, "architectures")
            && Field(f, "minimumOsVersion") == Field(special, "minimumOsVersion")
            && Field(f, "signature") == Field(special, "signature")
            && Field(f, "applicationId") == Field(special, "applicationId")
            && Field(f, "bundleIdentifier") == Field(special, "bundleIdentifier")
            && Field(f, "platforms") == Field(special, "platforms")
            && Field(f, "buildVersion") == Field(special, "buildVersion")
            && Field(f, "signingCertificateSha256") == Field(special, "signingCertificateSha256")
            && Field(f, "executables") == Field(special, "executables")
  {
    OutsideCommon(common);
  }

  lemma CommonFits(common: map<string, Any>)
    requires OnlyCommon(common)
    ensures OnlyFields(common, ANDROID_FIELDS) && OnlyFields(common, APPLE_FIELDS) && OnlyFields(common, TV_FIELDS)
    ensures OnlyFields(common, RUNTIME_FIELDS) && OnlyFields(common, WINDOWS_FIELDS)
  {
    forall k | k in common
      ensures k in ANDROID_FIELDS && k in APPLE_FIELDS && k in TV_FIELDS && k in RUNTIME_FIELDS && k in WINDOWS_FIELDS
    {
      CommonIsAllowed(k);
    }
  }

  lemma MergedApple(p: Package, special: map<string, Any>, common: map<string, Any>)
    requires OnlyCommon(common)
    ensures ValidApple(p, special + common) <==> ValidApple(p, special)
  {
    MergedFields(special, common);
    CommonFits(common);
    MergedOnly(special, common, APPLE_FIELDS);
  }

  lemma MergedTv(p: Package, special: map<string, Any>, common: map<string, Any>)
    requires OnlyCommon(common)
    ensures ValidTv(p, special + common) <==> ValidTv(p, special)
  {
    MergedFields(special, common);
    CommonFits(common);
    MergedOnly(special, common, TV_FIELDS);
  }

  lemma MergedRuntime(special: map<string, Any>, common: map<string, Any>)
    requires OnlyCommon(common)
    ensures ValidRuntime(special + common) <==> ValidRuntime(special)
  {
    MergedFields(special, common);
    CommonFits(common);
    MergedOnly(special, common, RUNTIME_FIELDS);
  }

  lemma MergedAndroid(special: map<string, Any>, common: map<string, Any>)
    requires OnlyCommon(common)
    ensures ValidAndroid(special + common) <==> ValidAndroid(special)
  {
    MergedFields(special, common);
    CommonFits(common);
    MergedOnly(special, common, ANDROID_FIELDS);
  }

  lemma MergedWindows(special: map<string, Any>, common: map<string, Any>)
    requires OnlyCommon(common)
    ensures ValidWindows(special + common) <==> ValidWindows(special)
  {
    MergedFields(special, common);
    CommonFits(common);
    MergedOnly(special, common, WINDOWS_FIELDS);
  }

  lemma ApplePartIsValid(p: Package, format: string, architectures: seq<string>, minimumOs: string, identifier: string)
    requires format == Format(p) && architectures == Architectures(p) && minimumOs == MinimumOs(p) && identifier == Identifier(p)
    ensures ValidApple(p, ApplePart(format, architectures, minimumOs, identifier))
  {
  }

  lemma TvPartIsValid(p: Package, format: string, minimumOs: string, identifier: string)
    requires format == Format(p) && minimumOs == MinimumOs(p) && identifier == Identifier(p)
    ensures ValidTv(p, TvPart(format, minimumOs, identifier))
  {
  }

  lemma RuntimePartIsValid()
    ensures ValidRuntime(RuntimePart())
  {
  }

  lemma AndroidPartFields(o: Options)
    ensures var f := AndroidPart(o);
            && Field(f, "format") == AText("apk") && Field(f, "architectures") == AStrings(["universal"])
            && Field(f, "minimumOsVersion") == AText("8.0") && Field(f, "signature") == AText("signed")
            && Field(f, "applicationId") == AText(o.applicationId) && Field(f, "buildVersion") == AText(o.buildVersion)
            && Field(f, "signingCertificateSha256") == AText(o.signingCertificate)
  {
  }

  lemma AndroidPartNames(o: Options)
    ensures OnlyFields(AndroidPart(o), ANDROID_FIELDS)
  {
    assert ANDROID_FIELDS[0] == "format" && ANDROID_FIELDS[1] == "architectures" && ANDROID_FIELDS[2] == "minimumOsVersion"
      && ANDROID_FIELDS[3] == "applicationId" && ANDROID_FIELDS[4] == "buildVersion" && ANDROID_FIELDS[5] == "signature"
      && ANDROID_FIELDS[6] == "signingCertificateSha256";
  }

  lemma AndroidByFields(f: map<string, Any>, o: Options)
    requires OnlyFields(f, ANDROID_FIELDS)
    requires Field(f, "format") == AText("apk") && Field(f, "architectures") == AStrings(["universal"])
    requires Field(f, "minimumOsVersion") == AText("8.0") && Field(f, "signature") == AText("signed")
    requires Field(f, "applicationId") == AText(o.applicationId) && Field(f, "buildVersion") == AText(o.buildVersion)
    requires Field(f, "signingCertificateSha256") == AText(o.signingCertificate)
    ensures ValidAndroid(f) <==> ProperAndroid(o)
  {
  }

  lemma AndroidPartIsValid(o: Options)
    ensures ValidAndroid(AndroidPart(o)) <==> ProperAndroid(o)
  {
    AndroidPartFields(o);
    AndroidPartNames(o);
    AndroidByFields(AndroidPart(o), o);
  }

  lemma ExecutableIsValid(executables: map<string, Any>, architecture: string, name: string, entry: Metadata)
    requires Field(executables, architecture) == Executable(name, entry) && 0 < entry.size <= MAX_SIZE
    ensures ValidExecutable(executables, architecture, name) <==> IsSha256(entry.digest)
  {
  }

  lemma WindowsPartIsValid(executables: map<string, Any>)
    requires OnlyFields(executables, ["x64", "arm64"])
    ensures ValidWindows(WindowsPart(executables)) <==>
            ValidExecutable(executables, "x64", X64_NAME) && ValidExecutable(executables, "arm64", ARM64_NAME)
  {
  }

  lemma FirstNamesAreSafe(p: Package)
    requires p == Android || p == Ios || p == Tvos || p == Visionos
    ensures IsSafeFileName(AssetName(p))
  {
  }

  lemma OtherNamesAreSafe(p: Package)
    requires p == Macos || p == Webos || p == Tizen || p == TvRuntime || p == Windows
    ensures IsSafeFileName(AssetName(p))
  {
  }

  lemma NamesAreSafe(p: Package)
    ensures IsSafeFileName(AssetName(p))
  {
    if p == Android || p == Ios || p == Tvos || p == Visionos {
      FirstNamesAreSafe(p);
    } else {
      OtherNamesAreSafe(p);
    }
  }

  predicate ProperAndroid(o: Options) {
    o.applicationId == "io.rivune.app" && IsPositiveDecimal(o.buildVersion) && IsSha256(o.signingCertificate)
  }

  predicate ProperBundle(bundle: map<string, Metadata>)
    requires X64_NAME in bundle && ARM64_NAME in bundle
  {
    IsSha256(bundle[X64_NAME].digest) && IsSha256(bundle[ARM64_NAME].digest)
  }

  /** The file is called what the release calls it and offered under the release's own address. */
  predicate ProperAsset(p: Package, name: string, url: string, asset: Metadata, tag: string) {
    name == AssetName(p) && url == RELEASES + "/download/" + tag + "/" + AssetName(p) && IsSha256(asset.digest)
  }

  ghost predicate ProperRelease(o: Options, isTimestamp: string -> bool) {
    && (o.channel == "stable" || o.channel == "prerelease")
    && o.tagName == "v" + VersionOf(o.tagName) && SemVer.Matches(VersionOf(o.tagName))
    && SemVer.ValidChannel(o.channel, VersionOf(o.tagName))
    && o.publishedAt != "" && isTimestamp(o.publishedAt)
    && o.releaseUrl == RELEASES + "/tag/" + o.tagName
  }

  lemma BuiltCommonIsValid(p: Package, special: map<string, Any>, name: string, url: string, asset: Metadata, tag: string)
    requires 0 < asset.size <= MaxSize(p)
    ensures ValidCommon(p, special + Common(name, url, asset), tag) <==> ProperAsset(p, name, url, asset, tag)
  {
    CommonLookup(special, name, url, asset);
    NamesAreSafe(p);
  }

  lemma BundlePartIsValid(bundle: map<string, Metadata>)
    requires X64_NAME in bundle && ARM64_NAME in bundle
    requires 0 < bundle[X64_NAME].size <= MAX_SIZE && 0 < bundle[ARM64_NAME].size <= MAX_SIZE
    ensures ValidWindows(WindowsPart(Executables(bundle))) <==> ProperBundle(bundle)
  {
    ExecutableLookup(bundle);
    ExecutableIsValid(Executables(bundle), "x64", X64_NAME, bundle[X64_NAME]);
    ExecutableIsValid(Executables(bundle), "arm64", ARM64_NAME, bundle[ARM64_NAME]);
    assert OnlyFields(Executables(bundle), ["x64", "arm64"]) by {
      assert ["x64", "arm64"][0] == "x64" && ["x64", "arm64"][1] == "arm64";
    }
    WindowsPartIsValid(Executables(bundle));
  }

  /** What the generator writes by itself is what the validator demands: only the release's own values are left to check. */
  lemma SpecialIsValid(p: Package, o: Options, bundle: map<string, Metadata>)
    requires X64_NAME in bundle && ARM64_NAME in bundle
    requires 0 < bundle[X64_NAME].size <= MAX_SIZE && 0 < bundle[ARM64_NAME].size <= MAX_SIZE
    ensures ValidKind(p, Special(p, o, bundle)) <==>
            (p == Android ==> ProperAndroid(o)) && (p == Windows ==> ProperBundle(bundle))
  {
    match p
    case Android => AndroidPartIsValid(o);
    case Ios => ApplePartIsValid(p, "ipa", ["arm64"], "15.0", "io.rivune.app");
    case Tvos => ApplePartIsValid(p, "ipa", ["arm64"], "15.0", "io.rivune.app.tv");
    case Visionos => ApplePartIsValid(p, "ipa", ["arm64"], "1.0", "io.rivune.app.vision");
    case Macos => ApplePartIsValid(p, "dmg", ["arm64", "x64"], "12.0", "io.rivune.app.mac");
    case Webos => TvPartIsValid(p, "ipk", "4.0", "io.rivune.app.webos");
    case Tizen => TvPartIsValid(p, "wgt", "5.5", "RivuneTV01.Rivune");
    case TvRuntime => RuntimePartIsValid();
    case Windows => BundlePartIsValid(bundle);
  }

  lemma MergedKind(p: Package, special: map<string, Any>, common: map<string, Any>)
    requires OnlyCommon(common)
    ensures ValidKind(p, special + common) <==> ValidKind(p, special)
  {
    match p
    case Android => MergedAndroid(special, common);
    case Webos => MergedTv(p, special, common);
    case Tizen => MergedTv(p, special, common);
    case TvRuntime => MergedRuntime(special, common);
    case Windows => MergedWindows(special, common);
    case _ => MergedApple(p, special, common);
  }

  predicate ProperPackage(disk: map<string, File>, o: Options, p: Package)
    requires Readable(disk, o)
  {
    BundleIsComplete(disk[o.path(Windows)].entries.value);
    && AssetOf(disk, o, p).Some?
    && ProperAsset(p, Base(o.path(p)), o.url(p), AssetOf(disk, o, p).value, o.tagName)
    && (p == Android ==> ProperAndroid(o))
    && (p == Windows ==> ProperBundle(BundleOf(disk, o.path(Windows)).value))
  }

  lemma BuiltPackageIsValid(disk: map<string, File>, o: Options, p: Package)
    requires Readable(disk, o)
    ensures ValidPackage(p, FieldsOf(disk, o)(p), o.tagName) <==> ProperPackage(disk, o, p)
  {
    BundleIsComplete(disk[o.path(Windows)].entries.value);
    assert AssetOf(disk, o, p).Some?;
    var bundle, asset := BundleOf(disk, o.path(Windows)).value, AssetOf(disk, o, p).value;
    assert X64_NAME in NAMES && ARM64_NAME in NAMES;
    SpecialIsValid(p, o, bundle);
    MergedKind(p, Special(p, o, bundle), Common(Base(o.path(p)), o.url(p), asset));
    BuiltCommonIsValid(p, Special(p, o, bundle), Base(o.path(p)), o.url(p), asset, o.tagName);
  }

  lemma PackageNamesAreAllowed(fields: Package -> map<string, Any>)
    ensures OnlyFields(Packages(fields), PACKAGE_FIELDS)
  {
    forall k | k in Packages(fields) ensures k in PACKAGE_FIELDS {
      assert PACKAGE_FIELDS[0] == "android" && PACKAGE_FIELDS[1] == "ios" && PACKAGE_FIELDS[2] == "tvos"
        && PACKAGE_FIELDS[3] == "visionos" && PACKAGE_FIELDS[4] == "macos" && PACKAGE_FIELDS[5] == "webos"
        && PACKAGE_FIELDS[6] == "tizen" && PACKAGE_FIELDS[7] == "tvRuntime" && PACKAGE_FIELDS[8] == "windows";
    }
  }

  predicate ProperPackages(disk: map<string, File>, o: Options)
    requires Readable(disk, o)
  {
    forall p: Package :: ProperPackage(disk, o, p)
  }

  lemma BuiltPackagesAreValid(disk: map<string, File>, o: Options)
    requires Readable(disk, o)
    ensures ValidPackages(Packages(FieldsOf(disk, o)), o.tagName) <==> ProperPackages(disk, o)
  {
    var packages := Packages(FieldsOf(disk, o));
    PackageNamesAreAllowed(FieldsOf(disk, o));
    forall p: Package
      ensures FieldObject(packages, Key(p)).Some?
      ensures ValidPackage(p, FieldObject(packages, Key(p)).value, o.tagName) <==> ProperPackage(disk, o, p)
    {
      PackageLookup(FieldsOf(disk, o), p);
      BuiltPackageIsValid(disk, o, p);
    }
  }

  lemma RootTexts(o: Options, packages: map<string, Any>)
    ensures var r := Root(o, packages);
            && Field(r, "schemaVersion") == AInt(SCHEMA_VERSION) && Field(r, "version") == AText(VersionOf(o.tagName))
            && OnlyFields(r, ROOT_FIELDS)
  {
    assert ROOT_FIELDS[0] == "schemaVersion" && ROOT_FIELDS[1] == "channel" && ROOT_FIELDS[2] == "version"
      && ROOT_FIELDS[3] == "tagName" && ROOT_FIELDS[4] == "publishedAt" && ROOT_FIELDS[5] == "releaseUrl"
      && ROOT_FIELDS[6] == "packages";
  }

  lemma BuiltRootIsValid(o: Options, packages: map<string, Any>, isTimestamp: string -> bool)
    ensures ValidRoot(Root(o, packages), isTimestamp) <==> ProperRelease(o, isTimestamp)
  {
    RootLookup(o, packages);
    RootTexts(o, packages);
  }

  lemma ValidByParts(root: map<string, Any>, packages: map<string, Any>, tag: string, isTimestamp: string -> bool)
    requires Field(root, "packages") == AObject(packages) && Field(root, "tagName") == AText(tag)
    ensures Valid(AObject(root), isTimestamp) <==> ValidRoot(root, isTimestamp) && ValidPackages(packages, tag)
  {
  }

  lemma AssembledByParts(o: Options, packages: map<string, Any>, isTimestamp: string -> bool)
    ensures Valid(AObject(Root(o, packages)), isTimestamp) <==>
            ProperRelease(o, isTimestamp) && ValidPackages(packages, o.tagName)
  {
    RootLookup(o, packages);
    ValidByParts(Root(o, packages), packages, o.tagName, isTimestamp);
    BuiltRootIsValid(o, packages, isTimestamp);
  }

  /** Generation succeeds exactly when the files are readable within their limits, they carry the release's names and
      addresses, and the release's own values are well formed: the constants of the generator are those of the validator. */
  lemma BuildSucceeds(disk: map<string, File>, o: Options, isTimestamp: string -> bool)
    ensures Build(disk, o, isTimestamp).Some? <==>
            Readable(disk, o) && ProperRelease(o, isTimestamp) && ProperPackages(disk, o)
  {
    if Readable(disk, o) {
      AssembledByParts(o, Packages(FieldsOf(disk, o)), isTimestamp);
      BuiltPackagesAreValid(disk, o);
    }
  }
}
