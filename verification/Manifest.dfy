/** The release manifest: what the generator builds and what the validator accepts. */
module Manifest {
  import opened Prelude
  import opened Text
  import opened UniqueJson
  import opened ManifestValues
  import SemVer
  import opened WindowsBundle

  const RELEASES := "https://github.com/moodiness/rivune/releases"
  const SCHEMA_VERSION: int64 := 3

  datatype Package = Android | Ios | Tvos | Visionos | Macos | Webos | Tizen | TvRuntime | Windows

  function Key(p: Package): string {
    match p
    case Android => "android"
    case Ios => "ios"
    case Tvos => "tvos"
    case Visionos => "visionos"
    case Macos => "macos"
    case Webos => "webos"
    case Tizen => "tizen"
    case TvRuntime => "tvRuntime"
    case Windows => "windows"
  }

  function AssetName(p: Package): string {
    match p
    case Android => "Rivune-Android.apk"
    case Ios => "Rivune-iOS-unsigned.ipa"
    case Tvos => "Rivune-tvOS-unsigned.ipa"
    case Visionos => "Rivune-visionOS-unsigned.ipa"
    case Macos => "Rivune-macOS.dmg"
    case Webos => "Rivune-webOS.ipk"
    case Tizen => "Rivune-Tizen.wgt"
    case TvRuntime => "Rivune-TV-runtime.json"
    case Windows => "Rivune-Windows.exe"
  }

  function MaxSize(p: Package): int64 {
    match p
    case TvRuntime => 16 * 1024 * 1024
    case Windows => MAX_SIZE
    case _ => 512 * 1024 * 1024
  }

  function Format(p: Package): string {
    match p
    case Android => "apk"
    case Macos => "dmg"
    case Webos => "ipk"
    case Tizen => "wgt"
    case TvRuntime => "json"
    case Windows => "exe"
    case _ => "ipa"
  }

  function Architectures(p: Package): seq<string> {
    match p
    case Android => ["universal"]
    case Webos => ["universal"]
    case Tizen => ["universal"]
    case Macos => ["arm64", "x64"]
    case Windows => ["arm64", "x64"]
    case _ => ["arm64"]
  }

  function MinimumOs(p: Package): string {
    match p
    case Android => "8.0"
    case Visionos => "1.0"
    case Macos => "12.0"
    case Webos => "4.0"
    case Tizen => "5.5"
    case Windows => "10.0.19041.0"
    case _ => "15.0"
  }

  /** The bundle identifier of an Apple package, the application identifier of the others. */
  function Identifier(p: Package): string {
    match p
    case Tvos => "io.rivune.app.tv"
    case Visionos => "io.rivune.app.vision"
    case Macos => "io.rivune.app.mac"
    case Webos => "io.rivune.app.webos"
    case Tizen => "RivuneTV01.Rivune"
    case _ => "io.rivune.app"
  }

  // ---------------------------------------------------------------- validation

  predicate IsNameChar(c: char) {
    IsDigit(c) || 'A' <= c <= 'Z' || 'a' <= c <= 'z'
  }

  /** The pattern `^[0-9A-Za-z][0-9A-Za-z._+-]*$`. */
  predicate IsSafeFileName(s: string) {
    s != "" && IsNameChar(s[0]) && forall i | 0 <= i < |s| :: IsNameChar(s[i]) || s[i] in "._+-"
  }

  /** The pattern `^[0-9a-f]{64}$`. */
  predicate IsSha256(s: string) {
    |s| == 64 && forall i | 0 <= i < |s| :: IsDigit(s[i]) || 'a' <= s[i] <= 'f'
  }

  predicate OnlyFields(fields: map<string, Any>, allowed: seq<string>) {
    forall k | k in fields :: k in allowed
  }

  predicate ValidSize(fields: map<string, Any>, maximum: int64) {
    var size := FieldSize(fields, "size");
    size.Some? && size.value <= maximum
  }

  predicate ValidCommon(p: Package, fields: map<string, Any>, tag: string) {
    var name := FieldText(fields, "fileName");
    && IsSafeFileName(name) && name == AssetName(p)
    && FieldText(fields, "url") == RELEASES + "/download/" + tag + "/" + name
    && ValidSize(fields, MaxSize(p))
    && IsSha256(FieldText(fields, "sha256"))
  }

  const ANDROID_FIELDS := ["format", "architectures", "minimumOsVersion", "applicationId", "buildVersion", "signature",
                           "signingCertificateSha256", "fileName", "url", "size", "sha256"]
  const APPLE_FIELDS := ["format", "architectures", "minimumOsVersion", "bundleIdentifier", "signature",
                         "fileName", "url", "size", "sha256"]
  const TV_FIELDS := ["format", "architectures", "minimumOsVersion", "applicationId", "signature",
                      "fileName", "url", "size", "sha256"]
  const RUNTIME_FIELDS := ["format", "platforms", "fileName", "url", "size", "sha256"]
  const WINDOWS_FIELDS := ["format", "architectures", "minimumOsVersion", "signature", "fileName", "url", "size", "sha256", "executables"]

  predicate ValidAndroid(fields: map<string, Any>) {
    && OnlyFields(fields, ANDROID_FIELDS)
    && FieldText(fields, "format") == "apk"
    && FieldText(fields, "signature") == "signed"
    && FieldStrings(fields, "architectures") == Some(["universal"])
    && FieldText(fields, "minimumOsVersion") == "8.0"
    && FieldText(fields, "applicationId") == "io.rivune.app"
    && IsPositiveDecimal(FieldText(fields, "buildVersion"))
    && IsSha256(FieldText(fields, "signingCertificateSha256"))
  }

  predicate ValidApple(p: Package, fields: map<string, Any>) {
    && OnlyFields(fields, APPLE_FIELDS)
    && FieldText(fields, "format") == Format(p)
    && FieldStrings(fields, "architectures") == Some(Architectures(p))
    && FieldText(fields, "minimumOsVersion") == MinimumOs(p)
    && FieldText(fields, "bundleIdentifier") == Identifier(p)
    && FieldText(fields, "signature") == "unsigned"
  }

  predicate ValidTv(p: Package, fields: map<string, Any>) {
    && OnlyFields(fields, TV_FIELDS)
    && FieldText(fields, "format") == Format(p)
    && FieldStrings(fields, "architectures") == Some(["universal"])
    && FieldText(fields, "minimumOsVersion") == MinimumOs(p)
    && FieldText(fields, "applicationId") == Identifier(p)
    && FieldText(fields, "signature") == "unsigned"
  }

  predicate ValidRuntime(fields: map<string, Any>) {
    && OnlyFields(fields, RUNTIME_FIELDS)
    && FieldText(fields, "format") == "json"
    && FieldStrings(fields, "platforms") == Some(["webos", "tizen"])
  }

  predicate ValidExecutable(executables: map<string, Any>, architecture: string, name: string) {
    var e := FieldObject(executables, architecture);
    && e.Some? && OnlyFields(e.value, ["fileName", "size", "sha256"])
    && FieldText(e.value, "fileName") == name
    && ValidSize(e.value, MAX_SIZE)
    && IsSha256(FieldText(e.value, "sha256"))
  }

  predicate ValidWindows(fields: map<string, Any>) {
    && OnlyFields(fields, WINDOWS_FIELDS)
    && FieldText(fields, "format") == "exe"
    && FieldText(fields, "signature") == "unsigned"
    && FieldStrings(fields, "architectures") == Some(["arm64", "x64"])
    && FieldText(fields, "minimumOsVersion") == "10.0.19041.0"
    && var e := FieldObject(fields, "executables");
    && e.Some? && OnlyFields(e.value, ["x64", "arm64"])
    && ValidExecutable(e.value, "x64", X64_NAME)
    && ValidExecutable(e.value, "arm64", ARM64_NAME)
  }

  predicate ValidKind(p: Package, fields: map<string, Any>) {
    match p
    case Android => ValidAndroid(fields)
    case Webos => ValidTv(p, fields)
    case Tizen => ValidTv(p, fields)
    case TvRuntime => ValidRuntime(fields)
    case Windows => ValidWindows(fields)
    case _ => ValidApple(p, fields)
  }

  predicate ValidPackage(p: Package, fields: map<string, Any>, tag: string) {
    ValidKind(p, fields) && ValidCommon(p, fields, tag)
  }

  const ROOT_FIELDS := ["schemaVersion", "channel", "version", "tagName", "publishedAt", "releaseUrl", "packages"]
  const PACKAGE_FIELDS := ["android", "ios", "tvos", "visionos", "macos", "webos", "tizen", "tvRuntime", "windows"]

  /** `isTimestamp` stands for the RFC 3339 pattern together with the parser of the standard library. */
  ghost predicate ValidRoot(root: map<string, Any>, isTimestamp: string -> bool) {
    var channel, version, tag := FieldText(root, "channel"), FieldText(root, "version"), FieldText(root, "tagName");
    && OnlyFields(root, ROOT_FIELDS)
    && ExactInteger(Field(root, "schemaVersion"), SCHEMA_VERSION)
    && (channel == "stable" || channel == "prerelease")
    && SemVer.Matches(version)
    && tag == "v" + version
    && FieldText(root, "publishedAt") != "" && isTimestamp(FieldText(root, "publishedAt"))
    && FieldText(root, "releaseUrl") == RELEASES + "/tag/" + tag
    && SemVer.ValidChannel(channel, version)
  }

  predicate ValidPackages(packages: map<string, Any>, tag: string) {
    && OnlyFields(packages, PACKAGE_FIELDS)
    && forall p: Package ::
         FieldObject(packages, Key(p)).Some? && ValidPackage(p, FieldObject(packages, Key(p)).value, tag)
  }

  /** `validateManifest`. */
  ghost predicate Valid(m: Any, isTimestamp: string -> bool) {
    && m.AObject? && ValidRoot(m.fields, isTimestamp)
    && FieldObject(m.fields, "packages").Some?
    && ValidPackages(FieldObject(m.fields, "packages").value, FieldText(m.fields, "tagName"))
  }

  // ---------------------------------------------------------------- the verdict does not depend on where a value comes from

  lemma CommonSurvivesWire(p: Package, fields: map<string, Any>, tag: string)
    ensures ValidCommon(p, WireFields(fields), tag) <==> ValidCommon(p, fields, tag)
  {
    FieldsSurviveWire(fields);
  }

  lemma ExecutableSurvivesWire(executables: map<string, Any>, architecture: string, name: string)
    ensures ValidExecutable(WireFields(executables), architecture, name) <==> ValidExecutable(executables, architecture, name)
  {
    FieldObjectSurvivesWire(executables, architecture);
    var e := FieldObject(executables, architecture);
    if e.Some? {
      FieldsSurviveWire(e.value);
    }
  }

  lemma WindowsSurvivesWire(fields: map<string, Any>)
    ensures ValidWindows(WireFields(fields)) <==> ValidWindows(fields)
  {
    FieldsSurviveWire(fields);
    FieldObjectSurvivesWire(fields, "executables");
    var e := FieldObject(fields, "executables");
    if e.Some? {
      ExecutableSurvivesWire(e.value, "x64", X64_NAME);
      ExecutableSurvivesWire(e.value, "arm64", ARM64_NAME);
    }
  }

  lemma AndroidSurvivesWire(fields: map<string, Any>)
    ensures ValidAndroid(WireFields(fields)) <==> ValidAndroid(fields)
  {
    FieldsSurviveWire(fields);
  }

  lemma AppleSurvivesWire(p: Package, fields: map<string, Any>)
    ensures ValidApple(p, WireFields(fields)) <==> ValidApple(p, fields)
  {
    FieldsSurviveWire(fields);
  }

  lemma TvSurvivesWire(p: Package, fields: map<string, Any>)
    ensures ValidTv(p, WireFields(fields)) <==> ValidTv(p, fields)
  {
    FieldsSurviveWire(fields);
  }

  lemma RuntimeSurvivesWire(fields: map<string, Any>)
    ensures ValidRuntime(WireFields(fields)) <==> ValidRuntime(fields)
  {
    FieldsSurviveWire(fields);
  }

  lemma PackageSurvivesWire(p: Package, fields: map<string, Any>, tag: string)
    ensures ValidPackage(p, WireFields(fields), tag) <==> ValidPackage(p, fields, tag)
  {
    CommonSurvivesWire(p, fields, tag);
    match p
    case Android => AndroidSurvivesWire(fields);
    case Webos => TvSurvivesWire(p, fields);
    case Tizen => TvSurvivesWire(p, fields);
    case TvRuntime => RuntimeSurvivesWire(fields);
    case Windows => WindowsSurvivesWire(fields);
    case _ => AppleSurvivesWire(p, fields);
  }

  lemma PackagesSurviveWire(packages: map<string, Any>, tag: string)
    ensures ValidPackages(WireFields(packages), tag) <==> ValidPackages(packages, tag)
  {
    forall p: Package
      ensures FieldObject(WireFields(packages), Key(p)).Some? <==> FieldObject(packages, Key(p)).Some?
      ensures FieldObject(packages, Key(p)).Some? ==>
                (ValidPackage(p, FieldObject(WireFields(packages), Key(p)).value, tag)
                 <==> ValidPackage(p, FieldObject(packages, Key(p)).value, tag))
    {
      FieldObjectSurvivesWire(packages, Key(p));
      if FieldObject(packages, Key(p)).Some? {
        PackageSurvivesWire(p, FieldObject(packages, Key(p)).value, tag);
      }
    }
  }

  lemma RootSurvivesWire(root: map<string, Any>, isTimestamp: string -> bool)
    ensures ValidRoot(WireFields(root), isTimestamp) <==> ValidRoot(root, isTimestamp)
  {
    FieldsSurviveWire(root);
    FieldSurvivesWire(root, "schemaVersion");
    IntegersSurviveWire(Field(root, "schemaVersion"), SCHEMA_VERSION);
  }

  /** The verdict is the same for a manifest in memory and for the one decoded from its text. */
  lemma {:induction false} VerdictSurvivesWire(m: Any, isTimestamp: string -> bool)
    ensures Valid(Wire(m), isTimestamp) <==> Valid(m, isTimestamp)
  {
    if m.AObject? {
      var root := m.fields;
      RootSurvivesWire(root, isTimestamp);
      FieldObjectSurvivesWire(root, "packages");
      AnyFieldSurvivesWire(root, "tagName", 0, "");
      if FieldObject(root, "packages").Some? {
        PackagesSurviveWire(FieldObject(root, "packages").value, FieldText(root, "tagName"));
      }
    }
  }
}
