/** `XMakeTasks`: which self-contained XMake bundle is published for a platform, and what
    `TryGetXMake` does to have it under the build's temporary directory. The download itself is
    an action in the plan the model returns. */
module XMakeTasks {
  import opened Wrappers
  import opened Strings
  import opened Paths
  import opened Platforms

  const LatestVersion := "3.0.4"
  const BundlePrefix := "xmake-bundle-v"
  const Exe := ".exe"
  const Downloads := "https://github.com/xmake-io/xmake/releases/download/"

  /** What follows the version in a bundle name, for the pairs with a bundle. */
  function Suffix(plat: PlatformFamily, arch: Architecture): Option<string> {
    match (plat, arch)
    case (Windows, X64) => Some(".win64" + Exe)
    case (Windows, X86) => Some(".win32" + Exe)
    case (Windows, Arm64) => Some(".arm64" + Exe)
    case (Linux, X64) => Some(".linux.x86_64")
    case (OSX, Arm64) => Some(".macos.arm64")
    case (OSX, X64) => Some(".macos.x86_64")
    case _ => None
  }

  /** `GetBundleAppName(version)` on the platform `plat` with the architecture `arch`. */
  function BundleAppName(version: string, plat: PlatformFamily, arch: Architecture): (r: Result<string>)
    ensures r.Ok? <==> (plat == Windows && arch in {X64, X86, Arm64}) || (plat == Linux && arch == X64) || (plat == OSX && arch in {X64, Arm64})
    ensures r.Err? ==> r.error == Unsupported("XMake", plat, arch)
    ensures r.Ok? ==> StartsWith(r.value, BundlePrefix + version)
    ensures r.Ok? ==> (EndsWith(r.value, Exe) <==> plat == Windows)
  {
    match Suffix(plat, arch)
    case Some(suffix) =>
      var name := BundlePrefix + version + suffix;
      assert name[..|BundlePrefix + version|] == BundlePrefix + version;
      assert name[|name| - |Exe|..] == suffix[|suffix| - |Exe|..];
      Ok(name)
    case None => Result.Err(Unsupported("XMake", plat, arch))
  }

  /** Fetching `url` to the file `to`. */
  datatype Download = Download(url: string, to: AbsolutePath)

  /** What `TryGetXMake` does: perhaps one download, then the program it hands back. */
  datatype Setup = Setup(download: Option<Download>, program: AbsolutePath)

  /** `TryGetXMake(version)` with the release tag its download link names: the bundle is the
      program itself, lying directly in the temporary directory, and it is fetched only when
      that file is missing. */
  function SetupFrom(tag: string, temp: AbsolutePath, version: string, plat: PlatformFamily, arch: Architecture,
                     fileExists: AbsolutePath -> bool): (r: Result<Setup>)
    requires Normalised(temp)
    ensures r.Ok? <==> BundleAppName(version, plat, arch).Ok?
    ensures r.Err? ==> r.error == BundleAppName(version, plat, arch).error
    ensures r.Ok? ==> var bundle := BundleAppName(version, plat, arch).value;
      && r.value.program == Combine(temp, bundle)
      && (r.value.download.None? <==> fileExists(r.value.program))
      && (r.value.download.Some? ==> r.value.download.value == Download(ReleaseAssetUrl(Downloads, tag, bundle), r.value.program))
  {
    var bundle :- BundleAppName(version, plat, arch);
    var path := Combine(temp, bundle);
    var download := if fileExists(path) then None else Some(Download(ReleaseAssetUrl(Downloads, tag, bundle), path));
    Ok(Setup(download, path))
  }

  /** `TryGetXMake` as written: the link names the release `LatestVersion` whatever version
      was asked for. */
  function TryGetXMakeAsWritten(temp: AbsolutePath, version: string, plat: PlatformFamily, arch: Architecture,
                                fileExists: AbsolutePath -> bool): (r: Result<Setup>)
    requires Normalised(temp)
    ensures r.Ok? <==> BundleAppName(version, plat, arch).Ok?
    ensures r.Ok? && r.value.download.Some? ==>
      r.value.download.value.url == ReleaseAssetUrl(Downloads, LatestVersion, BundleAppName(version, plat, arch).value)
  {
    SetupFrom(LatestVersion, temp, version, plat, arch, fileExists)
  }

  /** `TryGetXMake` downloading from the release of the version asked for. */
  function TryGetXMake(temp: AbsolutePath, version: string, plat: PlatformFamily, arch: Architecture,
                       fileExists: AbsolutePath -> bool): (r: Result<Setup>)
    requires Normalised(temp)
    ensures r.Ok? <==> BundleAppName(version, plat, arch).Ok?
    ensures r.Ok? && r.value.download.Some? ==>
      r.value.download.value.url == ReleaseAssetUrl(Downloads, version, BundleAppName(version, plat, arch).value)
  {
    SetupFrom(version, temp, version, plat, arch, fileExists)
  }

  // ---- Properties ------------------------------------------------------------------------

  lemma SeparatorFreeConcat(a: string, b: string)
    requires SeparatorFree(a) && SeparatorFree(b)
    ensures SeparatorFree(a + b)
  {
    forall i | 0 <= i < |a + b|
      ensures !IsSeparator((a + b)[i])
    {
      if i < |a| {
        assert (a + b)[i] == a[i];
      } else {
        assert (a + b)[i] == b[i - |a|];
      }
    }
  }

  lemma SuffixIsSeparatorFree(plat: PlatformFamily, arch: Architecture)
    requires Suffix(plat, arch).Some?
    ensures SeparatorFree(Suffix(plat, arch).value)
  {
    assert SeparatorFree(Exe);
    match (plat, arch)
    case (Windows, X64) => SeparatorFreeConcat(".win64", Exe);
    case (Windows, X86) => SeparatorFreeConcat(".win32", Exe);
    case (Windows, Arm64) => SeparatorFreeConcat(".arm64", Exe);
    case (Linux, X64) =>
    case (OSX, Arm64) =>
    case (OSX, X64) =>
  }

  /** For a version made of digits and dots, the bundle lands directly in the temporary
      directory, under its own name. */
  lemma BundleInTemporaryDirectory(temp: AbsolutePath, version: string, plat: PlatformFamily, arch: Architecture,
                                   fileExists: AbsolutePath -> bool)
    requires Normalised(temp) && IsVersionText(version) && BundleAppName(version, plat, arch).Ok?
    ensures var program := TryGetXMake(temp, version, plat, arch, fileExists).value.program;
      program == AbsolutePath(temp.root, temp.segments + [BundleAppName(version, plat, arch).value])
  {
    var suffix := Suffix(plat, arch).value;
    SuffixIsSeparatorFree(plat, arch);
    assert SeparatorFree(BundlePrefix) && SeparatorFree(version);
    SeparatorFreeConcat(BundlePrefix, version);
    SeparatorFreeConcat(BundlePrefix + version, suffix);
    var bundle := BundlePrefix + version + suffix;
    assert bundle[0] == 'x';
    assert IsNormalSegment(bundle);
    CombineSegment(temp, bundle);
  }

  /** As written, `TryGetXMake(version)` downloads the bundle of `version` from the release
      `LatestVersion`: for any other version the link names the wrong release. */
  lemma AsWrittenFetchesLatestRelease(temp: AbsolutePath, version: string, plat: PlatformFamily, arch: Architecture,
                                      fileExists: AbsolutePath -> bool)
    requires Normalised(temp) && BundleAppName(version, plat, arch).Ok?
    requires !fileExists(Combine(temp, BundleAppName(version, plat, arch).value))
    ensures var r := TryGetXMakeAsWritten(temp, version, plat, arch, fileExists);
      && r.Ok? && r.value.download.Some?
      && ReleaseTagOf(Downloads, r.value.download.value.url) == Some(LatestVersion)
      && (version != LatestVersion ==> ReleaseTagOf(Downloads, r.value.download.value.url) != Some(version))
  {
    ReleaseTagOfAssetUrl(Downloads, LatestVersion, BundleAppName(version, plat, arch).value);
  }

  /** Corrected, the link names the release of the version asked for, the release the bundle
      name belongs to. */
  lemma FetchesRequestedRelease(temp: AbsolutePath, version: string, plat: PlatformFamily, arch: Architecture,
                                fileExists: AbsolutePath -> bool)
    requires Normalised(temp) && IsVersionText(version) && BundleAppName(version, plat, arch).Ok?
    requires !fileExists(Combine(temp, BundleAppName(version, plat, arch).value))
    ensures var r := TryGetXMake(temp, version, plat, arch, fileExists);
      && r.Ok? && r.value.download.Some?
      && ReleaseTagOf(Downloads, r.value.download.value.url) == Some(version)
      && EndsWith(r.value.download.value.url, BundleAppName(version, plat, arch).value)
  {
    assert '/' !in version;
    ReleaseTagOfAssetUrl(Downloads, version, BundleAppName(version, plat, arch).value);
  }
}
