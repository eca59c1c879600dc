/** `CMakeTasks`: which CMake archive Kitware publishes for a platform, where it is unpacked
    under the build's temporary directory, where the program then lies, and what `TryGetCMake`
    does to get it there. The download and the unpacking themselves are actions in the plan the
    model returns. */
module CMakeTasks {
  import opened Wrappers
  import opened Strings
  import opened Paths
  import opened Platforms

  const LatestVersion := "4.1.2"
  const Zip := ".zip"
  const TarGz := ".tar.gz"
  const Downloads := "https://github.com/Kitware/CMake/releases/download/"

  /** The platform part of an archive name and its extension, for the pairs with an archive. */
  function Target(plat: PlatformFamily, arch: Architecture): Option<(string, string)> {
    match (plat, arch)
    case (Windows, X64) => Some(("windows-x86_64", Zip))
    case (Windows, X86) => Some(("windows-i386", Zip))
    case (Windows, Arm64) => Some(("windows-arm64", Zip))
    case (Linux, X64) => Some(("linux-x86_64", TarGz))
    case (Linux, Arm64) => Some(("linux-aarch64", TarGz))
    case (OSX, _) => Some(("macos-universal", TarGz))
    case _ => None
  }

  /** `GetArchiveName(version)` on the platform `plat` with the architecture `arch`. */
  function ArchiveName(version: string, plat: PlatformFamily, arch: Architecture): (r: Result<string>)
    ensures r.Ok? <==> plat == OSX || (plat == Windows && arch in {X64, X86, Arm64}) || (plat == Linux && arch in {X64, Arm64})
    ensures r.Err? ==> r.error == Unsupported("CMake", plat, arch)
    ensures r.Ok? ==> StartsWith(r.value, "cmake-" + version + "-")
    ensures r.Ok? && plat == Windows ==> EndsWith(r.value, Zip)
    ensures r.Ok? && plat != Windows ==> EndsWith(r.value, TarGz)
  {
    match Target(plat, arch)
    case Some((t, ext)) =>
      var prefix := "cmake-" + version + "-";
      var name := prefix + t + ext;
      assert name[..|prefix|] == prefix;
      assert name[|name| - |ext|..] == ext;
      Ok(name)
    case None => Result.Err(Unsupported("CMake", plat, arch))
  }

  /** The folder an archive unpacks to: its name with ".zip", then ".tar.gz", replaced away. */
  function SubfolderName(archive: string): string {
    Replace(Replace(archive, Zip, ""), TarGz, "")
  }

  /** `localPath`: the folder under the temporary directory that archives are fetched to and
      unpacked in. */
  function LocalPath(temp: AbsolutePath): (r: AbsolutePath)
    requires Normalised(temp)
    ensures r == AbsolutePath(temp.root, temp.segments + ["cmake"])
  {
    CombineSegment(temp, "cmake");
    Combine(temp, "cmake")
  }

  /** The folder an archive unpacks to inside `localPath`. */
  function Unpacked(temp: AbsolutePath, archive: string): (r: AbsolutePath)
    requires Normalised(temp)
    ensures Normalised(r) && r.root == temp.root
  {
    Combine(LocalPath(temp), SubfolderName(archive))
  }

  /** `GetLocalCMakeBin(version)`: the folder to put on the `PATH`; `bin` inside the unpacked
      folder, except on OSX where the unpacked folder itself is meant. */
  function LocalCMakeBin(temp: AbsolutePath, version: string, plat: PlatformFamily, arch: Architecture): (r: Result<AbsolutePath>)
    requires Normalised(temp)
    ensures r.Ok? <==> ArchiveName(version, plat, arch).Ok?
    ensures r.Err? ==> r.error == ArchiveName(version, plat, arch).error
    ensures r.Ok? ==> Normalised(r.value) && r.value.root == temp.root
  {
    var archive :- ArchiveName(version, plat, arch);
    var unpacked := Unpacked(temp, archive);
    Ok(if plat == OSX then unpacked else Combine(unpacked, "bin"))
  }

  /** The program `TryGetCMake` resolves inside the unpacked folder. */
  function ProgramPath(temp: AbsolutePath, version: string, plat: PlatformFamily, arch: Architecture): (r: Result<AbsolutePath>)
    requires Normalised(temp)
    ensures r.Ok? <==> ArchiveName(version, plat, arch).Ok?
    ensures r.Err? ==> r.error == ArchiveName(version, plat, arch).error
  {
    var archive :- ArchiveName(version, plat, arch);
    var unpacked := Unpacked(temp, archive);
    match plat
    case Windows => Ok(Combine(Combine(unpacked, "bin"), "cmake.exe"))
    case Linux => Ok(Combine(Combine(unpacked, "bin"), "cmake"))
    case OSX => Ok(Combine(unpacked, "CMake.app"))
  }

  /** How a downloaded archive is unpacked, chosen by its extension, case-insensitively. */
  datatype Extraction = UnZip | UnTarGZip | KeepArchive

  function ExtractionFor(archive: string): Extraction {
    if EndsWithIgnoreCase(archive, Zip) then UnZip
    else if EndsWithIgnoreCase(archive, TarGz) then UnTarGZip
    else KeepArchive
  }

  /** Fetching `url` to `to`, then unpacking it into `into`. */
  datatype Download = Download(url: string, to: AbsolutePath, extract: Extraction, into: AbsolutePath)

  /** What `TryGetCMake` does: perhaps one download, then the program it hands back. */
  datatype Setup = Setup(download: Option<Download>, program: AbsolutePath)

  /** `TryGetCMake(version)` with the release tag its download link names: nothing is
      downloaded when the unpacked folder exists already. */
  function SetupFrom(tag: string, temp: AbsolutePath, version: string, plat: PlatformFamily, arch: Architecture,
                     dirExists: AbsolutePath -> bool): (r: Result<Setup>)
    requires Normalised(temp)
    ensures r.Ok? <==> ArchiveName(version, plat, arch).Ok?
    ensures r.Err? ==> r.error == ArchiveName(version, plat, arch).error
    ensures r.Ok? ==> Ok(r.value.program) == ProgramPath(temp, version, plat, arch)
    ensures r.Ok? ==> var archive := ArchiveName(version, plat, arch).value;
      var local := LocalPath(temp);
      && (r.value.download.None? <==> dirExists(Unpacked(temp, archive)))
      && (r.value.download.Some? ==> r.value.download.value == Download(ReleaseAssetUrl(Downloads, tag, archive), Combine(local, archive), ExtractionFor(archive), local))
  {
    var archive :- ArchiveName(version, plat, arch);
    var local := LocalPath(temp);
    var download :=
      if dirExists(Unpacked(temp, archive)) then None
      else Some(Download(ReleaseAssetUrl(Downloads, tag, archive), Combine(local, archive), ExtractionFor(archive), local));
    Ok(Setup(download, ProgramPath(temp, version, plat, arch).value))
  }

  /** `TryGetCMake` as written: the link names the release `LatestVersion` whatever version
      was asked for. */
  function TryGetCMakeAsWritten(temp: AbsolutePath, version: string, plat: PlatformFamily, arch: Architecture,
                                dirExists: AbsolutePath -> bool): (r: Result<Setup>)
    requires Normalised(temp)
    ensures r.Ok? <==> ArchiveName(version, plat, arch).Ok?
    ensures r.Ok? && r.value.download.Some? ==>
      r.value.download.value.url == ReleaseAssetUrl(Downloads, LatestVersion, ArchiveName(version, plat, arch).value)
  {
    SetupFrom(LatestVersion, temp, version, plat, arch, dirExists)
  }

  /** `TryGetCMake` downloading from the release of the version asked for. */
  function TryGetCMake(temp: AbsolutePath, version: string, plat: PlatformFamily, arch: Architecture,
                       dirExists: AbsolutePath -> bool): (r: Result<Setup>)
    requires Normalised(temp)
    ensures r.Ok? <==> ArchiveName(version, plat, arch).Ok?
    ensures r.Ok? && r.value.download.Some? ==>
      r.value.download.value.url == ReleaseAssetUrl(Downloads, version, ArchiveName(version, plat, arch).value)
  {
    SetupFrom(version, temp, version, plat, arch, dirExists)
  }

  // ---- Properties ------------------------------------------------------------------------

  /** OSX has one archive, whatever the architecture. */
  lemma OsxIsUniversal(version: string, a: Architecture, b: Architecture)
    ensures ArchiveName(version, OSX, a) == ArchiveName(version, OSX, b)
    ensures ArchiveName(version, OSX, a).Ok?
  {
  }

  /** No plain character a target name lacks: 'z', 'p' and the separators. */
  predicate Plain(t: string) {
    forall i :: 0 <= i < |t| ==> PlainChar(t[i])
  }

  predicate PlainChar(c: char) {
    c != 'z' && c != 'p' && c != '/' && c != '\\'
  }

  lemma TargetIsPlain(plat: PlatformFamily, arch: Architecture)
    requires Target(plat, arch).Some?
    ensures Plain(Target(plat, arch).value.0)
  {
    match (plat, arch)
    case (Windows, X64) =>
    case (Windows, X86) =>
    case (Windows, Arm64) =>
    case (Linux, X64) =>
    case (Linux, Arm64) =>
    case (OSX, _) =>
  }

  lemma PlainConcat(a: string, b: string)
    requires Plain(a) && Plain(b)
    ensures Plain(a + b)
  {
    forall i | 0 <= i < |a + b|
      ensures PlainChar((a + b)[i])
    {
      if i < |a| {
        assert (a + b)[i] == a[i];
      } else {
        assert (a + b)[i] == b[i - |a|];
      }
    }
  }

  /** An archive name without its extension is plain for any version made of digits and dots. */
  lemma StemIsPlain(version: string, plat: PlatformFamily, arch: Architecture)
    requires IsVersionText(version) && Target(plat, arch).Some?
    ensures var stem := "cmake-" + version + "-" + Target(plat, arch).value.0;
      Plain(stem) && stem[0] == 'c'
  {
    var t := Target(plat, arch).value.0;
    TargetIsPlain(plat, arch);
    assert Plain(version);
    var c, d := "cmake-", "-";
    assert Plain(c) && Plain(d);
    PlainConcat(c, version);
    PlainConcat(c + version, d);
    PlainConcat(c + version + d, t);
  }

  lemma PlainLacks(t: string)
    requires Plain(t)
    ensures 'z' !in t && 'p' !in t
  {
  }

  /** Stripping the extensions from a plain name with one of them appended gives the name back. */
  lemma StripExtension(stem: string, ext: string)
    requires Plain(stem) && (ext == Zip || ext == TarGz)
    ensures SubfolderName(stem + ext) == stem
  {
    PlainLacks(stem);
    if ext == Zip {
      ReplaceTrailing(stem, Zip, "");
      assert stem + "" == stem;
      ReplaceAbsent(stem, TarGz, "", 6);
    } else {
      assert TarGz[..|TarGz| - 1] == ".tar.g";
      assert 'p' !in stem + TarGz;
      ReplaceAbsent(stem + TarGz, Zip, "", 3);
      ReplaceTrailing(stem, TarGz, "");
      assert stem + "" == stem;
    }
  }

  /** A plain name that starts with a letter is a path segment of its own. */
  lemma PlainIsSegment(stem: string)
    requires Plain(stem) && |stem| > 0 && stem[0] == 'c'
    ensures IsNormalSegment(stem)
  {
    assert stem != "." && stem != "..";
  }

  /** The unpacked folder is the archive name without its extension, and is one plain path
      segment. */
  lemma SubfolderDropsExtension(version: string, plat: PlatformFamily, arch: Architecture)
    requires IsVersionText(version) && ArchiveName(version, plat, arch).Ok?
    ensures var archive := ArchiveName(version, plat, arch).value;
      && archive == SubfolderName(archive) + (if plat == Windows then Zip else TarGz)
      && IsNormalSegment(SubfolderName(archive))
  {
    var (t, ext) := Target(plat, arch).value;
    var stem := "cmake-" + version + "-" + t;
    StemIsPlain(version, plat, arch);
    assert ArchiveName(version, plat, arch).value == stem + ext;
    StripExtension(stem, ext);
    PlainIsSegment(stem);
  }

  /** `GetLocalCMakeBin`: `cmake/<unpacked folder>/bin` under the temporary directory, or just
      `cmake/<unpacked folder>` on OSX. */
  lemma LocalBinLayout(temp: AbsolutePath, version: string, plat: PlatformFamily, arch: Architecture)
    requires Normalised(temp) && IsVersionText(version) && ArchiveName(version, plat, arch).Ok?
    ensures var sub := SubfolderName(ArchiveName(version, plat, arch).value);
      LocalCMakeBin(temp, version, plat, arch)
        == Ok(AbsolutePath(temp.root, temp.segments + ["cmake", sub] + (if plat == OSX then [] else ["bin"])))
  {
    var archive := ArchiveName(version, plat, arch).value;
    var sub := SubfolderName(archive);
    SubfolderDropsExtension(version, plat, arch);
    UnpackedLayout(temp, archive);
    var unpacked := Unpacked(temp, archive);
    var bin := LocalCMakeBin(temp, version, plat, arch).value;
    if plat == OSX {
      assert bin == unpacked;
      assert temp.segments + ["cmake", sub] + [] == temp.segments + ["cmake", sub];
    } else {
      assert bin == Combine(unpacked, "bin");
      CombineSegment(unpacked, "bin");
    }
  }

  lemma UnpackedLayout(temp: AbsolutePath, archive: string)
    requires Normalised(temp) && IsNormalSegment(SubfolderName(archive))
    ensures Unpacked(temp, archive) == AbsolutePath(temp.root, temp.segments + ["cmake", SubfolderName(archive)])
  {
    var sub := SubfolderName(archive);
    CombineSegment(LocalPath(temp), sub);
    assert temp.segments + ["cmake"] + [sub] == temp.segments + ["cmake", sub];
  }

  /** The name of the program `TryGetCMake` resolves. */
  function ProgramName(plat: PlatformFamily): string {
    match plat
    case Windows => "cmake.exe"
    case Linux => "cmake"
    case _ => "CMake.app"
  }

  lemma ProgramInBin(temp: AbsolutePath, version: string, plat: PlatformFamily, arch: Architecture)
    requires Normalised(temp) && ArchiveName(version, plat, arch).Ok?
    ensures ProgramPath(temp, version, plat, arch).value == Combine(LocalCMakeBin(temp, version, plat, arch).value, ProgramName(plat))
  {
  }

  /** The program `TryGetCMake` resolves lies directly in the folder `GetLocalCMakeBin` names:
      `cmake.exe` on Windows, `cmake` on Linux, the `CMake.app` bundle on OSX. */
  lemma ProgramInLocalBin(temp: AbsolutePath, version: string, plat: PlatformFamily, arch: Architecture)
    requires Normalised(temp) && ArchiveName(version, plat, arch).Ok?
    ensures var program := ProgramPath(temp, version, plat, arch).value;
      && |program.segments| > 0
      && Parent(program) == LocalCMakeBin(temp, version, plat, arch).value
      && Name(program) == ProgramName(plat)
  {
    var bin := LocalCMakeBin(temp, version, plat, arch).value;
    var program := ProgramPath(temp, version, plat, arch).value;
    ProgramInBin(temp, version, plat, arch);
    ProgramNameIsSegment(plat);
    ChildOf(bin, ProgramName(plat));
  }

  lemma ProgramNameIsSegment(plat: PlatformFamily)
    ensures IsNormalSegment(ProgramName(plat))
  {
    match plat
    case Windows =>
    case Linux =>
    case _ =>
  }

  /** A path one plain segment below `dir` has `dir` as its parent and that segment as its name. */
  lemma ChildOf(dir: AbsolutePath, name: string)
    requires Normalised(dir) && IsNormalSegment(name)
    ensures |Combine(dir, name).segments| > 0
    ensures Parent(Combine(dir, name)) == dir && Name(Combine(dir, name)) == name
  {
    CombineSegment(dir, name);
    assert (dir.segments + [name])[..|dir.segments|] == dir.segments;
  }

  /** Windows archives are unzipped, the others untarred: the extension test always picks one. */
  lemma ExtractionByPlatform(version: string, plat: PlatformFamily, arch: Architecture)
    requires ArchiveName(version, plat, arch).Ok?
    ensures ExtractionFor(ArchiveName(version, plat, arch).value) == if plat == Windows then UnZip else UnTarGZip
  {
    var archive := ArchiveName(version, plat, arch).value;
    var n := |archive|;
    if plat == Windows {
      assert archive[n - |Zip|..] == Zip;
    } else {
      assert archive[n - |TarGz|..] == TarGz;
      assert archive[n - |Zip|..][0] == TarGz[3];
      assert !EqualsIgnoreCase(archive[n - |Zip|..], Zip);
    }
  }

  /** As written, `TryGetCMake(version)` downloads the archive of `version` from the release
      `LatestVersion`: for any other version the link names the wrong release. */
  lemma AsWrittenFetchesLatestRelease(temp: AbsolutePath, version: string, plat: PlatformFamily, arch: Architecture,
                                      dirExists: AbsolutePath -> bool)
    requires Normalised(temp) && ArchiveName(version, plat, arch).Ok?
    requires !dirExists(Unpacked(temp, ArchiveName(version, plat, arch).value))
    ensures var r := TryGetCMakeAsWritten(temp, version, plat, arch, dirExists);
      && r.Ok? && r.value.download.Some?
      && ReleaseTagOf(Downloads, r.value.download.value.url) == Some(LatestVersion)
      && (version != LatestVersion ==> ReleaseTagOf(Downloads, r.value.download.value.url) != Some(version))
  {
    ReleaseTagOfAssetUrl(Downloads, LatestVersion, ArchiveName(version, plat, arch).value);
  }

  /** Corrected, the link names the release of the version asked for, the release the archive
      name belongs to. */
  lemma FetchesRequestedRelease(temp: AbsolutePath, version: string, plat: PlatformFamily, arch: Architecture,
                                dirExists: AbsolutePath -> bool)
    requires Normalised(temp) && IsVersionText(version) && ArchiveName(version, plat, arch).Ok?
    requires !dirExists(Unpacked(temp, ArchiveName(version, plat, arch).value))
    ensures var r := TryGetCMake(temp, version, plat, arch, dirExists);
      && r.Ok? && r.value.download.Some?
      && ReleaseTagOf(Downloads, r.value.download.value.url) == Some(version)
      && EndsWith(r.value.download.value.url, ArchiveName(version, plat, arch).value)
  {
    assert '/' !in version;
    ReleaseTagOfAssetUrl(Downloads, version, ArchiveName(version, plat, arch).value);
  }
}
