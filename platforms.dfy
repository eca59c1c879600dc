/** What the tool installers switch on: Nuke's `PlatformFamily` and .NET's `Architecture`, the
    version texts they are given and the GitHub release links they download from. */
module Platforms {
  import opened Wrappers
  import opened Strings

  /** Nuke's `EnvironmentInfo.Platform`. */
  datatype PlatformFamily = Unknown | Windows | Linux | OSX

  /** .NET's `RuntimeInformation.OSArchitecture`. */
  datatype Architecture = X86 | X64 | Arm | Arm64 | Wasm | S390x | LoongArch64 | Armv6 | Ppc64le | RiscV64

  function PlatformName(p: PlatformFamily): string {
    match p
    case Unknown => "Unknown"
    case Windows => "Windows"
    case Linux => "Linux"
    case OSX => "OSX"
  }

  function ArchitectureName(a: Architecture): string {
    match a
    case X86 => "X86"
    case X64 => "X64"
    case Arm => "Arm"
    case Arm64 => "Arm64"
    case Wasm => "Wasm"
    case S390x => "S390x"
    case LoongArch64 => "LoongArch64"
    case Armv6 => "Armv6"
    case Ppc64le => "Ppc64le"
    case RiscV64 => "RiscV64"
  }

  /** The exception an installer throws for a platform it has no download for. */
  function Unsupported(tool: string, plat: PlatformFamily, arch: Architecture): Exception {
    Exception("Exception", "Trying to use " + tool + " on an unsupported platform: " + PlatformName(plat) + " " + ArchitectureName(arch))
  }

  /** A release version as the tools publish them: digits and dots, such as "4.1.2". */
  predicate IsVersionText(v: string) {
    forall i :: 0 <= i < |v| ==> ('0' <= v[i] <= '9' || v[i] == '.')
  }

  /** The link to the asset `asset` of the release tagged `v{tag}`, under a repository's
      `.../releases/download/` address. */
  function ReleaseAssetUrl(downloads: string, tag: string, asset: string): (url: string)
    ensures StartsWith(url, downloads)
    ensures EndsWith(url, asset)
  {
    var url := downloads + "v" + tag + "/" + asset;
    assert url[..|downloads|] == downloads;
    assert url[|url| - |asset|..] == asset;
    url
  }

  /** The text of `s` before its first `c`, or all of it. */
  function Before(s: string, c: char): (r: string)
    ensures c !in r
    ensures |r| <= |s| && r == s[..|r|]
  {
    if |s| == 0 || s[0] == c then "" else [s[0]] + Before(s[1..], c)
  }

  /** The release a download link points at: the tag between `downloads + "v"` and the next
      `/`, if the link is under `downloads` at all. */
  function ReleaseTagOf(downloads: string, url: string): (r: Option<string>)
    ensures r.Some? <==> StartsWith(url, downloads + "v")
  {
    if StartsWith(url, downloads + "v") then Some(Before(url[|downloads| + 1..], '/')) else None
  }

  lemma {:induction false} BeforeFirst(a: string, c: char, b: string)
    requires c !in a
    ensures Before(a + [c] + b, c) == a
    decreases |a|
  {
    if |a| == 0 {
      assert (a + [c] + b)[0] == c;
    } else {
      assert (a + [c] + b)[1..] == a[1..] + [c] + b;
      BeforeFirst(a[1..], c, b);
      assert [a[0]] + a[1..] == a;
    }
  }

  /** A release link names the release it was built from, whenever the tag has no `/`. */
  lemma ReleaseTagOfAssetUrl(downloads: string, tag: string, asset: string)
    requires '/' !in tag
    ensures ReleaseTagOf(downloads, ReleaseAssetUrl(downloads, tag, asset)) == Some(tag)
  {
    var url := ReleaseAssetUrl(downloads, tag, asset);
    assert url[..|downloads| + 1] == downloads + "v";
    assert url[|downloads| + 1..] == tag + ['/'] + asset;
    BeforeFirst(tag, '/', asset);
  }
}
