# md.Nuke.Cola in Dafny

This project models the deterministic core of md.Nuke.Cola, a set of extensions to the Nuke
build system. That core is the string, path and record logic that Cola's plugin engine, folder
composition and tool helpers are built on:

- turning globs into capturing regular expressions, plus the small text helpers;
- computing where a file goes when a folder is composed, including renaming by suffix;
- importing folders over a file system, with the manifest choice, the symlink fallback and
  copies before links;
- plugin identity, de-duplication and the intermediate build script the plugin engine writes;
- the compiled-artifact cache of scripts and projects, with its order-independent XOR hash;
- the value-or-errors combinators of `ErrorHandling`;
- the merge algebra of tool arguments;
- log-level classification, environment-variable building, ANSI stripping and standard-input piping;
- unescaping of command-line arguments and extraction of argument blocks;
- the parser of indented `xrepo` output;
- the license-header comment transforms;
- the round-robin pairing of NuGet sources with API keys;
- which CMake and XMake downloads exist for each platform, and where they land.

Each part is one module. `Wrappers`, `Strings`, `Paths`, `Platforms` and `Collections` model
the .NET and Nuke primitives the core relies on:

- `Option` and `Result`;
- `string.Replace`, which scans left to right and replaces non-overlapping matches;
- Nuke's `AbsolutePath` operators `/`, `Parent` and `GetRelativePathTo`;
- `PlatformFamily` and `Architecture`;
- LINQ `DistinctBy` and `Union`, which keep first occurrences.

Pure C# code is written as functions and lemmas. Code that changes state step by step is
written as methods with loops:

- the `FileSystem` class of the folder import;
- the compile cache's `OutputRoot` class;
- the `LicenseRegion` builder;
- the standard-input writer of `ToolCola.Pipe`;
- the `xrepo` parser over its shared line index;
- `NugetSource.CombineFrom`.

Whatever the code reaches outside itself is a parameter of the model: the regular-expression
engine, hash functions, YAML, the clock, the file system's answers, and process and download
side effects. Where the code departs from what its own names, comments and README describe, the
model follows the code; "## Left out" lists those places.

## Model

| member | source | states |
|---|---|---|
| ArgumentEscapes.TrimMatchingDoubleQuotes | md.Nuke.Cola/Arguments.cs:23 | one pair of enclosing double quotes is removed, nothing else; a text without `"` is returned unchanged |
| ArgumentEscapes.ProcessText | md.Nuke.Cola/Arguments.cs:23-28 | after unescaping, an empty text fails (the `arg[0]` index throws); otherwise only a leading `~` becomes `-` and the rest is the unescaped text |
| ArgumentEscapes.ProcessArgument | md.Nuke.Cola/Arguments.cs:19-29 | a null or blank argument comes back unchanged; any other argument is processed as text |
| ArgumentEscapes.AsArguments | md.Nuke.Cola/Arguments.cs:34-35 | a null list gives no arguments; otherwise each argument is processed in order, and the whole fails exactly when one argument fails |
| ArgumentEscapes.ProcessAll | md.Nuke.Cola/Arguments.cs:35 | the result has one processed argument per input, in order, and fails exactly when one of them fails |
| ArgumentEscapes.Texts | md.Nuke.Cola/Arguments.cs:43 | a null text joins as the empty text; order and length are kept |
| ArgumentEscapes.AppendAsArguments | md.Nuke.Cola/Arguments.cs:40-43 | a null or empty input gives ""; otherwise the processed arguments joined by spaces, with a leading space when asked, failing when processing fails |
| ArgumentEscapes.SkipUntilMarker | md.Nuke.Cola/Arguments.cs:68 | the result is a suffix of the input that starts at the first marker; no element before it is the marker |
| ArgumentEscapes.TakeUntilBlock | md.Nuke.Cola/Arguments.cs:70 | the result is a prefix of the input |
| ArgumentEscapes.TakeUntilBlockStops | md.Nuke.Cola/Arguments.cs:70 | no taken element starts with `-->`, and the element after the taken prefix does |
| ArgumentEscapes.GetBlock | md.Nuke.Cola/Arguments.cs:64-71 | without the block's marker the block is empty; the caller passes the block name (`""` for the default marker `-->` alone) and the argument list (where the source's null `from` falls back to the command-line arguments) |
| ArgumentEscapes.GetBlockAfterMarker | md.Nuke.Cola/Arguments.cs:64-71 | the block is the run of elements after the first marker, up to the next element that starts with `-->` |
| ArgumentEscapes.ProcessArgumentUndoesEscape | md.Nuke.Cola/Arguments.cs:23-27 | round trip: a non-blank argument without `'` or `~`, written with `~-` for `-` and `''` for `"`, comes back as itself |
| ArgumentEscapes.ReplaceCharUndone | md.Nuke.Cola/Arguments.cs:24-25 | replacing a character by a two-character sequence is undone by the reverse replacement when the sequence's first character is absent |
| ArgumentEscapes.ProcessTextLeavesNoQuotePair | md.Nuke.Cola/Arguments.cs:23-27 | no `''` survives unescaping |
| PublishNugets.KeyFor | md.Nuke.Cola/IPublishNugets.cs:21 | the key chosen for a source is one of the keys |
| PublishNugets.Combined | md.Nuke.Cola/IPublishNugets.cs:17-23 | one pair per source, in order, each pairing the source with one of the keys |
| PublishNugets.CombineFrom | md.Nuke.Cola/IPublishNugets.cs:17-23 | the loop yields exactly `Combined`; with sources but no keys the first `%` throws `DivideByZeroException` |
| PublishNugets.EveryKeyUsed | md.Nuke.Cola/IPublishNugets.cs:19-22 | with at least as many sources as keys, source `k` gets key `k` for every key index, so every key is used |
| PublishNugets.KeysRepeat | md.Nuke.Cola/IPublishNugets.cs:21 | the keys repeat round-robin: sources `apiKeys.Length` apart share a key |
| ToolArgs.JoinArguments | md.Nuke.Cola/Tooling/ToolArguments.cs:52-55 | the non-blank arguments of both sides, joined by one space; "" when both are blank |
| ToolArgs.MaxTimeout | md.Nuke.Cola/Tooling/ToolArguments.cs:50-63 | the greater of the non-negative timeouts; null when neither side has one |
| ToolArgs.OrFlags | md.Nuke.Cola/Tooling/ToolArguments.cs:65-71 | null only when both sides are null; true exactly when one side is true |
| ToolArgs.Merge | md.Nuke.Cola/Tooling/ToolArguments.cs:48-77 | the field-by-field merge: the right working directory unless blank, environment variables merged only when the left exists, loggers and exit handlers concatenated left then right |
| ToolArgs.MergeAssociative | md.Nuke.Cola/Tooling/ToolArguments.cs:48-77 | merging is associative in every field but the environment variables |
| ToolArgs.JoinArgumentsAssociative | md.Nuke.Cola/Tooling/ToolArguments.cs:52-55 | joining arguments is associative |
| ToolArgs.MergeEmptyRight | md.Nuke.Cola/Tooling/ToolArguments.cs:48-77 | merging with an empty record on the right keeps the left's fields |
| ToolExs.MergeEx | md.Nuke.Cola/Tooling/ToolEx.cs:55-56 | the tool arguments are merged; the inputs of both sides run in order |
| ToolExs.MergeExTool | md.Nuke.Cola/Tooling/ToolEx.cs:73-74 | only the left side's input survives; the working directory follows the tool-argument merge |
| ToolExs.MergeToolEx | md.Nuke.Cola/Tooling/ToolEx.cs:91-92 | only the right side's input survives; the working directory follows the tool-argument merge |
| ToolExs.OperatorsAgree | md.Nuke.Cola/Tooling/ToolEx.cs:55-92 | the three operators agree on the tool arguments and differ only in the inputs they keep |
| ToolExs.CallSiteOverrides | md.Nuke.Cola/Tooling/ToolEx.cs:115-129 | `Propagated`: in `PropagateToolExExecution.Execute`, the call site's working directory wins over the propagated one, and the propagated arguments come first |
| ToolExs.GetToolPathOverride | md.Nuke.Cola/Tooling/ToolEx.cs:218-232 | a `.dll` (any case) runs under `DOTNET_EXE` or `dotnet`; a `.exe` runs under `mono` on Unix outside WSL; any other path runs as itself |
| ToolExs.DllIsNotExe | md.Nuke.Cola/Tooling/ToolEx.cs:220-228 | no path takes both branches of `GetToolPathOverride` |
| Platforms.ReleaseAssetUrl | md.Nuke.Cola/Tooling/CMakeTasks.cs:65 | a release download link starts with the repository's download root and ends with the asset name |
| Platforms.ReleaseTagOfAssetUrl | md.Nuke.Cola/Tooling/CMakeTasks.cs:65 | the release a link names can be read back from it |
| CMakeTasks.ArchiveName | md.Nuke.Cola/Tooling/CMakeTasks.cs:24-34 | an archive exists exactly for OSX, Windows x64, x86 or Arm64, and Linux x64 or Arm64; any other platform throws the "unsupported platform" exception; the name starts `cmake-{version}-`, is `.zip` on Windows and `.tar.gz` elsewhere |
| CMakeTasks.OsxIsUniversal | md.Nuke.Cola/Tooling/CMakeTasks.cs:32 | OSX has one archive for every architecture |
| CMakeTasks.LocalPath | md.Nuke.Cola/Tooling/CMakeTasks.cs:43 | archives are kept in `cmake` directly under the temporary directory |
| CMakeTasks.Unpacked | md.Nuke.Cola/Tooling/CMakeTasks.cs:55-60 | the unpacked folder lies on the temporary directory's root and is normalised |
| CMakeTasks.SubfolderDropsExtension | md.Nuke.Cola/Tooling/CMakeTasks.cs:39-41 | stripping `.zip` and `.tar.gz` from an archive name leaves exactly the name without its extension, a single path segment |
| CMakeTasks.LocalCMakeBin | md.Nuke.Cola/Tooling/CMakeTasks.cs:36-47 | defined exactly when an archive exists, failing with its exception otherwise |
| CMakeTasks.LocalBinLayout | md.Nuke.Cola/Tooling/CMakeTasks.cs:43-46 | the path is `cmake/<unpacked folder>` on OSX and `cmake/<unpacked folder>/bin` elsewhere |
| CMakeTasks.UnpackedLayout | md.Nuke.Cola/Tooling/CMakeTasks.cs:59-60 | the unpacked folder is `cmake/<archive without extension>` under the temporary directory |
| CMakeTasks.ProgramPath | md.Nuke.Cola/Tooling/CMakeTasks.cs:77-83 | the program is defined exactly when an archive exists |
| CMakeTasks.ProgramInBin | md.Nuke.Cola/Tooling/CMakeTasks.cs:77-83 | the program is `cmake.exe`, `cmake` or `CMake.app` inside the folder `GetLocalCMakeBin` names |
| CMakeTasks.ProgramInLocalBin | md.Nuke.Cola/Tooling/CMakeTasks.cs:36-83 | the program's parent folder is `GetLocalCMakeBin`'s folder |
| CMakeTasks.ExtractionByPlatform | md.Nuke.Cola/Tooling/CMakeTasks.cs:68-75 | Windows archives are unzipped and the others untarred; the extension test always picks one |
| CMakeTasks.SetupFrom | md.Nuke.Cola/Tooling/CMakeTasks.cs:52-85 | succeeds exactly when an archive exists; downloads only when the unpacked folder is missing, to `cmake/<archive>`, unpacking into `cmake`; returns the program path |
| CMakeTasks.TryGetCMakeAsWritten | md.Nuke.Cola/Tooling/CMakeTasks.cs:52-85 | as written (see Findings): succeeds exactly when an archive exists, and any download link names the `LatestVersion` release |
| CMakeTasks.TryGetCMake | md.Nuke.Cola/Tooling/CMakeTasks.cs:52-85 | corrected (see Findings): succeeds exactly when an archive exists, and any download link names the release of the version asked for |
| CMakeTasks.AsWrittenFetchesLatestRelease | md.Nuke.Cola/Tooling/CMakeTasks.cs:65 | as written, the link names release `v4.1.2` whatever version was asked for |
| CMakeTasks.FetchesRequestedRelease | md.Nuke.Cola/Tooling/CMakeTasks.cs:65 | corrected, the link names the release of the version asked for and ends with that version's archive |
| XMakeTasks.BundleAppName | md.Nuke.Cola/Tooling/XMakeTasks.cs:24-34 | a bundle exists exactly for Windows x64, x86 or Arm64, Linux x64, and OSX x64 or Arm64; any other platform throws; the name starts `xmake-bundle-v{version}` and ends `.exe` exactly on Windows |
| XMakeTasks.SetupFrom | md.Nuke.Cola/Tooling/XMakeTasks.cs:39-52 | succeeds exactly when a bundle exists; the program is the bundle in the temporary directory, downloaded only when that file is missing |
| XMakeTasks.TryGetXMakeAsWritten | md.Nuke.Cola/Tooling/XMakeTasks.cs:39-52 | as written (see Findings): succeeds exactly when a bundle exists, and any download link names the `LatestVersion` release |
| XMakeTasks.TryGetXMake | md.Nuke.Cola/Tooling/XMakeTasks.cs:39-52 | corrected (see Findings): succeeds exactly when a bundle exists, and any download link names the release of the version asked for |
| XMakeTasks.BundleInTemporaryDirectory | md.Nuke.Cola/Tooling/XMakeTasks.cs:41-42 | the bundle lies directly in the temporary directory, under its own name |
| XMakeTasks.AsWrittenFetchesLatestRelease | md.Nuke.Cola/Tooling/XMakeTasks.cs:47 | as written, the link names release `v3.0.4` whatever version was asked for |
| XMakeTasks.FetchesRequestedRelease | md.Nuke.Cola/Tooling/XMakeTasks.cs:47 | corrected, the link names the release of the version asked for |
| TextExtensions.GlobToRegexEscapesSlashes | md.Nuke.Cola/TextExtensions.cs:64-74 | every '/' of the regex `GlobToRegex` builds is immediately preceded by a backslash, whatever the glob |
| TextExtensions.GlobToRegexLoneStar | md.Nuke.Cola/TextExtensions.cs:64-74 | `GlobToRegex("*")` is `*`: the single-star rewrite needs a character after the star, so a lone star stays a bare quantifier |
| TextExtensions.GlobToRegexDoubledStar | md.Nuke.Cola/TextExtensions.cs:64-74 | `GlobToRegex("a**")` is `a**`: neither `**` rewrite applies after a plain character |
| TextExtensions.EscapeSlashesEscapes | md.Nuke.Cola/TextExtensions.cs:66 | escaping the slashes leaves every '/' preceded by a backslash |
| TextExtensions.UnescapeStarsKeeps | md.Nuke.Cola/TextExtensions.cs:68 | turning escaped stars back into stars keeps every '/' escaped |
| TextExtensions.SingleStarsKeeps | md.Nuke.Cola/TextExtensions.cs:70 | the single-star rewrite keeps every '/' escaped |
| TextExtensions.LeadingDoubleStarKeeps | md.Nuke.Cola/TextExtensions.cs:72 | the leading-`**` rewrite keeps every '/' escaped |
| TextExtensions.SeparatorDoubleStarsKeeps | md.Nuke.Cola/TextExtensions.cs:74 | the rewrite of `**` after a separator keeps every '/' escaped |
| TextExtensions.RegexEscapeConcat | md.Nuke.Cola/TextExtensions.cs:64 | `Regex.Escape` works character by character |
| TextExtensions.SingleStarsPairedStars | md.Nuke.Cola/TextExtensions.cs:70 | stars that come in runs of two or more are left alone by the single-star rewrite |
| TextExtensions.DoubleStarFree | md.Nuke.Cola/TextExtensions.cs:72-74 | without a `**`, neither double-star rewrite changes anything |
| TextExtensions.GlobToRegexWithoutWildcards | md.Nuke.Cola/TextExtensions.cs:64-74 | a glob without stars becomes its `Regex.Escape` text with every '/' escaped |
| TextExtensions.GlobToRegexLeadingStar | md.Nuke.Cola/TextExtensions.cs:64-70 | a leading single star becomes the capture `([^\/]*)` in front of the translation of the rest |
| TextExtensions.GlobToRegexLeadingRecursive | md.Nuke.Cola/TextExtensions.cs:64-72 | a leading `**/` becomes `^(.*)` and an escaped slash in front of the translation of the rest |
| TextExtensions.GlobToRegexInnerRecursive | md.Nuke.Cola/TextExtensions.cs:64-74 | a `/**/` between star-free parts becomes `[\\\/]?(.*)` and an escaped slash |
| TextExtensions.WordTextTranslation | md.Nuke.Cola/TextExtensions.cs:64-74 | text of letters, digits and underscores translates to itself |
| TextExtensions.FileNameTranslation | md.Nuke.Cola/TextExtensions.cs:64-74 | a file name translates with only its dot escaped |
| TextExtensions.GlobToRegexAnyWithExtension | md.Nuke.Cola/TextExtensions.cs:64-74 | `*.ext` becomes `([^\/]*)\.ext` |
| TextExtensions.GlobToRegexAnyBelow | md.Nuke.Cola/TextExtensions.cs:64-74 | `**/name.ext` becomes `^(.*)\/name\.ext` |
| TextExtensions.GlobToRegexAnyInside | md.Nuke.Cola/TextExtensions.cs:64-74 | `dir/**/name.ext` becomes `dir[\\\/]?(.*)\/name\.ext` |
| TextExtensions.GlobToRegexFileExtension | md.Nuke.Cola/TextExtensions.cs:64-74 | `*.txt` becomes `([^\/]*)\.txt` |
| TextExtensions.GlobToRegexLeadingRecursiveExample | md.Nuke.Cola/TextExtensions.cs:64-74 | `**/foo.txt` becomes `^(.*)\/foo\.txt` |
| TextExtensions.AsSingleLine | md.Nuke.Cola/TextExtensions.cs:56-57 | no '\n' is left when the replacement has none |
| TextExtensions.AppendNonEmpty | md.Nuke.Cola/TextExtensions.cs:79-80 | "" for a null or blank input, otherwise the input followed by the other text |
| TextExtensions.PrependNonEmpty | md.Nuke.Cola/TextExtensions.cs:85-86 | "" for a null or blank input, otherwise the other text followed by the input |
| TextExtensions.Else | md.Nuke.Cola/TextExtensions.cs:99-101 | the default exactly for a null or empty input, or a blank one when whitespace is ignored; otherwise the input itself, non-empty (and non-blank when whitespace is ignored) |
| TextExtensions.ElseIdempotent | md.Nuke.Cola/TextExtensions.cs:99-101 | falling back twice to the same default is falling back once |
| ExportManifests.DefaultItem | md.Nuke.Cola/FolderComposition/ExportManifest.cs:31-59 | a fresh entry has no file, directory or `As`, an empty `Not` list and no content processing |
| ExportManifests.DefaultManifest | md.Nuke.Cola/FolderComposition/ExportManifest.cs:114-139 | a fresh manifest has empty Link, Copy, Use and Not lists |
| ExportManifests.Destination | md.Nuke.Cola/FolderComposition/ExportManifest.cs:69-102 | a computed destination lies on the destination root's drive; a failure is either the null dereference of a missing glob or the `ArgumentException` of a pattern the regex parser rejects |
| ExportManifests.DestinationExcluded | md.Nuke.Cola/FolderComposition/ExportManifest.cs:71-88 | the item is dropped exactly when the exclusion scan stops at a matching glob, and a throw of the scan is the outcome; past the scan it fails exactly for an `As` template with neither File nor Directory (the null glob), or with a starred glob whose regex does not parse when the capture step runs; no other exception occurs |
| ExportManifests.GetDestination | md.Nuke.Cola/FolderComposition/ExportManifest.cs:69-102 | the place an item lands is decided by its path relative to the source root and lies on the destination root's drive; the only exceptions are the null dereference of a missing glob and the `ArgumentException` of a rejected pattern |
| ExportManifests.Exclusion | md.Nuke.Cola/FolderComposition/ExportManifest.cs:74-81 | `exclude.Any(Ignore)` tries the exclusion globs in order; when it throws, it throws the `ArgumentException` of one of their regexes |
| ExportManifests.ExclusionAgrees | md.Nuke.Cola/FolderComposition/ExportManifest.cs:74-81 | when every exclusion regex parses, the scan answers exactly whether some exclusion glob matches the relative path ignoring case (`Excluded`) |
| ExportManifests.ExclusionThrows | md.Nuke.Cola/FolderComposition/ExportManifest.cs:74-81 | the scan throws exactly when it reaches a glob whose regex does not parse, every glob before it parsing and not matching |
| ExportManifests.DestinationWhenPatternsParse | md.Nuke.Cola/FolderComposition/ExportManifest.cs:69-102 | when every regex involved parses, the item is dropped exactly when an exclusion glob matches, and otherwise fails exactly for an `As` template with neither File nor Directory |
| ExportManifests.LoneStarExclusionThrows | md.Nuke.Cola/FolderComposition/ExportManifest.cs:74-81 | an exclusion glob `*` at the head of the list becomes the bare quantifier `*`, which .NET's regex parser rejects, so every destination throws `ArgumentException` |
| ExportManifests.DoubledStarCaptureThrows | md.Nuke.Cola/FolderComposition/ExportManifest.cs:88-93 | a glob `a**` with the `As` template `$1` becomes the pattern `a**`, a quantifier after a quantifier, which .NET's regex parser rejects, so the capture step throws `ArgumentException` |
| ExportManifests.FileWinsOverDirectory | md.Nuke.Cola/FolderComposition/ExportManifest.cs:71 | when File is set, Directory plays no part |
| ExportManifests.GetDestinationMirrors | md.Nuke.Cola/FolderComposition/ExportManifest.cs:69-84 | without `As`, `GetDestination` puts an item below the source root at the same relative place below the destination root |
| ExportManifests.DestinationWithoutAs | md.Nuke.Cola/FolderComposition/ExportManifest.cs:83-84 | without `As`, a kept item lands at `dstRoot / relativePath` |
| ExportManifests.DestinationLiteralAs | md.Nuke.Cola/FolderComposition/ExportManifest.cs:86-101 | a template without `$` is taken literally, whatever the glob |
| ExportManifests.ItemIdSubstitutedFirst | md.Nuke.Cola/FolderComposition/ExportManifest.cs:86 | after the `$#` step no `$#` is left for the capture step |
| ExportManifests.DestinationItemId | md.Nuke.Cola/FolderComposition/ExportManifest.cs:86-101 | a template naming `$#` yields the item's number in its place |
| ExportManifests.PlaceholderKept | md.Nuke.Cola/FolderComposition/ExportManifest.cs:86 | the `$#` step keeps every `$N` placeholder |
| ExportManifests.SubstituteCapturesLiteral | md.Nuke.Cola/FolderComposition/ExportManifest.cs:94-97 | capture substitution leaves a template without `$` unchanged |
| ExportManifests.DestinationStarFreeKeepsPlaceholder | md.Nuke.Cola/FolderComposition/ExportManifest.cs:86-101 | over a glob without a star no capture is substituted: a `$N` placeholder of the template stays in the destination literally |
| ExportManifests.DestinationCapture | md.Nuke.Cola/FolderComposition/ExportManifest.cs:88-99 | a template `before$1after` over a starred glob whose regex parses takes the first captured group in place of `$1` |
| ExportManifests.CaptureCollapseRedundant | md.Nuke.Cola/FolderComposition/ExportManifest.cs:99 | collapsing `//` into `/` never changes the destination, since appending a path drops empty segments anyway |
| SuffixRenaming.SuffixesFrom | md.Nuke.Cola/FolderComposition/FolderComposition.cs:15-18 | a bare string sets `To`; `From` defaults to "Origin" |
| SuffixRenaming.ProcessSuffix | md.Nuke.Cola/FolderComposition/FolderComposition.cs:38-49 | the loop computes `ProcessSuffixWith`: the loop replaces, for each lead in order, every `lead + From` by `lead + To`, ignoring case |
| SuffixRenaming.ProcessSuffixUnchanged | md.Nuke.Cola/FolderComposition/FolderComposition.cs:40-48 | `ProcessSuffixWith`: where no lead is followed by `From`, the target comes back unchanged |
| FolderCompositions.ProcessSuffixPath | md.Nuke.Cola/FolderComposition/FolderComposition.cs:51-52 | the renamed path stays on the same root and is normalised |
| FolderCompositions.ProcessSuffixPathKeepsParent | md.Nuke.Cola/FolderComposition/FolderComposition.cs:51-52 | only the last segment is renamed; the parent is kept |
| FolderCompositions.ManifestPath | md.Nuke.Cola/FolderComposition/FolderComposition.cs:69-74 | a manifest found is an existing file |
| FolderCompositions.ManifestPreference | md.Nuke.Cola/FolderComposition/FolderComposition.cs:69-70 | export.yml is preferred over export.yaml, and no manifest is found when neither exists |
| FolderCompositions.FindManifest | md.Nuke.Cola/FolderComposition/FolderComposition.cs:69-70 | the manifest looked up is `ManifestPath` |
| FolderCompositions.LinkFallback | md.Nuke.Cola/FolderComposition/FolderComposition.cs:74-78 | without a manifest, a directory link to the source is attempted only when the target is missing; it throws when a file stands there |
| FolderCompositions.HandleItem | md.Nuke.Cola/FolderComposition/FolderComposition.cs:113-125 | one matched item, handed the folder the code passes: a recursive copy, a file copy followed by the suffix renaming of its text, or a link; it stops at the first operation that throws and reports it |
| FolderCompositions.HandleMatches | md.Nuke.Cola/FolderComposition/FolderComposition.cs:95-107 | every match of an entry is handled in order until one throws; the state and journal are those of the completed operations |
| FolderCompositions.HandleEntry | md.Nuke.Cola/FolderComposition/FolderComposition.cs:89-107 | a blank entry is skipped; otherwise directories are searched when File is blank, files otherwise, and the matches handled until one throws |
| FolderCompositions.FileSystemTask | md.Nuke.Cola/FolderComposition/FolderComposition.cs:84-109 | every entry in order, each searched in the state the earlier entries left; an exception ends the task, and nothing after it happens |
| FolderCompositions.ImportManifest | md.Nuke.Cola/FolderComposition/FolderComposition.cs:111-126 | the Copy list runs, then the Link list, and the Link list only when no copy threw |
| FolderCompositions.ImportInto | md.Nuke.Cola/FolderComposition/FolderComposition.cs:82-126 | the target is created when missing (throwing when a file stands there), then the manifest's lists run |
| FolderCompositions.ImportFolder | md.Nuke.Cola/FolderComposition/FolderComposition.cs:67-127 | the file-system state and journal are exactly those of the completed prefix of the import plan, and `ok` says whether the whole plan completed |
| FolderCompositions.ImportFolders | md.Nuke.Cola/FolderComposition/FolderComposition.cs:64-65 | the imports run one after another in the given order, each seeing the state the earlier ones left; an exception in one ends them all |
| FolderCompositions.MatchOpsPhase | md.Nuke.Cola/FolderComposition/FolderComposition.cs:95-107 | every operation for a list of matches belongs to its phase and targets the folder handed to the handlers |
| FolderCompositions.EntriesOpsPhase | md.Nuke.Cola/FolderComposition/FolderComposition.cs:84-109 | a Copy list only copies and a Link list only links |
| FolderCompositions.BlankEntriesSkipped | md.Nuke.Cola/FolderComposition/FolderComposition.cs:91-92 | entries whose File and Directory are both blank do nothing |
| FolderCompositions.EntrySettingsIgnored | md.Nuke.Cola/FolderComposition/FolderComposition.cs:89-108 | as written, an entry's Not, As and ProcessContent settings change nothing |
| FolderCompositions.ManifestUseAndNotIgnored | md.Nuke.Cola/FolderComposition/FolderComposition.cs:111-126 | as written, a manifest's Use and Not lists change nothing |
| FolderCompositions.CopiedFileRenamed | md.Nuke.Cola/FolderComposition/FolderComposition.cs:116-119 | a file copy and its renaming complete exactly when the source is a file and the destination is no directory; then the destination holds the source's text with the suffixes renamed |
| FolderCompositions.ManifestCopiesBeforeLinks | md.Nuke.Cola/FolderComposition/FolderComposition.cs:111-126 | every copy comes before every link |
| FolderCompositions.ManifestOpsAt | md.Nuke.Cola/FolderComposition/FolderComposition.cs:99-106 | as written, every operation of a manifest copies or links at the one folder handed to the handlers |
| FolderCompositions.TargetCopiesBeforeLinks | md.Nuke.Cola/FolderComposition/FolderComposition.cs:82-126 | with a manifest, a missing target is created first, then every copy comes before every link |
| FolderCompositions.ImportOpsFirst | md.Nuke.Cola/FolderComposition/FolderComposition.cs:72-82 | unless the target exists, an import begins by linking it (no manifest) or creating it (a manifest) |
| FolderCompositions.ImportTargetExists | md.Nuke.Cola/FolderComposition/FolderComposition.cs:67-127 | after an import the target directory exists exactly when no file stood in its place; nothing that existed is gone, and files and directories stay apart |
| FolderCompositions.OpsOntoDirectoryAbort | md.Nuke.Cola/FolderComposition/FolderComposition.cs:117-125 | once a path is a directory, the first file copy or link made at that path throws, and nothing from it on is carried out |
| FolderCompositions.TargetOpsAbort | md.Nuke.Cola/FolderComposition/FolderComposition.cs:82-126 | with a manifest, when the folder handed to the handlers is the target itself, the first file copy or link throws |
| FolderCompositions.AsWrittenImportAborts | md.Nuke.Cola/FolderComposition/FolderComposition.cs:98-106 | as written (see Findings), when renaming the target again leaves it unchanged, an import with a manifest throws at its first matched file of the Copy list or first match of the Link list |
| FolderCompositions.MirroredDestinationBelow | md.Nuke.Cola/FolderComposition/FolderComposition.cs:98-106 | `MirroredDestination`, corrected reading (see Findings): an item handed its mirrored place lands strictly below the target, under the same relative folders, with its name renamed |
| FolderCompositions.MirroredCopyRenames | md.Nuke.Cola/FolderComposition/FolderComposition.cs:98-118 | corrected reading (see Findings): into a target with no sub-directories yet, the copy of a matched file handed its mirrored place completes, and the new file holds the source's text renamed |
| FileSystems.CopyTree | md.Nuke.Cola/FolderComposition/FolderComposition.cs:113-115 | a recursive copy keeps every file that was there and adds exactly the rebased files from below the source |
| FileSystems.CopyDirs | md.Nuke.Cola/FolderComposition/FolderComposition.cs:113-115 | a recursive copy keeps every directory and creates the destination |
| FileSystems.CopyFileContent | md.Nuke.Cola/FolderComposition/FolderComposition.cs:117 | a file copy throws exactly when the source is no file or the destination is a directory; otherwise the destination holds the source's text and no other file or directory changes |
| FileSystems.CopyDirectoryContent | md.Nuke.Cola/FolderComposition/FolderComposition.cs:113-115 | a recursive copy that does not throw brings every file below the source to its place below the destination, with its text |
| FileSystems.Done | md.Nuke.Cola/FolderComposition/FolderComposition.cs:111-126 | no more operations complete than there are |
| FileSystems.ApplyAllConcat | md.Nuke.Cola/FolderComposition/FolderComposition.cs:111-126 | `ApplyAll`: running two operation lists one after the other is running their concatenation, and the second list runs only when the first completed |
| FileSystems.ApplyAllSingle | md.Nuke.Cola/FolderComposition/FolderComposition.cs:111-126 | `Apply` under `Fails`: a single operation completes exactly when it does not throw |
| FileSystems.ApplyGrows | md.Nuke.Cola/FolderComposition/FolderComposition.cs:111-126 | no operation removes a file or a directory |
| FileSystems.ApplyAllGrows | md.Nuke.Cola/FolderComposition/FolderComposition.cs:111-126 | no operation of an import removes a file or a directory |
| FileSystems.RebaseInjective | md.Nuke.Cola/FolderComposition/FolderComposition.cs:113-115 | a recursive copy sends different paths below the source to different places |
| FileSystems.ApplyKeepsValid | md.Nuke.Cola/FolderComposition/FolderComposition.cs:111-126 | an operation that does not throw keeps files and directories apart |
| FileSystems.ApplyAllKeepsValid | md.Nuke.Cola/FolderComposition/FolderComposition.cs:111-126 | whatever part of a list of operations completes keeps files and directories apart |
| FileSystems.RanThen | md.Nuke.Cola/FolderComposition/FolderComposition.cs:111-126 | `Ran`: a completed run of one list followed by a run of the next is a run of both |
| FileSystems.RanStopped | md.Nuke.Cola/FolderComposition/FolderComposition.cs:111-126 | after an exception nothing more happens: a run of a list that threw is a run of any longer list it begins |
| FileSystems.RanPrefixStopped | md.Nuke.Cola/FolderComposition/FolderComposition.cs:111-126 | a run that threw partway is a run of any list that begins with what it ran |
| FileSystems.FileSystem.Perform | md.Nuke.Cola/FolderComposition/FolderComposition.cs:76-125 | one operation is carried out on the state and recorded in the journal, or, when it throws, reported and nothing changes; files and directories stay apart |
| Importables.ImportableOf | md.Nuke.Cola/BuildPlugins/Importable.cs:18 | `Source` defaults to null and `ImportViaSource` to false |
| Importables.ImportableTextCases | md.Nuke.Cola/BuildPlugins/Importable.cs:20-24 | `ImportableText` (`ToString`): "" without a source; the source path when imported via source; the interface's assembly location otherwise |
| Importables.SameKey | md.Nuke.Cola/BuildPlugins/Importable.cs:20-24 | interfaces imported from the same source share one key, whatever the interface, and so do interfaces from the same assembly |
| Paths.Combine | md.Nuke.Cola/FolderComposition/ExportManifest.cs:84 | `path / text` stays normalised on the same root |
| Paths.Parent | md.Nuke.Cola/FolderComposition/FolderComposition.cs:52 | the parent and the name put back together give the path |
| Paths.GetRelativePathTo | md.Nuke.Cola/FolderComposition/ExportManifest.cs:72 | a path relative to itself is "." |
| Paths.RelativePathToDescendant | md.Nuke.Cola/FolderComposition/ExportManifest.cs:72 | the relative path from a directory to a descendant is the descendant's remaining segments joined by the separator |
| Paths.CombineJoined | md.Nuke.Cola/FolderComposition/ExportManifest.cs:84 | appending segments joined by a separator appends exactly those segments |
| Paths.CombineCollapse | md.Nuke.Cola/FolderComposition/ExportManifest.cs:99 | collapsing `//` to `/` never changes the path a text denotes |
| DotnetCommons.OutputRoot.constructor | md.Nuke.Cola/BuildPlugins/DotnetCommon.cs:36 | the output root starts with the given directories |
| DotnetCommons.Cleaned | md.Nuke.Cola/BuildPlugins/DotnetCommon.cs:61-65 | the cleanup only deletes directories; every survivor keeps its files |
| DotnetCommons.RemoveStale | md.Nuke.Cola/BuildPlugins/DotnetCommon.cs:62-65 | `Stale` names the residue: the loop deletes exactly the directories `{prefix}_*` whose name does not contain the hash |
| DotnetCommons.CompileScript | md.Nuke.Cola/BuildPlugins/DotnetCommon.cs:36-68 | the dll is `{pathHash}_{hash}/{hash}.dll`; the compiler runs exactly when that file is missing; a cache hit changes nothing; otherwise the directory holds only the compiler's output and stale siblings are deleted |
| DotnetCommons.CompileProject | md.Nuke.Cola/BuildPlugins/DotnetCommon.cs:70-105 | the dll is `{name}_{hash}/{name}.dll`, with the project file's hash xor-ed with every source's hash; the compiler runs exactly when the directory or the file is missing; a cache hit changes nothing |
| DotnetCommons.AfterCompileClean | md.Nuke.Cola/BuildPlugins/DotnetCommon.cs:49-65 | `AfterCompile`: after a compile the new directory holds exactly what the compiler produced, and no stale sibling is left |
| DotnetCommons.ScriptDirSurvives | md.Nuke.Cola/BuildPlugins/DotnetCommon.cs:41-65 | the cleanup never deletes the current script's directory |
| DotnetCommons.ProjectDirSurvives | md.Nuke.Cola/BuildPlugins/DotnetCommon.cs:79-102 | the cleanup never deletes the current project's directory |
| DotnetCommons.XorStep | md.Nuke.Cola/BuildPlugins/DotnetCommon.cs:74-76 | xor-ing two hashes into the accumulator in either order gives the same value |
| DotnetCommons.XorFoldRemove | md.Nuke.Cola/BuildPlugins/DotnetCommon.cs:73-76 | the fold equals the fold without one element, xor-ed with that element's hash |
| DotnetCommons.XorFoldOrderIndependent | md.Nuke.Cola/BuildPlugins/DotnetCommon.cs:73-76 | `XorFold`: the project hash does not depend on the order in which the source files are listed |
| DotnetCommons.Log | md.Nuke.Cola/BuildPlugins/DotnetCommon.cs:116-122 | the text is printed exactly when the command line does not contain " :complete" |
| Plugins.GetCSharpName | md.Nuke.Cola/BuildPlugins/Plugins.cs:31-32 | the simple name for a type without a namespace, else the full name |
| Plugins.AttemptReuseCompiledPlugins | md.Nuke.Cola/BuildPlugins/Plugins.cs:34-36 | reuse is attempted exactly when the `ReuseCompiled` argument is present or `REUSE_COMPILED` is 1 |
| Plugins.BuildInterfaces | md.Nuke.Cola/BuildPlugins/Plugins.cs:112 | the interfaces of one source are its own |
| Plugins.RefLines | md.Nuke.Cola/BuildPlugins/Plugins.cs:118-123 | at most one reference line per interface |
| Plugins.RefLineCases | md.Nuke.Cola/BuildPlugins/Plugins.cs:119-123 | an interface without a source emits no line; one imported via source emits a dll comment and `#load` of its source; any other emits `#r` of its assembly |
| Plugins.RefLinesConcat | md.Nuke.Cola/BuildPlugins/Plugins.cs:118-123 | the reference lines of a list are those of its parts, in order |
| Plugins.Names | md.Nuke.Cola/BuildPlugins/Plugins.cs:125 | one C# name per interface, in order |
| Plugins.InterfaceListConcat | md.Nuke.Cola/BuildPlugins/Plugins.cs:125 | the interface list is neither deduplicated nor reordered |
| Plugins.ScriptNamesEveryInterface | md.Nuke.Cola/BuildPlugins/Plugins.cs:115-141 | the intermediate script (`ScriptText`) references the entry assembly with `#r`, and the class it declares names every gathered build interface |
| Plugins.InitEvents | md.Nuke.Cola/BuildPlugins/Plugins.cs:94-97 | one initialisation per provider, in order |
| Plugins.GatherEvents | md.Nuke.Cola/BuildPlugins/Plugins.cs:99-102 | one gathering per provider, in order |
| Plugins.CompileEvents | md.Nuke.Cola/BuildPlugins/Plugins.cs:110 | one compile per gathered plugin |
| Plugins.InitializeEngines | md.Nuke.Cola/BuildPlugins/Plugins.cs:94-97 | every provider is initialised, in order |
| Plugins.GatherPlugins | md.Nuke.Cola/BuildPlugins/Plugins.cs:99-102 | every provider gathers, in order, and the sources are theirs concatenated |
| Plugins.CompilePlugins | md.Nuke.Cola/BuildPlugins/Plugins.cs:110 | every gathered plugin is compiled |
| Plugins.PreludeOrder | md.Nuke.Cola/BuildPlugins/Plugins.cs:87-102 | the providers are initialised in the order Implicit, Script, Project, all before the first gathering |
| Plugins.TryReuse | md.Nuke.Cola/BuildPlugins/Plugins.cs:65-85 | under reuse, a `NoPlugins.txt` marker ends the run with the default delegate; otherwise an intermediate script whose dll exists ends it with that dll |
| Plugins.CompileIntermediate | md.Nuke.Cola/BuildPlugins/Plugins.cs:147-149 | the intermediate script is compiled through the compile cache and its dll executed |
| Plugins.BuildFromSources | md.Nuke.Cola/BuildPlugins/Plugins.cs:110-149 | the plugins are compiled; without an entry assembly the assertion fails; otherwise the script for the gathered plugins is written, compiled and executed |
| Plugins.BuildIntermediate | md.Nuke.Cola/BuildPlugins/Plugins.cs:87-149 | with no plugin found, the default delegate runs and nothing is compiled; otherwise `BuildFromSources` |
| Plugins.Execute | md.Nuke.Cola/BuildPlugins/Plugins.cs:59-150 | the five ways a run ends (marker, reused dll, no plugins, no entry assembly, compiled script), each with the events and output-root state it leaves |
| ErrorHandlings.FromValue | md.Nuke.Cola/ErrorHandling.cs:25 | a value converts to a success holding it |
| ErrorHandlings.FromErrors | md.Nuke.Cola/ErrorHandling.cs:26 | an error array converts to a result without a value that succeeds exactly when the array is null |
| ErrorHandlings.FromException | md.Nuke.Cola/ErrorHandling.cs:27 | one exception converts to a failure with exactly that error |
| ErrorHandlings.FirstError | md.Nuke.Cola/ErrorHandling.cs:16-29 | null on success, the first error otherwise; indexing an empty error array throws |
| ErrorHandlings.TryGetOutcome | md.Nuke.Cola/ErrorHandling.cs:43-52 | `TryGet`: a returning getter yields its value; a throwing one yields its exception in front of the earlier errors, handed to `onFailure` when there is one |
| ErrorHandlings.TransformOutcome | md.Nuke.Cola/ErrorHandling.cs:63-67 | `Transform`: an error passes through unchanged without calling the transform; a value is transformed, and a throwing transform starts a fresh error list |
| ErrorHandlings.ElseOutcome | md.Nuke.Cola/ErrorHandling.cs:81-85 | `Else`: a value is returned unchanged without calling the getter; on an error the getter runs, and a failing getter adds exactly one error, newest first |
| ErrorHandlings.ElseIfOutcome | md.Nuke.Cola/ErrorHandling.cs:100-104 | `ElseIf`: with the condition false the conditional `Else` is the identity; with it true it is `Else` |
| ErrorHandlings.GetOutcome | md.Nuke.Cola/ErrorHandling.cs:114-121 | `Get` returns the value exactly on success; a single error is thrown itself; any other count is thrown as an aggregate |
| ErrorHandlings.AssumeAgreesWithGet | md.Nuke.Cola/ErrorHandling.cs:184-191 | `Assume` returns exactly when `Get` would, and otherwise throws the same exception |
| ErrorHandlings.AttemptElseOutcome | md.Nuke.Cola/ErrorHandling.cs:131-158 | `Try` and `AttemptElse`: on an attempt, a failing action adds exactly one error, newest first; a succeeded attempt is returned as is |
| ErrorHandlings.AttemptElseIfOutcome | md.Nuke.Cola/ErrorHandling.cs:172-176 | `AttemptElseIf`: with the condition false the conditional `Else` of an attempt is the identity; with it true it is `Else` |
| ErrorHandlings.ElseChainAllFail | md.Nuke.Cola/ErrorHandling.cs:81-85 | when every fallback throws, the chain holds every exception, the last first, in front of the errors it started with |
| ErrorHandlings.ElseChainFirstSuccess | md.Nuke.Cola/ErrorHandling.cs:81-85 | a chain of fallbacks settles on the first one that returns |
| ErrorHandlings.ElseChainKeepsValue | md.Nuke.Cola/ErrorHandling.cs:83 | once there is a value, the rest of the chain leaves it alone |
| ToolColas.SemanticLog | md.Nuke.Cola/Tooling/ToolCola.cs:219-245 | a line the filter rejects is skipped; a line with a level word is logged at that level; any other is forwarded to the normal-output logger when there is one, else logged at debug level |
| ToolColas.LevelPrecedence | md.Nuke.Cola/Tooling/ToolCola.cs:224-235 | `Level`: an information word outranks "warning", which outranks "error" and "fail" |
| ToolColas.LevelIgnoresCase | md.Nuke.Cola/Tooling/ToolCola.cs:224-235 | the classification ignores the case of the line |
| ToolColas.ContainsIgnoreCaseLower | md.Nuke.Cola/Tooling/ToolCola.cs:228 | a case-insensitive search gives the same answer on the lower-cased line |
| ToolColas.EnvVar | md.Nuke.Cola/Tooling/ToolCola.cs:275-283 | the key maps to the value; every other key comes from the parent environment, all of which is kept when included; nothing but the environment is set |
| ToolColas.ToDictionary | md.Nuke.Cola/Tooling/ToolCola.cs:293 | building the dictionary succeeds exactly when no key repeats (a duplicate throws), and its keys are the items' keys |
| ToolColas.ToDictionaryValues | md.Nuke.Cola/Tooling/ToolCola.cs:293 | every item's key maps to that item's value |
| ToolColas.EnvVars | md.Nuke.Cola/Tooling/ToolCola.cs:288-295 | fails exactly on a repeated key; otherwise the items' dictionary merged into the parent environment, or into nothing |
| ToolColas.PathVarAddsOnlyAbsent | md.Nuke.Cola/Tooling/ToolCola.cs:323-327 | `PathVar` (`WithPathVar`): PATH is the process paths without duplicates, with the new path at the end exactly when it was absent |
| Collections.DistinctByKeepsFirst | md.Nuke.Cola/BuildPlugins/Plugins.cs:113-114 | `DistinctBy` keeps exactly one element per key, the first |
| Collections.UnionOne | md.Nuke.Cola/Tooling/ToolCola.cs:326 | `Union` with one string appends it exactly when it is absent, after the distinct strings of the list |
| ToolColas.ParameterRun | md.Nuke.Cola/Tooling/ToolCola.cs:363 | the longest leading run of digits and semicolons |
| ToolColas.EscapeLength | md.Nuke.Cola/Tooling/ToolCola.cs:363 | a match starts with ESC `[` and ends with `m` or `K` |
| ToolColas.StripAnsi | md.Nuke.Cola/Tooling/ToolCola.cs:363 | removing escape sequences never lengthens a line |
| ToolColas.StripAnsiPlain | md.Nuke.Cola/Tooling/ToolCola.cs:363 | text without the escape character passes through unchanged |
| ToolColas.StripAnsiSequence | md.Nuke.Cola/Tooling/ToolCola.cs:363 | a colour or erase sequence is removed whole |
| ToolColas.RemoveAnsiEscape | md.Nuke.Cola/Tooling/ToolCola.cs:359-364 | every line keeps its type and position; only its text is cleaned |
| ToolColas.InputStream.WriteLine | md.Nuke.Cola/Tooling/ToolCola.cs:387 | `WriteLine`: an open stream gets the line appended; a closed one throws ObjectDisposedException (`ok` false) and keeps its lines |
| ToolColas.InputStream.Close | md.Nuke.Cola/Tooling/ToolCola.cs:389 | the stream is closed and keeps what was written |
| ToolColas.PipedLines | md.Nuke.Cola/Tooling/ToolCola.cs:384-388 | at most one line per output line |
| ToolColas.PipedLinesSelect | md.Nuke.Cola/Tooling/ToolCola.cs:386 | with `pipeError` every line is forwarded in order; without it, standard-error lines are not |
| ToolColas.PipedLinesEmpty | md.Nuke.Cola/Tooling/ToolCola.cs:384-388 | nothing is forwarded exactly when the output has no standard-output line, or is empty when `pipeError` is set |
| ToolColas.Pipe | md.Nuke.Cola/Tooling/ToolCola.cs:381-390 | on an open stream the forwarded lines are written in order, then it is closed exactly when asked; on a stream an earlier action closed, it throws iff some line is forwarded, and writes nothing |
| ToolColas.WithInput | md.Nuke.Cola/Tooling/ToolCola.cs:398-403 | on an open stream every line is written in order; on a closed one it throws iff there is a line, and writes nothing; the stream's state is unchanged |
| ToolColas.PipeThenWithInput | md.Nuke.Cola/Tooling/ToolCola.cs:381-403 | `output.Pipe(tool).WithInput(lines)`: the default close of `Pipe` makes the composed input throw exactly when there are lines to add; the piped lines are written either way |
| XRepoItems.GetIndent | md.Nuke.Cola/Tooling/XRepoItem.cs:56 | the count is the length of the run of leading spaces: every character before it is a space and the one at it is not |
| XRepoItems.TrimStart | md.Nuke.Cola/Tooling/XRepoItem.cs:51 | the result is a suffix of the line that does not start with white space |
| XRepoItems.Capture | md.Nuke.Cola/TextExtensions.cs:39-51 | null exactly when the pattern does not match; a group that took no part in the match reads as the empty text, a participating one as its text |
| XRepoItems.HeaderOf | md.Nuke.Cola/Tooling/XRepoItem.cs:68-84 | the kind is package, key, property, value or invalid exactly under the source's precedence; the key and the value are taken from the capture the kind names and are null otherwise |
| XRepoItems.AddChild | md.Nuke.Cola/Tooling/XRepoItem.cs:98-101 | a keyless child is appended to the unnamed list; a new key is appended to the named list; a key already present throws the duplicate-key exception |
| XRepoItems.Parse | md.Nuke.Cola/Tooling/XRepoItem.cs:58-105 | the corrected reading of the first two Findings rows, not the code as written: the loop, with the child test on the line about to be read and value-only lines classified as values, computes the recursive reading of an item and its block, with its error cases (the code as written is `ParseAsWritten`) |
| XRepoItems.ParseSpecSpan | md.Nuke.Cola/Tooling/XRepoItem.cs:88-102 | an item consumes exactly its block: every line up to where it stops lies within it, and it stops at the end or at an item line no deeper than it |
| XRepoItems.LoopSpecSpan | md.Nuke.Cola/Tooling/XRepoItem.cs:89-102 | the child loop consumes only lines within the item and stops at the end or at a line that opens an item no deeper than it |
| XRepoItems.LoopSpecKeeps | md.Nuke.Cola/Tooling/XRepoItem.cs:98-101 | the child loop never drops a child already gathered: its result extends the children it started with |
| XRepoItems.NextDeeperLineIsChild | md.Nuke.Cola/Tooling/XRepoItem.cs:89-102 | an item line followed by a deeper item line gets at least one child |
| XRepoItems.ParseAsWritten | md.Nuke.Cola/Tooling/XRepoItem.cs:58-105 | as written, an item line yields its own header with no children and parsing resumes at the very next line |
| XRepoItems.ParseAsWrittenDropsChildren | md.Nuke.Cola/Tooling/XRepoItem.cs:89 | on the same lines, the parse as written has no children and stops after one line while the corrected parse has a child |
| XRepoItems.ParseRoot | md.Nuke.Cola/Tooling/XRepoItem.cs:107-132 | the root loop as written, over the corrected `Parse` of the first two Findings rows: the root item has the root kind, no key and no value; it fails exactly when its loop over the standard-output lines fails and otherwise holds that loop's children |
| XRepoItems.RootTakesFirstItem | md.Nuke.Cola/Tooling/XRepoItem.cs:115-130 | when the first item line is indented by exactly the minimum, the root holds that one item with its block and reads no further |
| XRepoItems.ClassifyAsWrittenNeverValue | md.Nuke.Cola/Tooling/XRepoItem.cs:66-72 | `ClassifyAsWritten`: as written the value kind never occurs: a value-only line is a property with the empty key |
| XRepoItems.ClassifyValueLines | md.Nuke.Cola/Tooling/XRepoItem.cs:68-72 | `Classify`: with absent groups read as null, a value-only line is a value without a key, and every other line is classified as before |
| XRepoItems.TwoValueChildren | md.Nuke.Cola/Tooling/XRepoItem.cs:98-101 | as written two value-only children under one item make the second addition throw; corrected, both land in the unnamed list in order |
| XRepoItems.Enumerate | md.Nuke.Cola/Tooling/XRepoItem.cs:31-35 | the unnamed children in order, then the named children in the order they were added |
| XRepoItems.ChildAt | md.Nuke.Cola/Tooling/XRepoItem.cs:43 | the unnamed child at the index, and null exactly when the index is out of range |
| XRepoItems.ChildNamedFinds | md.Nuke.Cola/Tooling/XRepoItem.cs:44 | the lookup by key succeeds exactly for the keys that were added and returns the child added under that key |
| LicenseRegions.SplitLines | md.Nuke.Cola/LicenseRegion.cs:42 | at least one line, none of which holds a line break |
| LicenseRegions.JoinSplit | md.Nuke.Cola/LicenseRegion.cs:42-48 | joining the split lines of a text gives the text back |
| LicenseRegions.SplitJoin | md.Nuke.Cola/LicenseRegion.cs:53-58 | splitting joined lines that hold no line break gives the lines back |
| LicenseRegions.JoinConcat | md.Nuke.Cola/LicenseRegion.cs:58 | joining two non-empty line lists is joining each, with a line break between |
| LicenseRegions.SplitConcat | md.Nuke.Cola/LicenseRegion.cs:114 | the lines of two texts joined by a line break are the lines of the first, then those of the second |
| LicenseRegions.SkipCommentLines | md.Nuke.Cola/LicenseRegion.cs:43-47 | the result is a suffix of the lines; every skipped line starts with a comment prefix, ignoring case, and the first kept line does not |
| LicenseRegions.TransformLine | md.Nuke.Cola/LicenseRegion.cs:54-56 | every transformed line starts with the comment line prefix |
| LicenseRegions.TransformLines | md.Nuke.Cola/LicenseRegion.cs:53-58 | one comment line per license line, in order |
| LicenseRegions.TransformKeepsLineCount | md.Nuke.Cola/LicenseRegion.cs:51-59 | `TransformLicenseText`: the transformed license has as many lines as the license |
| LicenseRegions.CommentTextLines | md.Nuke.Cola/LicenseRegion.cs:28-38 | the rendered comment is the header, the transformed license and the author and date footer, joined by line breaks |
| LicenseRegions.PrefixIsCommentLine | md.Nuke.Cola/LicenseRegion.cs:43-47 | any text that starts with one of the comment prefixes is skipped as a comment line |
| LicenseRegions.HeaderIsComment | md.Nuke.Cola/LicenseRegion.cs:30-32 | the template's opening lines are comment lines without line breaks |
| LicenseRegions.FooterIsComment | md.Nuke.Cola/LicenseRegion.cs:34-37 | the author, date and closing lines are comment lines when the author holds no line break |
| LicenseRegions.TransformedIsComment | md.Nuke.Cola/LicenseRegion.cs:53-58 | the transformed license lines are comment lines |
| LicenseRegions.CommentLinesAreComment | md.Nuke.Cola/LicenseRegion.cs:28-59 | the whole rendered comment consists of comment lines when the author holds no line break |
| LicenseRegions.SkipPastComment | md.Nuke.Cola/LicenseRegion.cs:43-47 | skipping passes over any leading block of comment lines |
| LicenseRegions.RemoveExistingCommentIdempotent | md.Nuke.Cola/LicenseRegion.cs:40-49 | `RemoveExistingComment`: removing the existing comment twice removes nothing more |
| LicenseRegions.LicensedTextReplacesComment | md.Nuke.Cola/LicenseRegion.cs:107-114 | `LicensedText`: licensing a licensed file again gives what licensing the original content once with the new data gives: the old comment is replaced, not stacked |
| LicenseRegions.LicenseRegion.constructor | md.Nuke.Cola/LicenseRegion.cs:74-93 | the C++ and C# templates registered in that order, no filters set, the region file pattern `*LicenseRegion*`, dot files and dot directories refused |
| LicenseRegions.LicenseRegion.WithCommentTemplate | md.Nuke.Cola/LicenseRegion.cs:80-84 | the template is stored under its type, a new type added last and a known one kept in its place, nothing else changes, and the same region is returned |
| LicenseRegions.LicenseRegion.Templates | md.Nuke.Cola/LicenseRegion.cs:86 | the stored templates in the order of their keys |
| LicenseRegions.AllFileFilters | md.Nuke.Cola/LicenseRegion.cs:101 | exactly the filters of the templates |
| LicenseRegions.SelectTemplate | md.Nuke.Cola/LicenseRegion.cs:109 | the first template one of whose filters matches the file, and a failure exactly when none does |
| LicenseRegions.ReplacedTemplateKeepsPlace | md.Nuke.Cola/LicenseRegion.cs:80-86 | replacing the C++ template keeps it first among the templates |

## Left out

- File-system I/O, process execution, downloads, archive extraction and logging are not performed. The model computes what would be read, written, run or fetched (a journal of operations, a plan, a list of events) and takes the answers of the outside world as parameters.
- The regular-expression engine is a parameter: its parser (`parses`, whether .NET accepts a pattern; a rejected one makes `Regex` throw `ArgumentException`), `GetDestination`'s glob match and captures, and the three `xrepo` line patterns. Only the glob-to-regex text translation itself is computed, so which translated globs .NET rejects (such as `*` and `a**`, which translate to themselves) is an assumption of the lemmas that name them, not a result of the model.
- ToolArgs.MergeAssociative: `IReadOnlyDictionary.Merge`, which merges the environment variables of two tool-argument records (md.Nuke.Cola/Tooling/ToolArguments.cs:61), is a parameter (`ToolArgs.EnvMerge`), so associativity is stated for every field but the environment variables.
- xxHash32 and xxHash64 are parameters; only the XOR fold over the per-file hashes is modelled.
- YAML deserialisation of manifests, Scriban rendering (modelled as direct substitution of license, author and year into the fixed template) and Nuke's globbing (`GlobFiles`, `SearchFiles`) are outside the model.
- `ProcessLicenseRegion` (md.Nuke.Cola/LicenseRegion.cs:98-122): the recursive directory walk and the file filters by delegate, dot name and region-file glob are not modelled. What it writes to each file is modelled (`LicensedText`), and so are the template choice and the comment transforms.
- `UpdatePathEnvVar` (md.Nuke.Cola/Tooling/ToolCola.cs:423-432), `Use` and `ElseTrySetup` (ToolCola.cs:438 on) change the process environment and run setup actions; they are not modelled. The `PATH` value `WithPathVar` hands to a tool (ToolCola.cs:323-327) is modelled (`ToolColas.PathVarAddsOnlyAbsent`).
- Line breaks: `SplitLineBreaks` and `JoinNewLine` are modelled with `\n` only. Carriage returns and the platform's `Environment.NewLine` are not distinguished.
- Case-insensitive comparisons (`StartsWithAnyOrdinalIgnoreCase`, `ContainsAnyOrdinalIgnoreCase`, the `IgnoreCase` regex option) fold ASCII letters only.
- Dictionaries are sequences in insertion order, which is the enumeration order .NET gives when nothing is removed; hash-table ordering after removals is not modelled.
- `XRepoItem` objects are values: the model keeps their contents and order but not object identity.
- The `TryGet` exception wrappers of `ErrorHandling` are modelled as `Result` values: an exception is a value carried to the caller, not a transfer of control.
- `Plugins.Execute` compiles plugin sources one after another; the source compiles them in parallel (md.Nuke.Cola/BuildPlugins/Plugins.cs:110). Only the order of the results is kept, and the model does not capture interleaving.
- md.Nuke.Cola/BuildPlugins/Plugins.cs:75 calls `DotnetCommon.GetDllLocationOfScript`, which md.Nuke.Cola/BuildPlugins/DotnetCommon.cs does not declare. `DotnetCommons.ScriptDll` stands in for it with the path computation `CompileScript` uses.
- The tool-argument record: md.Nuke.Cola/Tooling/ToolCola.cs:184-211 builds `ToolExArguments` with four arguments (the input and two encodings), while md.Nuke.Cola/Tooling/ToolEx.cs:35-38 declares only the tool arguments and the input. The model follows ToolEx.cs; output encodings are not modelled.
- FolderCompositions.ImportFolder: an exception in a file-system operation ends the import and every later import, as in the code. The model reports it as `ok == false`, with the state and journal of the operations completed before it. It does not model the exception's type, or a half-done recursive copy. It requires a target that is not a file-system root (`TargetDefined`), because `ProcessSuffixPath` (FolderComposition.cs:51-52) dereferences the root's null `Parent` there; that NullReferenceException is not modelled.
- FileSystems.Apply: a file link holds a copy of its target's text, taken when the link is made. A directory link counts as an empty directory. Later writes through a link, and the files seen through a directory link, are not tracked; a link to a missing target adds no file.
- FileSystems.Fails: the failures modelled are those caused by the paths themselves: a file copied onto a directory or from a missing file, a link where something exists, a directory where a file is, and a recursive copy from a missing folder or one that would put a file on a directory. Permissions, missing parent folders of a link, and the argument assertions inside Nuke's own copy helpers are not modelled.
- FolderCompositions.MirroredDestination: the corrected destination of the third "## Findings" row is proved for one item (`MirroredDestinationBelow`, `MirroredCopyRenames`). The import plan and its methods keep the code as written, so every item is handed the same folder.
- Paths.Combine: Nuke's `/` asserts that the right operand is not rooted, and that `..` never climbs above the root. The model appends a rooted operand like a relative one (`Combine(p, "/x") == Combine(p, "x")`), and it stops `..` at the root instead of throwing. The callers pass fixed names, a relative path from `GetRelativePathTo`, or an `As` template (md.Nuke.Cola/FolderComposition/ExportManifest.cs:84-101). Only a rooted `As` template, or one that climbs above the root, reaches the difference.
- ArgumentEscapes.AsArguments and PublishNugets.CombineFrom: the C# methods are lazy iterators (md.Nuke.Cola/Arguments.cs:34-35, md.Nuke.Cola/IPublishNugets.cs:17-23), so an element that throws does so only when the sequence is enumerated that far. The model evaluates the whole sequence at once and reports the failure as the result.
- Where the code departs from what its names and comments describe, the model follows the code:
  - `ImportFolder` (md.Nuke.Cola/FolderComposition/FolderComposition.cs:98,105) computes a destination `dst` and never uses it; every handler gets the target folder renamed once more. That `dst` is also computed in the reverse direction (`p.GetRelativePathTo(import.From)` climbs from the item to the source folder). The corrected reading in "## Findings" uses `import.From.GetRelativePathTo(p)`.
  - Nothing writes the `NoPlugins.txt` marker. `Plugins.Execute` only reads it (Plugins.cs:67), and finding no plugins does not write it.
  - `GlobToRegex` converts a single `*` only when a character follows it (TextExtensions.cs:70). A trailing `*`, as in `*_Origin.*`, stays a regex quantifier and captures nothing, so such a glob has one capture fewer than the number of its stars. A lone `*` stays the bare quantifier `*`, which .NET's regex parser rejects, so an exclusion glob `*` makes `GetDestination` throw (`ExportManifests.LoneStarExclusionThrows`).

## Findings

| source | as written | input that shows it | evidently intended | confidence | as-written member | corrected member |
|---|---|---|---|---|---|---|
| md.Nuke.Cola/Tooling/XRepoItem.cs:89 | the child loop tests `line`, which still holds the item's own line, whose indent equals `indent`; the loop never runs, so no item gets children | an item line indented 4 followed by a line indented 8 that starts with `->` | the loop tests the line it is about to read, so deeper item lines become children | not executed | XRepoItems.ParseAsWrittenDropsChildren | XRepoItems.NextDeeperLineIsChild |
| md.Nuke.Cola/Tooling/XRepoItem.cs:66-71 | `propWithValue("KEY")` reads an optional group that took no part in the match as `""`, never null, so a value-only line becomes a `Property` with the empty key | two output lines `        -> a b` and `        -> c d` (indent 8) before any item line of indent 4: the root reads both as properties with the key `""` and the second `Add` throws | a value-only line is a `Value` without a key, stored among the unnamed children | not executed | XRepoItems.ClassifyAsWrittenNeverValue | XRepoItems.ClassifyValueLines |
| md.Nuke.Cola/FolderComposition/FolderComposition.cs:98-106 | every handler is given `to.ProcessSuffixPath(suffixes)`, which is the existing target folder whenever renaming it again changes nothing. `File.Copy` onto that folder and `CreateSymbolicLink` at it throw, so the import stops at its first matched file or link | a manifest `copy: - file: a.txt` in a source folder holding `a.txt`, with suffixes that leave the target's name unchanged: the target is created, then copying `a.txt` onto it throws | each item goes to its own relative place below the target, renamed (`to / import.From.GetRelativePathTo(p)`, then `ProcessSuffixPath`) | not executed | FolderCompositions.AsWrittenImportAborts | FolderCompositions.MirroredCopyRenames |
| md.Nuke.Cola/Tooling/CMakeTasks.cs:65 | the download URL names the release `LatestVersion` whatever version was asked for | version `3.31.0` on Linux x64 with nothing installed: the archive of 3.31.0 is fetched from the release of `LatestVersion` | the asset is fetched from the release of the requested version | not executed | CMakeTasks.AsWrittenFetchesLatestRelease | CMakeTasks.FetchesRequestedRelease |
| md.Nuke.Cola/Tooling/XMakeTasks.cs:47 | the download URL names the release `LatestVersion` whatever version was asked for | a version other than `LatestVersion` on Windows x64 with nothing installed | the bundle is fetched from the release of the requested version | not executed | XMakeTasks.AsWrittenFetchesLatestRelease | XMakeTasks.FetchesRequestedRelease |
