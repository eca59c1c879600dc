/** Folder composition: importing a folder into another one, as its export manifest says, with
    the suffix renaming of names and contents (`FolderComposition.cs`).

    As written, `ImportFolder` reads only the Copy and Link lists of the manifest, hands every
    matched item the same destination (the import target renamed once more) and applies the
    suffix renaming to the content of every copied file. The glob searches and the YAML reader
    are parameters. */
module FolderCompositions {
  import opened Wrappers
  import opened Strings
  import opened Paths
  import opened ExportManifests
  import opened FileSystems
  import opened SuffixRenaming

  /** `ImportFolderItem(From, ToParent)` */
  datatype ImportFolderItem = ImportFolderItem(from: AbsolutePath, toParent: AbsolutePath)

  /** `ProcessSuffixPath`: the parent joined with the renamed name. Below the root only, as
      the root has no parent. */
  function ProcessSuffixPath(target: AbsolutePath, suffixes: Suffixes): (r: AbsolutePath)
    requires Normalised(target) && |target.segments| > 0
    ensures Normalised(r) && r.root == target.root
  {
    Combine(Parent(target), ProcessSuffixWith(Name(target), suffixes, DefaultLeads))
  }

  /** The renaming touches the last segment only; the parent stays. */
  lemma ProcessSuffixPathKeepsParent(target: AbsolutePath, suffixes: Suffixes)
    requires Normalised(target) && |target.segments| > 0
    requires IsNormalSegment(ProcessSuffixWith(Name(target), suffixes, DefaultLeads))
    ensures var r := ProcessSuffixPath(target, suffixes);
      |r.segments| == |target.segments| && Parent(r) == Parent(target)
      && Name(r) == ProcessSuffixWith(Name(target), suffixes, DefaultLeads)
  {
    CombineSegment(Parent(target), ProcessSuffixWith(Name(target), suffixes, DefaultLeads));
  }

  // ---- ImportFolder ----------------------------------------------------------------------

  /** The glob searches of Nuke (`SearchFiles`, `SearchDirectories`), run below a root. */
  type Search = (FsState, AbsolutePath, string) -> seq<AbsolutePath>

  /** `dir / name` for a single normal name. */
  function ChildPath(dir: AbsolutePath, name: string): (r: AbsolutePath)
    requires Normalised(dir) && IsNormalSegment(name)
    ensures r == AbsolutePath(dir.root, dir.segments + [name]) && Normalised(r)
  {
    CombineSegment(dir, name);
    Combine(dir, name)
  }

  lemma ManifestNames()
    ensures IsNormalSegment("export.yml") && IsNormalSegment("export.yaml")
  {
  }

  /** The manifest: export.yml if it exists, else export.yaml, if that exists. */
  function ManifestPath(s: FsState, from: AbsolutePath): (r: Option<AbsolutePath>)
    requires Normalised(from)
    ensures r.Some? ==> r.value in s.files
  {
    ManifestNames();
    var yml := ChildPath(from, "export.yml");
    var yaml := ChildPath(from, "export.yaml");
    var manifest := if yml in s.files then yml else yaml;
    if manifest in s.files then Some(manifest) else None
  }

  lemma {:induction false} ManifestPreference(s: FsState, from: AbsolutePath)
    requires Normalised(from)
    ensures var yml := AbsolutePath(from.root, from.segments + ["export.yml"]);
      var yaml := AbsolutePath(from.root, from.segments + ["export.yaml"]);
      ManifestPath(s, from) == (if yml in s.files then Some(yml) else if yaml in s.files then Some(yaml) else None)
  {
  }

  /** Both File and Directory are null or white space: the entry is skipped. */
  predicate Blank(e: FileOrDirectory) {
    IsNullOrWhiteSpace(e.directory) && IsNullOrWhiteSpace(e.file)
  }

  /** The operations for one matched item `p`, handed the destination `dst`. A copied file
      then has its content renamed. */
  function ItemOps(copy: bool, directories: bool, p: AbsolutePath, dst: AbsolutePath, suffixes: Suffixes): seq<FsOp> {
    if copy && directories then [CopyDirectory(p, dst)]
    else if copy then [CopyFile(p, dst), ProcessSuffixContent(dst, suffixes)]
    else if directories then [CreateDirectoryLink(dst, p)]
    else [CreateFileLink(dst, p)]
  }

  /** The operations for the matches `ps[j..]`, in order. */
  function MatchOps(ps: seq<AbsolutePath>, j: nat, copy: bool, directories: bool, dst: AbsolutePath, suffixes: Suffixes): seq<FsOp>
    decreases |ps| - j
  {
    if j >= |ps| then []
    else ItemOps(copy, directories, ps[j], dst, suffixes) + MatchOps(ps, j + 1, copy, directories, dst, suffixes)
  }

  /** What the search of one entry finds: directories when File is blank, files otherwise. */
  function Matches(s: FsState, e: FileOrDirectory, from: AbsolutePath, searchFiles: Search, searchDirectories: Search): seq<AbsolutePath>
    requires !Blank(e)
  {
    if IsNullOrWhiteSpace(e.file) then searchDirectories(s, from, e.directory.value)
    else searchFiles(s, from, e.file.value)
  }

  function EntryOps(s: FsState, e: FileOrDirectory, copy: bool, from: AbsolutePath, dst: AbsolutePath, suffixes: Suffixes,
                    searchFiles: Search, searchDirectories: Search): seq<FsOp>
  {
    if Blank(e) then []
    else MatchOps(Matches(s, e, from, searchFiles, searchDirectories), 0, copy, IsNullOrWhiteSpace(e.file), dst, suffixes)
  }

  /** `FileSystemTask`'s plan: the entries in order, each searched in the state the earlier
      ones left. */
  function EntriesOps(s: FsState, entries: seq<FileOrDirectory>, copy: bool, from: AbsolutePath, dst: AbsolutePath,
                      suffixes: Suffixes, searchFiles: Search, searchDirectories: Search): seq<FsOp>
    decreases |entries|
  {
    if |entries| == 0 then []
    else
      var first := EntryOps(s, entries[0], copy, from, dst, suffixes, searchFiles, searchDirectories);
      first + EntriesOps(ApplyAll(s, first), entries[1..], copy, from, dst, suffixes, searchFiles, searchDirectories)
  }

  /** The import target and the destination every item is handed are defined: neither is a
      file-system root (whose parent is null). */
  predicate TargetDefined(item: ImportFolderItem, suffixes: Suffixes) {
    Normalised(item.toParent) && |item.toParent.segments| > 0
    && |ProcessSuffixPath(item.toParent, suffixes).segments| > 0
  }

  /** The operations of the Copy list, then of the Link list, once the target exists. */
  function ManifestOps(s: FsState, m: ExportManifest, from: AbsolutePath, to: AbsolutePath, suffixes: Suffixes,
                       searchFiles: Search, searchDirectories: Search): seq<FsOp>
    requires Normalised(to) && |to.segments| > 0
  {
    var dst := ProcessSuffixPath(to, suffixes);
    var copyOps := EntriesOps(s, m.copy, true, from, dst, suffixes, searchFiles, searchDirectories);
    copyOps + EntriesOps(ApplyAll(s, copyOps), m.link, false, from, dst, suffixes, searchFiles, searchDirectories)
  }

  /** Without a manifest: a directory link to the source folder unless the target exists. */
  function FallbackOps(s: FsState, from: AbsolutePath, to: AbsolutePath): seq<FsOp> {
    if to in s.dirs then [] else [CreateDirectoryLink(to, from)]
  }

  /** With a manifest: the target is created when missing, then the manifest's lists run. */
  function TargetOps(s: FsState, m: ExportManifest, from: AbsolutePath, to: AbsolutePath, suffixes: Suffixes,
                     searchFiles: Search, searchDirectories: Search): seq<FsOp>
    requires Normalised(to) && |to.segments| > 0
  {
    var create := if to in s.dirs then [] else [CreateDirectory(to)];
    create + ManifestOps(ApplyAll(s, create), m, from, to, suffixes, searchFiles, searchDirectories)
  }

  /** Everything `ImportFolder` does, in order. */
  function ImportOps(s: FsState, suffixes: Suffixes, item: ImportFolderItem, readYaml: string -> ExportManifest,
                     searchFiles: Search, searchDirectories: Search): seq<FsOp>
    requires Normalised(item.from) && TargetDefined(item, suffixes)
  {
    var to := ProcessSuffixPath(item.toParent, suffixes);
    match ManifestPath(s, item.from)
    case None => FallbackOps(s, item.from, to)
    case Some(manifest) => TargetOps(s, readYaml(s.files[manifest]), item.from, to, suffixes, searchFiles, searchDirectories)
  }

  /** One matched item; `ok` is false when an operation threw. */
  method HandleItem(fs: FileSystem, copy: bool, directories: bool, p: AbsolutePath, dst: AbsolutePath, suffixes: Suffixes)
    returns (ok: bool)
    modifies fs
    ensures Ran(old(fs.state), old(fs.journal), ItemOps(copy, directories, p, dst, suffixes), fs.state, fs.journal, ok)
  {
    if copy && directories {
      ok := fs.Perform(CopyDirectory(p, dst));
    } else if copy {
      ghost var s1, j1 := fs.state, fs.journal;
      ok := fs.Perform(CopyFile(p, dst));
      if ok {
        ghost var s2, j2 := fs.state, fs.journal;
        ok := fs.Perform(ProcessSuffixContent(dst, suffixes));
        RanThen(s1, j1, [CopyFile(p, dst)], s2, j2, [ProcessSuffixContent(dst, suffixes)], fs.state, fs.journal, ok);
      } else {
        RanStopped(s1, j1, [CopyFile(p, dst)], fs.state, fs.journal, [ProcessSuffixContent(dst, suffixes)]);
      }
      assert [CopyFile(p, dst)] + [ProcessSuffixContent(dst, suffixes)] == ItemOps(copy, directories, p, dst, suffixes);
    } else if directories {
      ok := fs.Perform(CreateDirectoryLink(dst, p));
    } else {
      ok := fs.Perform(CreateFileLink(dst, p));
    }
  }

  /** The matches of one entry, in order, until one throws. */
  method HandleMatches(fs: FileSystem, ps: seq<AbsolutePath>, copy: bool, directories: bool, dst: AbsolutePath, suffixes: Suffixes)
    returns (ok: bool)
    modifies fs
    ensures Ran(old(fs.state), old(fs.journal), MatchOps(ps, 0, copy, directories, dst, suffixes), fs.state, fs.journal, ok)
  {
    ghost var s0, j0 := fs.state, fs.journal;
    ghost var done: seq<FsOp> := [];
    RanNothing(s0, j0);
    ok := true;
    for j := 0 to |ps|
      invariant Ran(s0, j0, done, fs.state, fs.journal, true)
      invariant done + MatchOps(ps, j, copy, directories, dst, suffixes) == MatchOps(ps, 0, copy, directories, dst, suffixes)
    {
      ghost var s1, j1 := fs.state, fs.journal;
      ghost var ops := ItemOps(copy, directories, ps[j], dst, suffixes);
      ok := HandleItem(fs, copy, directories, ps[j], dst, suffixes);
      RanThen(s0, j0, done, s1, j1, ops, fs.state, fs.journal, ok);
      ConcatAssoc(done, ops, MatchOps(ps, j + 1, copy, directories, dst, suffixes));
      if !ok {
        RanPrefixStopped(s0, j0, done + ops, MatchOps(ps, 0, copy, directories, dst, suffixes), fs.state, fs.journal);
        return;
      }
      done := done + ops;
    }
    assert done + [] == done;
  }

  /** One entry of a Copy or Link list: skipped when blank, else its matches in order. */
  method HandleEntry(fs: FileSystem, e: FileOrDirectory, copy: bool, from: AbsolutePath, dst: AbsolutePath,
                     suffixes: Suffixes, searchFiles: Search, searchDirectories: Search)
    returns (ok: bool)
    modifies fs
    ensures Ran(old(fs.state), old(fs.journal), EntryOps(old(fs.state), e, copy, from, dst, suffixes, searchFiles, searchDirectories),
                fs.state, fs.journal, ok)
  {
    if !Blank(e) {
      var ps := Matches(fs.state, e, from, searchFiles, searchDirectories);
      ok := HandleMatches(fs, ps, copy, IsNullOrWhiteSpace(e.file), dst, suffixes);
    } else {
      RanNothing(fs.state, fs.journal);
      ok := true;
    }
  }

  /** `FileSystemTask`: every entry in order, every match of an entry in order, until an
      operation throws. */
  method FileSystemTask(fs: FileSystem, entries: seq<FileOrDirectory>, copy: bool, from: AbsolutePath, dst: AbsolutePath,
                        suffixes: Suffixes, searchFiles: Search, searchDirectories: Search)
    returns (ok: bool)
    modifies fs
    ensures Ran(old(fs.state), old(fs.journal), EntriesOps(old(fs.state), entries, copy, from, dst, suffixes, searchFiles, searchDirectories),
                fs.state, fs.journal, ok)
  {
    ghost var s0, j0 := fs.state, fs.journal;
    ghost var done: seq<FsOp> := [];
    RanNothing(s0, j0);
    ok := true;
    for i := 0 to |entries|
      invariant Ran(s0, j0, done, fs.state, fs.journal, true)
      invariant done + EntriesOps(fs.state, entries[i..], copy, from, dst, suffixes, searchFiles, searchDirectories)
             == EntriesOps(s0, entries, copy, from, dst, suffixes, searchFiles, searchDirectories)
    {
      ghost var s1, j1 := fs.state, fs.journal;
      ghost var ops := EntryOps(s1, entries[i], copy, from, dst, suffixes, searchFiles, searchDirectories);
      ghost var later := EntriesOps(ApplyAll(s1, ops), entries[i + 1..], copy, from, dst, suffixes, searchFiles, searchDirectories);
      EntriesOpsUnfold(s1, entries, i, copy, from, dst, suffixes, searchFiles, searchDirectories);
      ok := HandleEntry(fs, entries[i], copy, from, dst, suffixes, searchFiles, searchDirectories);
      RanThen(s0, j0, done, s1, j1, ops, fs.state, fs.journal, ok);
      ConcatAssoc(done, ops, later);
      if !ok {
        RanPrefixStopped(s0, j0, done + ops, EntriesOps(s0, entries, copy, from, dst, suffixes, searchFiles, searchDirectories),
                         fs.state, fs.journal);
        return;
      }
      done := done + ops;
    }
    assert done + [] == done;
  }

  /** The plan for the entries from `i` on: entry `i`, then the rest from the state it leaves. */
  lemma EntriesOpsUnfold(s: FsState, entries: seq<FileOrDirectory>, i: nat, copy: bool, from: AbsolutePath, dst: AbsolutePath,
                         suffixes: Suffixes, searchFiles: Search, searchDirectories: Search)
    requires i < |entries|
    ensures var first := EntryOps(s, entries[i], copy, from, dst, suffixes, searchFiles, searchDirectories);
      EntriesOps(s, entries[i..], copy, from, dst, suffixes, searchFiles, searchDirectories)
      == first + EntriesOps(ApplyAll(s, first), entries[i + 1..], copy, from, dst, suffixes, searchFiles, searchDirectories)
  {
    assert entries[i..][1..] == entries[i + 1..];
  }

  /** The Copy list, then the Link list, of a manifest; the Link list only when no copy threw. */
  method ImportManifest(fs: FileSystem, m: ExportManifest, from: AbsolutePath, to: AbsolutePath, suffixes: Suffixes,
                        searchFiles: Search, searchDirectories: Search)
    returns (ok: bool)
    requires Normalised(to) && |to.segments| > 0
    modifies fs
    ensures Ran(old(fs.state), old(fs.journal), ManifestOps(old(fs.state), m, from, to, suffixes, searchFiles, searchDirectories),
                fs.state, fs.journal, ok)
  {
    var dst := ProcessSuffixPath(to, suffixes);
    ok := FileSystemTask(fs, m.copy, true, from, dst, suffixes, searchFiles, searchDirectories);
    ghost var copyOps := EntriesOps(old(fs.state), m.copy, true, from, dst, suffixes, searchFiles, searchDirectories);
    ghost var s1, j1 := fs.state, fs.journal;
    ghost var linkOps := EntriesOps(s1, m.link, false, from, dst, suffixes, searchFiles, searchDirectories);
    if !ok {
      RanStopped(old(fs.state), old(fs.journal), copyOps, s1, j1, linkOps);
      return;
    }
    ok := FileSystemTask(fs, m.link, false, from, dst, suffixes, searchFiles, searchDirectories);
    RanThen(old(fs.state), old(fs.journal), copyOps, s1, j1, linkOps, fs.state, fs.journal, ok);
  }

  /** Finds the manifest: export.yml, else export.yaml. */
  method FindManifest(fs: FileSystem, from: AbsolutePath) returns (r: Option<AbsolutePath>)
    requires Normalised(from)
    ensures r == ManifestPath(fs.state, from)
  {
    ManifestNames();
    var yml := ChildPath(from, "export.yml");
    var manifest := if fs.FileExists(yml) then yml else ChildPath(from, "export.yaml");
    r := if fs.FileExists(manifest) then Some(manifest) else None;
  }

  /** Links the target to the source folder unless the target exists. */
  method LinkFallback(fs: FileSystem, from: AbsolutePath, to: AbsolutePath) returns (ok: bool)
    modifies fs
    ensures Ran(old(fs.state), old(fs.journal), FallbackOps(old(fs.state), from, to), fs.state, fs.journal, ok)
  {
    if !fs.DirectoryExists(to) {
      ok := fs.Perform(CreateDirectoryLink(to, from));
    } else {
      RanNothing(fs.state, fs.journal);
      ok := true;
    }
  }

  /** Creates the target when missing, then carries out the manifest. */
  method ImportInto(fs: FileSystem, m: ExportManifest, from: AbsolutePath, to: AbsolutePath, suffixes: Suffixes,
                    searchFiles: Search, searchDirectories: Search)
    returns (ok: bool)
    requires Normalised(to) && |to.segments| > 0
    modifies fs
    ensures Ran(old(fs.state), old(fs.journal), TargetOps(old(fs.state), m, from, to, suffixes, searchFiles, searchDirectories),
                fs.state, fs.journal, ok)
  {
    ghost var create: seq<FsOp> := [];
    RanNothing(fs.state, fs.journal);
    if !fs.DirectoryExists(to) {
      create := [CreateDirectory(to)];
      ok := fs.Perform(CreateDirectory(to));
    } else {
      ok := true;
    }
    ghost var s1, j1 := fs.state, fs.journal;
    ghost var rest := ManifestOps(s1, m, from, to, suffixes, searchFiles, searchDirectories);
    if !ok {
      RanStopped(old(fs.state), old(fs.journal), create, s1, j1, rest);
      return;
    }
    ok := ImportManifest(fs, m, from, to, suffixes, searchFiles, searchDirectories);
    RanThen(old(fs.state), old(fs.journal), create, s1, j1, rest, fs.state, fs.journal, ok);
  }

  /** `ImportFolder`; `ok` is false when it throws. */
  method ImportFolder(fs: FileSystem, suffixes: Suffixes, item: ImportFolderItem, readYaml: string -> ExportManifest,
                      searchFiles: Search, searchDirectories: Search)
    returns (ok: bool)
    requires Normalised(item.from) && TargetDefined(item, suffixes)
    modifies fs
    ensures Ran(old(fs.state), old(fs.journal), ImportOps(old(fs.state), suffixes, item, readYaml, searchFiles, searchDirectories),
                fs.state, fs.journal, ok)
  {
    var manifest := FindManifest(fs, item.from);
    var to := ProcessSuffixPath(item.toParent, suffixes);
    match manifest {
      case None =>
        ok := LinkFallback(fs, item.from, to);
      case Some(path) =>
        var instructions := readYaml(fs.ReadAllText(path));
        ok := ImportInto(fs, instructions, item.from, to, suffixes, searchFiles, searchDirectories);
    }
  }

  /** Every import has a source folder and a target that are defined. */
  predicate ImportsDefined(imports: seq<ImportFolderItem>, suffixes: Suffixes) {
    forall k :: 0 <= k < |imports| ==> Normalised(imports[k].from) && TargetDefined(imports[k], suffixes)
  }

  /** The operations of the imports in order, each import seeing the state the earlier ones left. */
  function FoldersOps(s: FsState, suffixes: Suffixes, imports: seq<ImportFolderItem>, readYaml: string -> ExportManifest,
                      searchFiles: Search, searchDirectories: Search): seq<FsOp>
    requires ImportsDefined(imports, suffixes)
    decreases |imports|
  {
    if |imports| == 0 then []
    else
      var first := ImportOps(s, suffixes, imports[0], readYaml, searchFiles, searchDirectories);
      first + FoldersOps(ApplyAll(s, first), suffixes, imports[1..], readYaml, searchFiles, searchDirectories)
  }

  /** `ImportFolders`: the imports one after another, in the given order; an exception in one
      ends them all. */
  method ImportFolders(fs: FileSystem, suffixes: Suffixes, imports: seq<ImportFolderItem>, readYaml: string -> ExportManifest,
                       searchFiles: Search, searchDirectories: Search)
    returns (ok: bool)
    requires ImportsDefined(imports, suffixes)
    modifies fs
    ensures Ran(old(fs.state), old(fs.journal), FoldersOps(old(fs.state), suffixes, imports, readYaml, searchFiles, searchDirectories),
                fs.state, fs.journal, ok)
  {
    ghost var s0, j0 := fs.state, fs.journal;
    ghost var done: seq<FsOp> := [];
    RanNothing(s0, j0);
    ok := true;
    assert imports[0..] == imports;
    for i := 0 to |imports|
      invariant Ran(s0, j0, done, fs.state, fs.journal, true)
      invariant ImportsDefined(imports[i..], suffixes)
      invariant done + FoldersOps(fs.state, suffixes, imports[i..], readYaml, searchFiles, searchDirectories)
             == FoldersOps(s0, suffixes, imports, readYaml, searchFiles, searchDirectories)
    {
      ghost var s1, j1 := fs.state, fs.journal;
      ghost var ops := ImportOps(s1, suffixes, imports[i], readYaml, searchFiles, searchDirectories);
      FoldersOpsUnfold(s1, suffixes, imports, i, readYaml, searchFiles, searchDirectories);
      ghost var later := FoldersOps(ApplyAll(s1, ops), suffixes, imports[i + 1..], readYaml, searchFiles, searchDirectories);
      ok := ImportFolder(fs, suffixes, imports[i], readYaml, searchFiles, searchDirectories);
      RanThen(s0, j0, done, s1, j1, ops, fs.state, fs.journal, ok);
      ConcatAssoc(done, ops, later);
      if !ok {
        RanPrefixStopped(s0, j0, done + ops, FoldersOps(s0, suffixes, imports, readYaml, searchFiles, searchDirectories), fs.state, fs.journal);
        return;
      }
      done := done + ops;
    }
    assert done + [] == done;
  }

  /** The plan for the imports from `i` on: import `i`, then the rest from the state it leaves. */
  lemma FoldersOpsUnfold(s: FsState, suffixes: Suffixes, imports: seq<ImportFolderItem>, i: nat, readYaml: string -> ExportManifest,
                         searchFiles: Search, searchDirectories: Search)
    requires i < |imports| && ImportsDefined(imports[i..], suffixes)
    ensures ImportsDefined(imports[i + 1..], suffixes) && Normalised(imports[i].from) && TargetDefined(imports[i], suffixes)
    ensures var first := ImportOps(s, suffixes, imports[i], readYaml, searchFiles, searchDirectories);
      FoldersOps(s, suffixes, imports[i..], readYaml, searchFiles, searchDirectories)
      == first + FoldersOps(ApplyAll(s, first), suffixes, imports[i + 1..], readYaml, searchFiles, searchDirectories)
  {
    assert imports[i..][1..] == imports[i + 1..];
    assert imports[i..][0] == imports[i];
  }

  // ---- Properties --------------------------------------------------------------------------

  /** An operation of the Copy phase: it writes to `dst`. */
  predicate IsCopyOp(op: FsOp, dst: AbsolutePath) {
    (op.CopyDirectory? && op.destination == dst) || (op.CopyFile? && op.destination == dst)
    || (op.ProcessSuffixContent? && op.path == dst)
  }

  /** An operation of the Link phase: it creates a link at `dst`. */
  predicate IsLinkOp(op: FsOp, dst: AbsolutePath) {
    (op.CreateDirectoryLink? || op.CreateFileLink?) && op.link == dst
  }

  predicate PhaseOp(op: FsOp, copy: bool, dst: AbsolutePath) {
    if copy then IsCopyOp(op, dst) else IsLinkOp(op, dst)
  }

  predicate AllPhase(ops: seq<FsOp>, copy: bool, dst: AbsolutePath) {
    forall k :: 0 <= k < |ops| ==> PhaseOp(ops[k], copy, dst)
  }

  /** Copies and links into `dst`, every copy before every link. */
  predicate CopiesThenLinks(ops: seq<FsOp>, dst: AbsolutePath) {
    (forall k :: 0 <= k < |ops| ==> IsCopyOp(ops[k], dst) || IsLinkOp(ops[k], dst))
    && (forall a, b :: 0 <= a < b < |ops| && IsLinkOp(ops[a], dst) ==> IsLinkOp(ops[b], dst))
  }

  lemma AllPhaseConcat(a: seq<FsOp>, b: seq<FsOp>, copy: bool, dst: AbsolutePath)
    requires AllPhase(a, copy, dst) && AllPhase(b, copy, dst)
    ensures AllPhase(a + b, copy, dst)
  {
    forall k | 0 <= k < |a + b|
      ensures PhaseOp((a + b)[k], copy, dst)
    {
      if k >= |a| {
        assert (a + b)[k] == b[k - |a|];
      }
    }
  }

  lemma CopiesThenLinksConcat(cs: seq<FsOp>, ls: seq<FsOp>, dst: AbsolutePath)
    requires AllPhase(cs, true, dst) && AllPhase(ls, false, dst)
    ensures CopiesThenLinks(cs + ls, dst)
  {
    var ops := cs + ls;
    forall k | 0 <= k < |ops|
      ensures (k < |cs| ==> IsCopyOp(ops[k], dst) && !IsLinkOp(ops[k], dst)) && (k >= |cs| ==> IsLinkOp(ops[k], dst))
    {
      if k >= |cs| {
        assert ops[k] == ls[k - |cs|];
        assert PhaseOp(ls[k - |cs|], false, dst);
      } else {
        assert PhaseOp(cs[k], true, dst);
      }
    }
  }

  /** Every operation for a list of matches belongs to its phase and targets `dst`. */
  lemma {:induction false} MatchOpsPhase(ps: seq<AbsolutePath>, j: nat, copy: bool, directories: bool, dst: AbsolutePath, suffixes: Suffixes)
    ensures AllPhase(MatchOps(ps, j, copy, directories, dst, suffixes), copy, dst)
    decreases |ps| - j
  {
    if j < |ps| {
      MatchOpsPhase(ps, j + 1, copy, directories, dst, suffixes);
      AllPhaseConcat(ItemOps(copy, directories, ps[j], dst, suffixes), MatchOps(ps, j + 1, copy, directories, dst, suffixes), copy, dst);
    }
  }

  /** Every operation of a Copy list copies (or renames the content) at `dst`; every operation
      of a Link list makes a link at `dst`. */
  lemma {:induction false} EntriesOpsPhase(s: FsState, entries: seq<FileOrDirectory>, copy: bool, from: AbsolutePath, dst: AbsolutePath,
                                           suffixes: Suffixes, searchFiles: Search, searchDirectories: Search)
    ensures AllPhase(EntriesOps(s, entries, copy, from, dst, suffixes, searchFiles, searchDirectories), copy, dst)
    decreases |entries|
  {
    if |entries| > 0 {
      var e := entries[0];
      var first := EntryOps(s, e, copy, from, dst, suffixes, searchFiles, searchDirectories);
      EntriesOpsPhase(ApplyAll(s, first), entries[1..], copy, from, dst, suffixes, searchFiles, searchDirectories);
      if !Blank(e) {
        MatchOpsPhase(Matches(s, e, from, searchFiles, searchDirectories), 0, copy, IsNullOrWhiteSpace(e.file), dst, suffixes);
      }
      AllPhaseConcat(first, EntriesOps(ApplyAll(s, first), entries[1..], copy, from, dst, suffixes, searchFiles, searchDirectories), copy, dst);
    }
  }

  /** Entries whose File and Directory are both blank do nothing. */
  lemma {:induction false} BlankEntriesSkipped(s: FsState, entries: seq<FileOrDirectory>, copy: bool, from: AbsolutePath, dst: AbsolutePath,
                                               suffixes: Suffixes, searchFiles: Search, searchDirectories: Search)
    requires forall k :: 0 <= k < |entries| ==> Blank(entries[k])
    ensures EntriesOps(s, entries, copy, from, dst, suffixes, searchFiles, searchDirectories) == []
    decreases |entries|
  {
    if |entries| > 0 {
      assert EntryOps(s, entries[0], copy, from, dst, suffixes, searchFiles, searchDirectories) == [];
      BlankEntriesSkipped(ApplyAll(s, []), entries[1..], copy, from, dst, suffixes, searchFiles, searchDirectories);
    }
  }

  /** As written, an entry's Not, As and ProcessContent settings change nothing. */
  lemma EntrySettingsIgnored(s: FsState, e: FileOrDirectory, not: seq<string>, asTemplate: Option<string>, processContent: bool,
                             copy: bool, from: AbsolutePath, dst: AbsolutePath, suffixes: Suffixes, searchFiles: Search, searchDirectories: Search)
    ensures EntryOps(s, e.(not := not, asTemplate := asTemplate, processContent := processContent), copy, from, dst, suffixes, searchFiles, searchDirectories)
         == EntryOps(s, e, copy, from, dst, suffixes, searchFiles, searchDirectories)
  {
  }

  /** As written, a manifest's Use and Not lists change nothing. */
  lemma ManifestUseAndNotIgnored(s: FsState, m: ExportManifest, use: seq<FileOrDirectory>, not: seq<string>, from: AbsolutePath,
                                 to: AbsolutePath, suffixes: Suffixes, searchFiles: Search, searchDirectories: Search)
    requires Normalised(to) && |to.segments| > 0
    ensures ManifestOps(s, m.(use := use, not := not), from, to, suffixes, searchFiles, searchDirectories)
         == ManifestOps(s, m, from, to, suffixes, searchFiles, searchDirectories)
  {
  }

  /** A copied file's operations complete exactly when the source is a file and the destination
      is no directory; then the destination holds the source's text renamed, whatever the
      entry's ProcessContent says. */
  lemma CopiedFileRenamed(s: FsState, p: AbsolutePath, dst: AbsolutePath, suffixes: Suffixes)
    ensures var ops := ItemOps(true, false, p, dst, suffixes);
      (Completes(s, ops) <==> p in s.files && dst !in s.dirs)
      && (Completes(s, ops) ==>
            var t := ApplyAll(s, ops);
            dst in t.files && t.files[dst] == ProcessSuffixWith(s.files[p], suffixes, DefaultLeads))
  {
    var copy, rename := CopyFile(p, dst), ProcessSuffixContent(dst, suffixes);
    assert ItemOps(true, false, p, dst, suffixes) == [copy] + [rename];
    ApplyAllConcat(s, [copy], [rename]);
    ApplyAllSingle(s, copy);
    if !Fails(s, copy) {
      ApplyAllSingle(Apply(s, copy), rename);
    }
  }

  /** A manifest's operations: every copy before every link, all into `dst`. */
  lemma {:induction false} ManifestCopiesBeforeLinks(s: FsState, m: ExportManifest, from: AbsolutePath, to: AbsolutePath, suffixes: Suffixes,
                                  searchFiles: Search, searchDirectories: Search)
    requires Normalised(to) && |to.segments| > 0
    ensures CopiesThenLinks(ManifestOps(s, m, from, to, suffixes, searchFiles, searchDirectories), ProcessSuffixPath(to, suffixes))
  {
    var dst := ProcessSuffixPath(to, suffixes);
    var copyOps := EntriesOps(s, m.copy, true, from, dst, suffixes, searchFiles, searchDirectories);
    var linkOps := EntriesOps(ApplyAll(s, copyOps), m.link, false, from, dst, suffixes, searchFiles, searchDirectories);
    EntriesOpsPhase(s, m.copy, true, from, dst, suffixes, searchFiles, searchDirectories);
    EntriesOpsPhase(ApplyAll(s, copyOps), m.link, false, from, dst, suffixes, searchFiles, searchDirectories);
    CopiesThenLinksConcat(copyOps, linkOps, dst);
  }

  /** With a manifest, the import creates the missing target first; then every copy comes before
      every link, and each of them targets the one destination `dst`. */
  lemma {:induction false} TargetCopiesBeforeLinks(s: FsState, m: ExportManifest, from: AbsolutePath, to: AbsolutePath, suffixes: Suffixes,
                                                   searchFiles: Search, searchDirectories: Search)
    requires Normalised(to) && |to.segments| > 0
    ensures var ops := TargetOps(s, m, from, to, suffixes, searchFiles, searchDirectories);
      var c := if to in s.dirs then 0 else 1;
      (to !in s.dirs <==> |ops| > 0 && ops[0] == CreateDirectory(to))
      && c <= |ops| && CopiesThenLinks(ops[c..], ProcessSuffixPath(to, suffixes))
  {
    var dst := ProcessSuffixPath(to, suffixes);
    var create := if to in s.dirs then [] else [CreateDirectory(to)];
    var rest := ManifestOps(ApplyAll(s, create), m, from, to, suffixes, searchFiles, searchDirectories);
    ManifestCopiesBeforeLinks(ApplyAll(s, create), m, from, to, suffixes, searchFiles, searchDirectories);
    DropPrefix(create, rest);
    if to in s.dirs && |rest| > 0 {
      assert (create + rest)[0] == rest[0];
    }
  }

  lemma DropPrefix<T>(a: seq<T>, b: seq<T>)
    ensures (a + b)[|a|..] == b
  {
  }

  /** After an import the target directory exists unless a file stands in its place (then the
      first operation throws); nothing that existed is gone, and files and directories stay apart. */
  lemma {:induction false} ImportTargetExists(s: FsState, suffixes: Suffixes, item: ImportFolderItem, readYaml: string -> ExportManifest,
                                              searchFiles: Search, searchDirectories: Search)
    requires Valid(s) && Normalised(item.from) && TargetDefined(item, suffixes)
    ensures var to := ProcessSuffixPath(item.toParent, suffixes);
      var t := ApplyAll(s, ImportOps(s, suffixes, item, readYaml, searchFiles, searchDirectories));
      (to in t.dirs <==> to !in s.files) && s.files.Keys <= t.files.Keys && s.dirs <= t.dirs && Valid(t)
  {
    var to := ProcessSuffixPath(item.toParent, suffixes);
    var ops := ImportOps(s, suffixes, item, readYaml, searchFiles, searchDirectories);
    ApplyAllGrows(s, ops);
    ApplyAllKeepsValid(s, ops);
    if to !in s.dirs && to !in s.files {
      var first := ImportOpsFirst(s, suffixes, item, readYaml, searchFiles, searchDirectories);
      ApplyAllGrows(Apply(s, first), ops[1..]);
    }
  }

  /** Unless the target exists, an import begins by creating it or linking it. */
  lemma {:induction false} ImportOpsFirst(s: FsState, suffixes: Suffixes, item: ImportFolderItem, readYaml: string -> ExportManifest,
                                          searchFiles: Search, searchDirectories: Search)
    returns (first: FsOp)
    requires Normalised(item.from) && TargetDefined(item, suffixes)
    requires ProcessSuffixPath(item.toParent, suffixes) !in s.dirs
    ensures var ops := ImportOps(s, suffixes, item, readYaml, searchFiles, searchDirectories);
      |ops| > 0 && ops[0] == first
      && (first == CreateDirectory(ProcessSuffixPath(item.toParent, suffixes))
          || first == CreateDirectoryLink(ProcessSuffixPath(item.toParent, suffixes), item.from))
  {
    var to := ProcessSuffixPath(item.toParent, suffixes);
    match ManifestPath(s, item.from)
    case None =>
      first := CreateDirectoryLink(to, item.from);
    case Some(manifest) =>
      first := CreateDirectory(to);
      var m := readYaml(s.files[manifest]);
      var rest := ManifestOps(ApplyAll(s, [first]), m, item.from, to, suffixes, searchFiles, searchDirectories);
      assert TargetOps(s, m, item.from, to, suffixes, searchFiles, searchDirectories) == [first] + rest;
  }

  /** An operation that writes a file or makes a link at `d`. */
  predicate WritesAt(op: FsOp, d: AbsolutePath) {
    (op.CopyFile? && op.destination == d) || ((op.CreateDirectoryLink? || op.CreateFileLink?) && op.link == d)
  }

  /** Once `d` is a directory, the first operation writing a file or a link at `d` throws: nothing
      from it on is carried out. */
  lemma {:induction false} OpsOntoDirectoryAbort(s: FsState, ops: seq<FsOp>, d: AbsolutePath, k: nat)
    requires d in s.dirs && k < |ops| && WritesAt(ops[k], d)
    ensures Done(s, ops) <= k
    decreases k
  {
    if !Fails(s, ops[0]) {
      ApplyGrows(s, ops[0]);
      OpsOntoDirectoryAbort(Apply(s, ops[0]), ops[1..], d, k - 1);
    }
  }

  /** Every operation of a manifest copies or links at the one destination `dst`. */
  lemma {:induction false} ManifestOpsAt(s: FsState, m: ExportManifest, from: AbsolutePath, to: AbsolutePath, suffixes: Suffixes,
                                         searchFiles: Search, searchDirectories: Search)
    requires Normalised(to) && |to.segments| > 0
    ensures var ops := ManifestOps(s, m, from, to, suffixes, searchFiles, searchDirectories);
      var dst := ProcessSuffixPath(to, suffixes);
      forall k :: 0 <= k < |ops| ==> IsCopyOp(ops[k], dst) || IsLinkOp(ops[k], dst)
  {
    var dst := ProcessSuffixPath(to, suffixes);
    var copyOps := EntriesOps(s, m.copy, true, from, dst, suffixes, searchFiles, searchDirectories);
    var linkOps := EntriesOps(ApplyAll(s, copyOps), m.link, false, from, dst, suffixes, searchFiles, searchDirectories);
    EntriesOpsPhase(s, m.copy, true, from, dst, suffixes, searchFiles, searchDirectories);
    EntriesOpsPhase(ApplyAll(s, copyOps), m.link, false, from, dst, suffixes, searchFiles, searchDirectories);
    var ops := copyOps + linkOps;
    forall k | 0 <= k < |ops|
      ensures IsCopyOp(ops[k], dst) || IsLinkOp(ops[k], dst)
    {
      if k < |copyOps| {
        assert PhaseOp(copyOps[k], true, dst);
      } else {
        assert PhaseOp(linkOps[k - |copyOps|], false, dst);
      }
    }
  }

  /** With a manifest, once the target directory is handed to every item, the first matched
      file of the Copy list or the first match of the Link list throws. */
  lemma {:induction false} TargetOpsAbort(s: FsState, m: ExportManifest, from: AbsolutePath, to: AbsolutePath, suffixes: Suffixes,
                                          searchFiles: Search, searchDirectories: Search, k: nat)
    requires Normalised(to) && |to.segments| > 0 && ProcessSuffixPath(to, suffixes) == to
    requires var ops := TargetOps(s, m, from, to, suffixes, searchFiles, searchDirectories);
      k < |ops| && (ops[k].CopyFile? || ops[k].CreateDirectoryLink? || ops[k].CreateFileLink?)
    ensures Done(s, TargetOps(s, m, from, to, suffixes, searchFiles, searchDirectories)) <= k
  {
    var create := if to in s.dirs then [] else [CreateDirectory(to)];
    var s1 := ApplyAll(s, create);
    var rest := ManifestOps(s1, m, from, to, suffixes, searchFiles, searchDirectories);
    var ops := create + rest;
    assert ops == TargetOps(s, m, from, to, suffixes, searchFiles, searchDirectories);
    ManifestOpsAt(s1, m, from, to, suffixes, searchFiles, searchDirectories);
    var c := |create|;
    assert c <= k;
    assert ops[k] == rest[k - c];
    assert WritesAt(ops[k], to);
    if to in s.dirs {
      OpsOntoDirectoryAbort(s, ops, to, k);
    } else if !Fails(s, ops[0]) {
      assert ops[1..] == rest;
      OpsOntoDirectoryAbort(Apply(s, ops[0]), ops[1..], to, k - 1);
    }
  }

  /** As written, when renaming the target once more leaves it as it is, every item is handed the
      existing target directory itself: the import throws at the first matched file of the Copy
      list or the first match of the Link list, and nothing from there on happens. */
  lemma {:induction false} AsWrittenImportAborts(s: FsState, suffixes: Suffixes, item: ImportFolderItem, readYaml: string -> ExportManifest,
                                                 searchFiles: Search, searchDirectories: Search, k: nat)
    requires Normalised(item.from) && TargetDefined(item, suffixes) && ManifestPath(s, item.from).Some?
    requires ProcessSuffixPath(ProcessSuffixPath(item.toParent, suffixes), suffixes) == ProcessSuffixPath(item.toParent, suffixes)
    requires var ops := ImportOps(s, suffixes, item, readYaml, searchFiles, searchDirectories);
      k < |ops| && (ops[k].CopyFile? || ops[k].CreateDirectoryLink? || ops[k].CreateFileLink?)
    ensures Done(s, ImportOps(s, suffixes, item, readYaml, searchFiles, searchDirectories)) <= k
  {
    var to := ProcessSuffixPath(item.toParent, suffixes);
    var m := readYaml(s.files[ManifestPath(s, item.from).value]);
    TargetOpsAbort(s, m, item.from, to, suffixes, searchFiles, searchDirectories, k);
  }

  /** The place a matched item was evidently meant to go: its own relative place below the
      target (`to / from.GetRelativePathTo(p)`), renamed. */
  function MirroredDestination(from: AbsolutePath, to: AbsolutePath, p: AbsolutePath, suffixes: Suffixes): AbsolutePath
    requires Normalised(to) && Normalised(p) && IsBelow(p, from)
  {
    var rest := p.segments[|from.segments|..];
    assert p.segments == from.segments + rest;
    RelativePathToDescendant(from, rest, '/');
    CombineJoined(to, rest, '/');
    ProcessSuffixPath(Combine(to, GetRelativePathTo(from, p, '/')), suffixes)
  }

  /** Handed its mirrored place, a matched file lands strictly below the target under its
      renamed name, beside the same relative folders it had below the source. */
  lemma {:induction false} MirroredDestinationBelow(from: AbsolutePath, to: AbsolutePath, p: AbsolutePath, suffixes: Suffixes)
    requires Normalised(to) && Normalised(p) && IsBelow(p, from)
    requires IsNormalSegment(ProcessSuffixWith(Name(p), suffixes, DefaultLeads))
    ensures var dst := MirroredDestination(from, to, p, suffixes);
      var rest := p.segments[|from.segments|..];
      dst == AbsolutePath(to.root, to.segments + rest[..|rest| - 1] + [ProcessSuffixWith(Name(p), suffixes, DefaultLeads)])
      && IsBelow(dst, to)
  {
    var rest := p.segments[|from.segments|..];
    assert p.segments == from.segments + rest;
    RelativePathToDescendant(from, rest, '/');
    CombineJoined(to, rest, '/');
    var placed := AbsolutePath(to.root, to.segments + rest);
    assert Name(placed) == Name(p);
    ProcessSuffixPathKeepsParent(placed, suffixes);
    var dst := MirroredDestination(from, to, p, suffixes);
    assert dst.segments == dst.segments[..|dst.segments| - 1] + [Name(dst)];
    assert Parent(placed).segments == to.segments + rest[..|rest| - 1];
    assert dst.segments[..|to.segments|] == to.segments;
  }

  /** When nothing below the target is a directory yet (a freshly created target), the copy of a
      matched file handed its mirrored place completes, and the new file holds the source's
      text renamed. */
  lemma {:induction false} MirroredCopyRenames(s: FsState, from: AbsolutePath, to: AbsolutePath, p: AbsolutePath, suffixes: Suffixes)
    requires Normalised(to) && Normalised(p) && IsBelow(p, from)
    requires IsNormalSegment(ProcessSuffixWith(Name(p), suffixes, DefaultLeads))
    requires p in s.files && forall q :: q in s.dirs ==> !IsBelow(q, to)
    ensures var dst := MirroredDestination(from, to, p, suffixes);
      var t := ApplyAll(s, ItemOps(true, false, p, dst, suffixes));
      Completes(s, ItemOps(true, false, p, dst, suffixes))
      && dst in t.files && t.files[dst] == ProcessSuffixWith(s.files[p], suffixes, DefaultLeads)
  {
    var dst := MirroredDestination(from, to, p, suffixes);
    MirroredDestinationBelow(from, to, p, suffixes);
    assert dst !in s.dirs;
    CopiedFileRenamed(s, p, dst, suffixes);
  }
}
