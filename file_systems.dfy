/** The file system as folder composition sees it: which files exist with what text, which
    directories exist, and the operations Nuke and System.IO perform on them. An operation the
    file system refuses throws, and the exception ends the whole import; a `FileSystem` object
    holds the current state and the journal of every operation carried out so far. */
module FileSystems {
  import opened Paths
  import opened SuffixRenaming

  datatype FsState = FsState(files: map<AbsolutePath, string>, dirs: set<AbsolutePath>)

  datatype FsOp =
    | CreateDirectory(path: AbsolutePath)
    | CreateDirectoryLink(link: AbsolutePath, target: AbsolutePath)
    | CreateFileLink(link: AbsolutePath, target: AbsolutePath)
    | CopyDirectory(source: AbsolutePath, destination: AbsolutePath)
    | CopyFile(source: AbsolutePath, destination: AbsolutePath)
    | ProcessSuffixContent(path: AbsolutePath, suffixes: Suffixes)

  /** No path is both a file and a directory. */
  predicate Valid(s: FsState) {
    s.files.Keys !! s.dirs
  }

  /** `q` lies strictly inside directory `dir`. */
  predicate IsBelow(q: AbsolutePath, dir: AbsolutePath) {
    q.root == dir.root && |dir.segments| < |q.segments| && q.segments[..|dir.segments|] == dir.segments
  }

  /** The place of `q` (inside `src`) once `src` is copied to `dst`. */
  function Rebase(q: AbsolutePath, src: AbsolutePath, dst: AbsolutePath): AbsolutePath
    requires |src.segments| <= |q.segments|
  {
    AbsolutePath(dst.root, dst.segments + q.segments[|src.segments|..])
  }

  /** The place inside `src` that `d` (inside `dst`) was copied from. */
  function Origin(d: AbsolutePath, src: AbsolutePath, dst: AbsolutePath): AbsolutePath
    requires |dst.segments| <= |d.segments|
  {
    AbsolutePath(src.root, src.segments + d.segments[|dst.segments|..])
  }

  /** The places the files below `src` are copied to. */
  function RebasedFiles(files: map<AbsolutePath, string>, src: AbsolutePath, dst: AbsolutePath): set<AbsolutePath> {
    set q | q in files && IsBelow(q, src) :: Rebase(q, src, dst)
  }

  /** The places the directories below `src` are copied to. */
  function RebasedDirs(dirs: set<AbsolutePath>, src: AbsolutePath, dst: AbsolutePath): set<AbsolutePath> {
    set q | q in dirs && IsBelow(q, src) :: Rebase(q, src, dst)
  }

  /** `CopyDirectoryRecursively` with the Merge and Overwrite policies: every file below
      `src` is written at its rebased place, other files stay. */
  function CopyTree(files: map<AbsolutePath, string>, src: AbsolutePath, dst: AbsolutePath): (r: map<AbsolutePath, string>)
    ensures r.Keys == files.Keys + RebasedFiles(files, src, dst)
  {
    var keys := RebasedFiles(files, src, dst);
    var copied := map d | d in keys && |dst.segments| <= |d.segments| && Origin(d, src, dst) in files
                           :: files[Origin(d, src, dst)];
    assert copied.Keys == keys by {
      forall d | d in keys
        ensures |dst.segments| <= |d.segments| && Origin(d, src, dst) in files
      {
        var q :| q in files && IsBelow(q, src) && d == Rebase(q, src, dst);
        assert q.segments == src.segments + q.segments[|src.segments|..];
        assert Origin(d, src, dst) == q;
      }
    }
    files + copied
  }

  /** The directories after a recursive copy: the destination and every directory below the
      source, rebased. */
  function CopyDirs(dirs: set<AbsolutePath>, src: AbsolutePath, dst: AbsolutePath): (r: set<AbsolutePath>)
    ensures dirs + {dst} <= r
  {
    dirs + {dst} + RebasedDirs(dirs, src, dst)
  }

  /** The operation throws: creating a directory where a file is, a link where anything is, copying
      a missing file or onto a directory, copying a missing directory, onto a file, or so that a
      file would land on a directory or a directory on a file. Renaming the content of a path
      that is not a file does nothing (`ProcessSuffixContent` checks `FileExists` first). */
  predicate Fails(s: FsState, op: FsOp) {
    match op
    case CreateDirectory(p) => p in s.files
    case CreateDirectoryLink(link, _) => link in s.files || link in s.dirs
    case CreateFileLink(link, _) => link in s.files || link in s.dirs
    case CopyDirectory(src, dst) =>
      src !in s.dirs || dst in s.files
      || !(RebasedFiles(s.files, src, dst) !! s.dirs) || !(RebasedDirs(s.dirs, src, dst) !! s.files.Keys)
    case CopyFile(src, dst) => src !in s.files || dst in s.dirs
    case ProcessSuffixContent(_, _) => false
  }

  /** The state after an operation that does not throw. A directory link counts as a directory;
      a file link holds the target's text as it is when the link is made. */
  function Apply(s: FsState, op: FsOp): FsState
    requires !Fails(s, op)
  {
    match op
    case CreateDirectory(p) => s.(dirs := s.dirs + {p})
    case CreateDirectoryLink(link, _) => s.(dirs := s.dirs + {link})
    case CreateFileLink(link, target) =>
      if target in s.files then s.(files := s.files[link := s.files[target]]) else s
    case CopyDirectory(src, dst) => FsState(CopyTree(s.files, src, dst), CopyDirs(s.dirs, src, dst))
    case CopyFile(src, dst) => s.(files := s.files[dst := s.files[src]])
    case ProcessSuffixContent(p, suffixes) =>
      if p in s.files then s.(files := s.files[p := ProcessSuffixWith(s.files[p], suffixes, DefaultLeads)]) else s
  }

  /** The operations in order up to the first that throws: the state they leave. */
  function ApplyAll(s: FsState, ops: seq<FsOp>): FsState
    decreases |ops|
  {
    if |ops| == 0 || Fails(s, ops[0]) then s else ApplyAll(Apply(s, ops[0]), ops[1..])
  }

  /** How many of the operations complete before the first that throws. */
  function Done(s: FsState, ops: seq<FsOp>): (n: nat)
    ensures n <= |ops|
    decreases |ops|
  {
    if |ops| == 0 || Fails(s, ops[0]) then 0 else 1 + Done(Apply(s, ops[0]), ops[1..])
  }

  /** None of the operations throws. */
  predicate Completes(s: FsState, ops: seq<FsOp>) {
    Done(s, ops) == |ops|
  }

  /** Running `a + b` runs `a`, and `b` from where `a` left off only when `a` completed. */
  lemma {:induction false} ApplyAllConcat(s: FsState, a: seq<FsOp>, b: seq<FsOp>)
    ensures Completes(s, a) ==> ApplyAll(s, a + b) == ApplyAll(ApplyAll(s, a), b)
                                && Done(s, a + b) == |a| + Done(ApplyAll(s, a), b)
    ensures !Completes(s, a) ==> ApplyAll(s, a + b) == ApplyAll(s, a) && Done(s, a + b) == Done(s, a)
    decreases |a|
  {
    if |a| == 0 {
      assert a + b == b;
    } else {
      assert (a + b)[0] == a[0] && (a + b)[1..] == a[1..] + b;
      if !Fails(s, a[0]) {
        ApplyAllConcat(Apply(s, a[0]), a[1..], b);
      }
    }
  }

  lemma ApplyAllSingle(s: FsState, op: FsOp)
    ensures Completes(s, [op]) <==> !Fails(s, op)
    ensures ApplyAll(s, [op]) == if Fails(s, op) then s else Apply(s, op)
  {
    assert [op][1..] == [];
  }

  /** No operation removes a file or a directory. */
  lemma ApplyGrows(s: FsState, op: FsOp)
    requires !Fails(s, op)
    ensures s.files.Keys <= Apply(s, op).files.Keys && s.dirs <= Apply(s, op).dirs
  {
  }

  /** Any sequence of operations only adds files and directories. */
  lemma {:induction false} ApplyAllGrows(s: FsState, ops: seq<FsOp>)
    ensures s.files.Keys <= ApplyAll(s, ops).files.Keys && s.dirs <= ApplyAll(s, ops).dirs
    decreases |ops|
  {
    if |ops| > 0 && !Fails(s, ops[0]) {
      ApplyGrows(s, ops[0]);
      ApplyAllGrows(Apply(s, ops[0]), ops[1..]);
    }
  }

  /** Two paths below `src` rebase to the same place only if they are the same path. */
  lemma RebaseInjective(a: AbsolutePath, b: AbsolutePath, src: AbsolutePath, dst: AbsolutePath)
    requires IsBelow(a, src) && IsBelow(b, src) && Rebase(a, src, dst) == Rebase(b, src, dst)
    ensures a == b
  {
    var n := |src.segments|;
    assert a.segments[n..] == Rebase(a, src, dst).segments[|dst.segments|..];
    assert b.segments[n..] == Rebase(b, src, dst).segments[|dst.segments|..];
    assert a.segments == src.segments + a.segments[n..];
    assert b.segments == src.segments + b.segments[n..];
  }

  /** An operation that does not throw keeps files and directories apart. */
  lemma ApplyKeepsValid(s: FsState, op: FsOp)
    requires Valid(s) && !Fails(s, op)
    ensures Valid(Apply(s, op))
  {
    match op
    case CopyDirectory(src, dst) =>
      var fs := RebasedFiles(s.files, src, dst);
      var ds := RebasedDirs(s.dirs, src, dst);
      forall d | d in fs && d in ds
        ensures false
      {
        var a :| a in s.files && IsBelow(a, src) && d == Rebase(a, src, dst);
        var b :| b in s.dirs && IsBelow(b, src) && d == Rebase(b, src, dst);
        RebaseInjective(a, b, src, dst);
      }
      forall d | d in fs
        ensures d != dst
      {
        var a :| a in s.files && IsBelow(a, src) && d == Rebase(a, src, dst);
      }
    case _ =>
  }

  /** Whatever part of a sequence of operations completes keeps files and directories apart. */
  lemma {:induction false} ApplyAllKeepsValid(s: FsState, ops: seq<FsOp>)
    requires Valid(s)
    ensures Valid(ApplyAll(s, ops))
    decreases |ops|
  {
    if |ops| > 0 && !Fails(s, ops[0]) {
      ApplyKeepsValid(s, ops[0]);
      ApplyAllKeepsValid(Apply(s, ops[0]), ops[1..]);
    }
  }

  /** A file copy throws exactly when the source is no file or the destination is a directory;
      otherwise the destination holds the source's text and no other file changes. */
  lemma CopyFileContent(s: FsState, src: AbsolutePath, dst: AbsolutePath)
    ensures Fails(s, CopyFile(src, dst)) <==> src !in s.files || dst in s.dirs
    ensures !Fails(s, CopyFile(src, dst)) ==>
      var t := Apply(s, CopyFile(src, dst));
      dst in t.files && t.files[dst] == s.files[src] && t.dirs == s.dirs
      && forall q :: q in s.files && q != dst ==> q in t.files && t.files[q] == s.files[q]
  {
  }

  /** A recursive copy keeps every file that was there and brings each file below the
      source to its rebased place, with its text. */
  lemma CopyDirectoryContent(s: FsState, src: AbsolutePath, dst: AbsolutePath, q: AbsolutePath)
    requires !Fails(s, CopyDirectory(src, dst))
    requires q in s.files && IsBelow(q, src)
    ensures var t := Apply(s, CopyDirectory(src, dst));
      s.files.Keys <= t.files.Keys && Rebase(q, src, dst) in t.files && t.files[Rebase(q, src, dst)] == s.files[q]
  {
    var d := Rebase(q, src, dst);
    assert d in RebasedFiles(s.files, src, dst);
    assert d.segments[|dst.segments|..] == q.segments[|src.segments|..];
    assert q.segments == src.segments + q.segments[|src.segments|..];
    assert Origin(d, src, dst) == q;
  }

  /** `ops` run from `s` with journal `j` reached `s2` with journal `j2`: the state the completed
      operations leave, the journal extended by exactly those, and `ok` when none threw. */
  predicate Ran(s: FsState, j: seq<FsOp>, ops: seq<FsOp>, s2: FsState, j2: seq<FsOp>, ok: bool) {
    s2 == ApplyAll(s, ops) && j2 == j + ops[..Done(s, ops)] && (ok <==> Completes(s, ops))
  }

  /** Nothing to run: nothing changes. */
  lemma RanNothing(s: FsState, j: seq<FsOp>)
    ensures Ran(s, j, [], s, j, true)
  {
    assert j + [][..0] == j;
  }

  /** A completed run of `a` followed by a run of `b` is a run of `a + b`. */
  lemma RanThen(s: FsState, j: seq<FsOp>, a: seq<FsOp>, s1: FsState, j1: seq<FsOp>,
                b: seq<FsOp>, s2: FsState, j2: seq<FsOp>, ok: bool)
    requires Ran(s, j, a, s1, j1, true) && Ran(s1, j1, b, s2, j2, ok)
    ensures Ran(s, j, a + b, s2, j2, ok)
  {
    ApplyAllConcat(s, a, b);
    assert (a + b)[..|a| + Done(s1, b)] == a + b[..Done(s1, b)];
    assert a[..|a|] == a;
  }

  /** A run of `a` that threw is a run of `a + b`: nothing after the exception happens. */
  lemma RanStopped(s: FsState, j: seq<FsOp>, a: seq<FsOp>, s1: FsState, j1: seq<FsOp>, b: seq<FsOp>)
    requires Ran(s, j, a, s1, j1, false)
    ensures Ran(s, j, a + b, s1, j1, false)
  {
    ApplyAllConcat(s, a, b);
    assert (a + b)[..Done(s, a)] == a[..Done(s, a)];
  }

  /** A run that threw partway through `a` is a run of anything `a` begins. */
  lemma RanPrefixStopped(s: FsState, j: seq<FsOp>, a: seq<FsOp>, full: seq<FsOp>, s1: FsState, j1: seq<FsOp>)
    requires a <= full && Ran(s, j, a, s1, j1, false)
    ensures Ran(s, j, full, s1, j1, false)
  {
    assert full == a + full[|a|..];
    RanStopped(s, j, a, s1, j1, full[|a|..]);
  }

  class FileSystem {
    var state: FsState
    var journal: seq<FsOp>

    constructor (initial: FsState)
      ensures state == initial && journal == []
    {
      state := initial;
      journal := [];
    }

    predicate FileExists(p: AbsolutePath)
      reads this
    {
      p in state.files
    }

    predicate DirectoryExists(p: AbsolutePath)
      reads this
    {
      p in state.dirs
    }

    function ReadAllText(p: AbsolutePath): string
      reads this
      requires FileExists(p)
    {
      state.files[p]
    }

    /** Carries out one operation and records it; `ok` is false, and nothing changes, when the
        operation throws. Files and directories stay apart. */
    method Perform(op: FsOp) returns (ok: bool)
      modifies this
      ensures ok <==> !Fails(old(state), op)
      ensures ok ==> state == Apply(old(state), op) && journal == old(journal) + [op]
      ensures !ok ==> state == old(state) && journal == old(journal)
      ensures Valid(old(state)) ==> Valid(state)
      ensures Ran(old(state), old(journal), [op], state, journal, ok)
    {
      ApplyAllSingle(state, op);
      if Fails(state, op) {
        ok := false;
        assert journal + [op][..0] == journal;
      } else {
        if Valid(state) {
          ApplyKeepsValid(state, op);
        }
        state := Apply(state, op);
        journal := journal + [op];
        ok := true;
      }
    }
  }
}
