/** The compiled-artifact cache of `DotnetCommon.cs`. A script or project is compiled into a
    directory named after a hash of its input, below an output root; an existing dll there is
    reused, otherwise the directory is (re)created, the compiler fills it and the directories of
    earlier inputs are deleted.

    The output root is a class whose field maps each directory name below it to the names of
    the files inside. The xxHash functions and the compilers are parameters: a hash function
    from text to a 32- or 64-bit value, and the set of files a compile leaves in its directory. */
module DotnetCommons {
  import opened Wrappers
  import opened Strings

  class OutputRoot {
    /** The directories directly below the output root, with the files in each. */
    var dirs: map<string, set<string>>

    constructor (initial: map<string, set<string>>)
      ensures dirs == initial
    {
      dirs := initial;
    }

    predicate FileExists(dir: string, file: string)
      reads this
    {
      dir in dirs && file in dirs[dir]
    }
  }

  /** Where a compile lands: the directory below the output root and the dll file in it. */
  datatype DllPath = DllPath(dir: string, file: string)

  /** What a compile call returned, and whether it ran the compiler. */
  datatype Compiled = Compiled(dll: DllPath, compiled: bool)

  /** `hash.ToString()` of an unsigned hash. */
  function HashText32(h: bv32): string {
    NatToString(h as nat)
  }

  function HashText64(h: bv64): string {
    NatToString(h as nat)
  }

  /** The dll location of a script: `{pathHash}_{hash}/{hash}.dll`. */
  function ScriptDll(pathHash: bv32, hash: bv64): DllPath {
    DllPath(HashText32(pathHash) + "_" + HashText64(hash), HashText64(hash) + ".dll")
  }

  /** The dll location of a project: `{name}_{hash}/{name}.dll`. */
  function ProjectDll(name: string, hash: bv64): DllPath {
    DllPath(name + "_" + HashText64(hash), name + ".dll")
  }

  /** A directory the residue cleanup deletes: it matches the glob `{prefix}_*` and its name does
      not contain the current hash. */
  predicate Stale(name: string, prefix: string, hashText: string) {
    StartsWith(name, prefix + "_") && !Contains(name, hashText)
  }

  /** The directories that survive the cleanup. */
  function Cleaned(dirs: map<string, set<string>>, prefix: string, hashText: string): (r: map<string, set<string>>)
    ensures r.Keys <= dirs.Keys
    ensures forall n :: n in r ==> r[n] == dirs[n]
  {
    map n | n in dirs && !Stale(n, prefix, hashText) :: dirs[n]
  }

  /** Deletes every stale directory, one at a time. */
  method RemoveStale(root: OutputRoot, prefix: string, hashText: string)
    modifies root
    ensures root.dirs == Cleaned(old(root.dirs), prefix, hashText)
  {
    var names := root.dirs.Keys;
    while names != {}
      invariant names <= old(root.dirs).Keys
      invariant root.dirs == map n | n in old(root.dirs) && (n in names || !Stale(n, prefix, hashText)) :: old(root.dirs)[n]
      decreases |names|
    {
      var n :| n in names;
      if Stale(n, prefix, hashText) {
        root.dirs := map m | m in root.dirs && m != n :: root.dirs[m];
      }
      names := names - {n};
    }
  }

  /** The state after a compile that missed the cache: the directory is emptied, the compiler
      writes `produced` into it, then the stale directories go. */
  function AfterCompile(dirs: map<string, set<string>>, dll: DllPath, produced: set<string>, prefix: string, hashText: string): map<string, set<string>> {
    Cleaned(dirs[dll.dir := produced], prefix, hashText)
  }

  /** `CompileScript(scriptPath, outputDirIn)` */
  method CompileScript(root: OutputRoot, scriptPath: string, scriptText: string, xxHash32: string -> bv32,
                       xxHash64: string -> bv64, produced: set<string>) returns (r: Compiled)
    modifies root
    ensures r.dll == ScriptDll(xxHash32(scriptPath), xxHash64(scriptText))
    ensures !r.compiled <==> old(root.FileExists(r.dll.dir, r.dll.file))
    ensures !r.compiled ==> root.dirs == old(root.dirs)
    ensures r.compiled ==> root.dirs == AfterCompile(old(root.dirs), r.dll, produced, HashText32(xxHash32(scriptPath)),
                                                     HashText64(xxHash64(scriptText)))
  {
    var pathHash := xxHash32(scriptPath);
    var hash := xxHash64(scriptText);
    var dllName := HashText64(hash);
    var dll := DllPath(HashText32(pathHash) + "_" + dllName, dllName + ".dll");
    if root.FileExists(dll.dir, dll.file) {
      return Compiled(dll, false);
    }
    root.dirs := root.dirs[dll.dir := {}];
    root.dirs := root.dirs[dll.dir := produced];
    RemoveStale(root, HashText32(pathHash), dllName);
    r := Compiled(dll, true);
  }

  /** The project hash: the hash of the project file xor-ed with the hash of every source file,
      in the order the glob lists them. */
  function XorFold(h: bv64, texts: seq<string>, xxHash64: string -> bv64): bv64
    decreases |texts|
  {
    if |texts| == 0 then h else XorFold(Xor(h, xxHash64(texts[0])), texts[1..], xxHash64)
  }

  /** `a ^ b` on `ulong`. */
  function Xor(a: bv64, b: bv64): bv64 {
    a ^ b
  }

  /** `CompileProject(projectPath, outputDirIn)`; `name` is the project file's name without its
      extension and `sources` the text of every `.cs` file below the project's directory. */
  method CompileProject(root: OutputRoot, name: string, projectText: string, sources: seq<string>,
                        xxHash64: string -> bv64, produced: set<string>) returns (r: Compiled)
    modifies root
    ensures r.dll == ProjectDll(name, XorFold(xxHash64(projectText), sources, xxHash64))
    ensures !r.compiled <==> old(r.dll.dir in root.dirs && root.FileExists(r.dll.dir, r.dll.file))
    ensures !r.compiled ==> root.dirs == old(root.dirs)
    ensures r.compiled ==> root.dirs == AfterCompile(old(root.dirs), r.dll, produced, name,
                                                     HashText64(XorFold(xxHash64(projectText), sources, xxHash64)))
  {
    var hash := xxHash64(projectText);
    for i := 0 to |sources|
      invariant XorFold(hash, sources[i..], xxHash64) == XorFold(xxHash64(projectText), sources, xxHash64)
    {
      assert sources[i..][0] == sources[i] && sources[i..][1..] == sources[i + 1..];
      hash := Xor(hash, xxHash64(sources[i]));
    }
    assert sources[|sources|..] == [];
    var dll := DllPath(name + "_" + HashText64(hash), name + ".dll");
    if dll.dir in root.dirs && root.FileExists(dll.dir, dll.file) {
      return Compiled(dll, false);
    }
    root.dirs := root.dirs[dll.dir := {}];
    root.dirs := root.dirs[dll.dir := produced];
    RemoveStale(root, name, HashText64(hash));
    r := Compiled(dll, true);
  }

  /** `Log(text)`: the text printed, unless the command line asks for shell completion. */
  function Log(text: string, commandLine: string): (printed: Option<string>)
    ensures printed.None? <==> Contains(commandLine, " :complete")
    ensures printed.Some? ==> printed.value == text
  {
    if Contains(commandLine, " :complete") then None else Some(text)
  }

  // ---- Properties --------------------------------------------------------------------------

  /** After a compile, the new directory holds what the compiler produced, every other directory
      matching `{prefix}_*` has the current hash in its name, and directories outside the glob are
      untouched. */
  lemma AfterCompileClean(dirs: map<string, set<string>>, dll: DllPath, produced: set<string>, prefix: string, hashText: string)
    requires StartsWith(dll.dir, prefix + "_") ==> Contains(dll.dir, hashText)
    ensures var r := AfterCompile(dirs, dll, produced, prefix, hashText);
      dll.dir in r && r[dll.dir] == produced
      && (forall n :: n in r && StartsWith(n, prefix + "_") ==> Contains(n, hashText))
      && (forall n :: n in dirs && n != dll.dir && !StartsWith(n, prefix + "_") ==> n in r && r[n] == dirs[n])
  {
  }

  /** A string contains each of its suffixes. */
  lemma {:induction false} ContainsSuffix(a: string, b: string)
    requires |b| > 0
    ensures Contains(a + b, b)
    decreases |a|
  {
    if |a| > 0 {
      assert (a + b)[1..] == a[1..] + b;
      ContainsSuffix(a[1..], b);
    } else {
      assert a + b == b;
    }
  }

  /** The directory of the current script is never residue: its name ends with the hash. */
  lemma ScriptDirSurvives(pathHash: bv32, hash: bv64)
    ensures !Stale(ScriptDll(pathHash, hash).dir, HashText32(pathHash), HashText64(hash))
  {
    ContainsSuffix(HashText32(pathHash) + "_", HashText64(hash));
  }

  lemma ProjectDirSurvives(name: string, hash: bv64)
    ensures !Stale(ProjectDll(name, hash).dir, name, HashText64(hash))
  {
    ContainsSuffix(name + "_", HashText64(hash));
  }

  /** A proof step of `XorStep`: unfolds `Xor` to the bit-vector operator. */
  lemma XorDef(a: bv64, b: bv64)
    ensures Xor(a, b) == a ^ b
  {
  }

  /** A proof step of `XorStep`: the bit-vector fact on its own, kept apart from the unfolding
      of `Xor`, which the solver handles poorly together. */
  lemma XorSwap(h: bv64, x: bv64, y: bv64)
    ensures h ^ x ^ y == (h ^ y) ^ x
  {
  }

  /** Xor-ing two hashes into an accumulator in either order gives the same value. */
  lemma XorStep(h: bv64, x: bv64, y: bv64)
    ensures Xor(Xor(h, x), y) == Xor(Xor(h, y), x)
  {
    XorDef(h, x);
    XorDef(h, y);
    XorDef(h ^ x, y);
    XorDef(h ^ y, x);
    XorSwap(h, x, y);
  }

  /** Xor-ing in one more hash first or last gives the same fold. */
  lemma {:induction false} XorFoldPull(h: bv64, x: bv64, texts: seq<string>, xxHash64: string -> bv64)
    ensures XorFold(Xor(h, x), texts, xxHash64) == Xor(XorFold(h, texts, xxHash64), x)
    decreases |texts|
  {
    if |texts| > 0 {
      var y := xxHash64(texts[0]);
      XorStep(h, x, y);
      XorFoldPull(Xor(h, y), x, texts[1..], xxHash64);
    }
  }

  /** The fold over a list with one element taken out, xor-ed with that element's hash. */
  lemma {:induction false} XorFoldRemove(h: bv64, texts: seq<string>, k: nat, xxHash64: string -> bv64)
    requires k < |texts|
    ensures XorFold(h, texts, xxHash64) == Xor(XorFold(h, texts[..k] + texts[k + 1..], xxHash64), xxHash64(texts[k]))
    decreases |texts|
  {
    if k == 0 {
      assert texts[..0] + texts[1..] == texts[1..];
      XorFoldPull(h, xxHash64(texts[0]), texts[1..], xxHash64);
    } else {
      XorFoldRemove(Xor(h, xxHash64(texts[0])), texts[1..], k - 1, xxHash64);
      assert (texts[..k] + texts[k + 1..])[0] == texts[0];
      assert (texts[..k] + texts[k + 1..])[1..] == texts[1..][..k - 1] + texts[1..][k..];
    }
  }

  /** The project hash does not depend on the order in which the source files are listed. */
  lemma {:induction false} XorFoldOrderIndependent(h: bv64, a: seq<string>, b: seq<string>, xxHash64: string -> bv64)
    requires multiset(a) == multiset(b)
    ensures XorFold(h, a, xxHash64) == XorFold(h, b, xxHash64)
    decreases |a|
  {
    if |a| > 0 {
      assert a[0] in multiset(b);
      var k :| 0 <= k < |b| && b[k] == a[0];
      var rest := b[..k] + b[k + 1..];
      SameRest(a, b, k);
      XorFoldOrderIndependent(h, a[1..], rest, xxHash64);
      XorFoldPull(h, xxHash64(a[0]), a[1..], xxHash64);
      XorFoldRemove(h, b, k, xxHash64);
    } else {
      assert b == [];
    }
  }

  /** Taking the first text of `a` out of `a`, and an equal text out of `b`, leaves equal
      multisets. */
  lemma SameRest(a: seq<string>, b: seq<string>, k: nat)
    requires multiset(a) == multiset(b) && |a| > 0 && k < |b| && b[k] == a[0]
    ensures multiset(a[1..]) == multiset(b[..k] + b[k + 1..])
  {
    assert b == b[..k] + [b[k]] + b[k + 1..];
    assert multiset(b[..k] + b[k + 1..]) == multiset(b) - multiset{a[0]};
    assert a == [a[0]] + a[1..];
  }
}
