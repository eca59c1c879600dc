/** The build-plugin entry point (`Plugins.cs`): reuse of an earlier intermediate assembly, the
    three plugin providers, deduplication of the build interfaces and the text of the intermediate
    C# script that derives one build class from the main build class and every plugin interface.

    The providers, the compile of each plugin and the loading of assemblies are outside the model:
    what each provider gathers is a function parameter, a plugin is the list of build interfaces
    its compile yields, and the run ends in an `Outcome` naming the delegate it would call. */
module Plugins {
  import opened Wrappers
  import opened Strings
  import opened Paths
  import opened Importables
  import opened DotnetCommons
  import opened Collections

  /** The three plugin providers, in the order `Execute` creates them. */
  datatype Engine = ImplicitBuildInterface | CSharpScript | DotnetProject

  const Engines: seq<Engine> := [ImplicitBuildInterface, CSharpScript, DotnetProject]

  /** A gathered plugin: its source path and the build interfaces compiling it yields. */
  datatype PluginSource = PluginSource(sourcePath: AbsolutePath, buildInterfaces: seq<Importable>)

  /** What `Execute` does that is visible from outside, in order. */
  datatype Event =
    | Initialize(engine: Engine)
    | Gather(engine: Engine)
    | CompilePlugin(sourcePath: AbsolutePath)
    | WriteScript(text: string)

  /** How `Execute` ends: the default build delegate, the intermediate assembly's entry point,
      or the failed `Assert.NotNull` on the entry assembly's location. */
  datatype Outcome = DefaultExecute | ExecuteExternal(dll: DllPath) | AssertionFailed

  /** `GetCSharpName(type)`: the simple name for a type without namespace, else the full name. */
  function GetCSharpName(t: TypeInfo): (r: string)
    ensures t.namespace.None? ==> r == t.name
    ensures t.namespace.Some? ==> r == t.fullName
  {
    if t.namespace.None? then t.name else t.fullName
  }

  /** `AttemptReuseCompiledPlugins()`: the `--ReuseCompiled` argument is present, or the
      `REUSE_COMPILED` environment variable reads as the integer 1. */
  function AttemptReuseCompiledPlugins(hasReuseArgument: bool, reuseVariable: Option<int>): (r: bool)
    ensures r <==> hasReuseArgument || (reuseVariable.Some? && reuseVariable.value == 1)
  {
    hasReuseArgument || reuseVariable == Some(1)
  }

  // ---- Script synthesis ------------------------------------------------------------------

  /** `sources.SelectMany(s => s.BuildInterfaces)` */
  function BuildInterfaces(sources: seq<PluginSource>): (r: seq<Importable>)
    ensures |sources| == 1 ==> r == sources[0].buildInterfaces
    decreases |sources|
  {
    if |sources| == 0 then [] else sources[0].buildInterfaces + BuildInterfaces(sources[1..])
  }

  /** The reference line of one kept interface: `#load` of its source, preceded by a comment
      naming its assembly, or `#r` of its assembly. */
  function RefLine(p: Importable, sep: char): string {
    if p.importViaSource
    then "\n// dll: " + p.iface.assemblyLocation + "\n#load \"" + ImportableText(p, sep) + "\""
    else "#r \"" + ImportableText(p, sep) + "\""
  }

  /** `.Where(p => p.Source != null).Select(...)` */
  function RefLines(ps: seq<Importable>, sep: char): (r: seq<string>)
    ensures |r| <= |ps|
    decreases |ps|
  {
    if |ps| == 0 then []
    else (if ps[0].source.Some? then [RefLine(ps[0], sep)] else []) + RefLines(ps[1..], sep)
  }

  /** `dllRefs`: one reference line per distinct key, joined with the platform newline. */
  function DllRefs(interfaces: seq<Importable>, sep: char, newline: string): string {
    Join(newline, RefLines(DistinctBy(interfaces, p => ImportableText(p, sep)), sep))
  }

  /** The C# name of every interface, in order. */
  function Names(interfaces: seq<Importable>): (r: seq<string>)
    ensures |r| == |interfaces|
    ensures forall k :: 0 <= k < |r| ==> r[k] == GetCSharpName(interfaces[k].iface)
  {
    seq(|interfaces|, k requires 0 <= k < |interfaces| => GetCSharpName(interfaces[k].iface))
  }

  /** `interfaces`: every build interface, in order, duplicates included. */
  function InterfaceList(interfaces: seq<Importable>): string {
    Join(", ", Names(interfaces))
  }

  const NugetReference: string := "#r \"nuget: System.Linq.Expressions, 4.3.0\"\n"
  const ClassHead: string := "public class OutputBuildClass : "
  const ClassBody: string := "\n{\n    public static int ExecuteWithPlugins() => Execute<OutputBuildClass>();\n}"

  /** The `#r` line of an assembly. */
  function AssemblyReference(location: string): string {
    "#r \"" + location + "\""
  }

  /** The intermediate script (a raw string literal; its line breaks are `\n`). */
  function ScriptText(currentAssembly: string, dllRefs: string, baseName: string, interfaces: string): string {
    NugetReference + AssemblyReference(currentAssembly) + "\n" + dllRefs + "\n\n"
    + ClassHead + baseName + ", " + interfaces + ClassBody
  }

  /** The script written for the gathered plugins. */
  function IntermediateScript(sources: seq<PluginSource>, baseType: TypeInfo, currentAssembly: string,
                              sep: char, newline: string): string {
    var interfaces := BuildInterfaces(sources);
    ScriptText(currentAssembly, DllRefs(interfaces, sep, newline), GetCSharpName(baseType), InterfaceList(interfaces))
  }

  /** The script references the entry assembly, and the class it declares names every
      interface of the list. */
  lemma {:induction false} ScriptTextNamesAll(currentAssembly: string, dllRefs: string, baseName: string,
                                              names: seq<string>, k: nat)
    requires k < |names|
    ensures var text := ScriptText(currentAssembly, dllRefs, baseName, Join(", ", names));
      Contains(text, AssemblyReference(currentAssembly)) && Contains(text, names[k])
  {
    var text := ScriptText(currentAssembly, dllRefs, baseName, Join(", ", names));
    var tail := "\n" + dllRefs + "\n\n" + ClassHead + baseName + ", " + Join(", ", names) + ClassBody;
    assert text == NugetReference + AssemblyReference(currentAssembly) + tail;
    ContainsInfix(NugetReference, AssemblyReference(currentAssembly), tail);
    var before := NugetReference + AssemblyReference(currentAssembly) + "\n" + dllRefs + "\n\n" + ClassHead + baseName + ", ";
    assert text == before + Join(", ", names) + ClassBody;
    ContainsJoined(", ", names, k, before, ClassBody);
  }

  /** The script references the entry assembly, and the class it declares derives from every
      gathered build interface, duplicates included. */
  lemma {:induction false} ScriptNamesEveryInterface(sources: seq<PluginSource>, baseType: TypeInfo, currentAssembly: string,
                                                     sep: char, newline: string, k: nat)
    requires k < |BuildInterfaces(sources)|
    ensures var text := IntermediateScript(sources, baseType, currentAssembly, sep, newline);
      Contains(text, AssemblyReference(currentAssembly))
      && Contains(text, GetCSharpName(BuildInterfaces(sources)[k].iface))
  {
    var interfaces := BuildInterfaces(sources);
    ScriptTextNamesAll(currentAssembly, DllRefs(interfaces, sep, newline), GetCSharpName(baseType), Names(interfaces), k);
  }

  // ---- Execute ---------------------------------------------------------------------------

  /** Everything the providers gather, provider after provider. */
  function Gathered(engines: seq<Engine>, gather: Engine -> seq<PluginSource>): seq<PluginSource>
    decreases |engines|
  {
    if |engines| == 0 then [] else Gathered(engines[..|engines| - 1], gather) + gather(engines[|engines| - 1])
  }

  function InitEvents(engines: seq<Engine>): (r: seq<Event>)
    ensures |r| == |engines|
    ensures forall k :: 0 <= k < |r| ==> r[k] == Initialize(engines[k])
  {
    seq(|engines|, k requires 0 <= k < |engines| => Initialize(engines[k]))
  }

  function GatherEvents(engines: seq<Engine>): (r: seq<Event>)
    ensures |r| == |engines|
    ensures forall k :: 0 <= k < |r| ==> r[k] == Gather(engines[k])
  {
    seq(|engines|, k requires 0 <= k < |engines| => Gather(engines[k]))
  }

  function CompileEvents(sources: seq<PluginSource>): (r: seq<Event>)
    ensures |r| == |sources|
    ensures forall k :: 0 <= k < |r| ==> r[k] == CompilePlugin(sources[k].sourcePath)
  {
    seq(|sources|, k requires 0 <= k < |sources| => CompilePlugin(sources[k].sourcePath))
  }

  /** The events of a run that does not reuse: every provider initialised, then every provider
      asked for its plugins. */
  function Prelude(): seq<Event> {
    InitEvents(Engines) + GatherEvents(Engines)
  }

  /** The reuse path ends the run: a `NoPlugins.txt` marker, or an intermediate script whose
      compiled dll is already present. */
  predicate Reused(reuse: bool, noPluginsMarker: bool, scriptOnDisk: Option<string>, dirs: map<string, set<string>>,
                   scriptPath: string, xxHash32: string -> bv32, xxHash64: string -> bv64)
  {
    reuse && (noPluginsMarker
              || (scriptOnDisk.Some?
                  && var dll := ScriptDll(xxHash32(scriptPath), xxHash64(scriptOnDisk.value));
                     dll.dir in dirs && dll.file in dirs[dll.dir]))
  }

  /** `engine.InitializeEngine(context)` for every provider, in order. */
  method InitializeEngines() returns (events: seq<Event>)
    ensures events == InitEvents(Engines)
  {
    events := [];
    for k := 0 to |Engines|
      invariant events == InitEvents(Engines[..k])
    {
      events := events + [Initialize(Engines[k])];
    }
    assert Engines[..|Engines|] == Engines;
  }

  /** `engines.SelectMany(e => e.GatherPlugins(context)).ToList()` */
  method GatherPlugins(gather: Engine -> seq<PluginSource>) returns (events: seq<Event>, sources: seq<PluginSource>)
    ensures events == GatherEvents(Engines)
    ensures sources == Gathered(Engines, gather)
  {
    events, sources := [], [];
    for k := 0 to |Engines|
      invariant events == GatherEvents(Engines[..k])
      invariant sources == Gathered(Engines[..k], gather)
    {
      assert Engines[..k + 1][..k] == Engines[..k];
      events := events + [Gather(Engines[k])];
      sources := sources + gather(Engines[k]);
    }
    assert Engines[..|Engines|] == Engines;
  }

  /** `sources.AsParallel().ForAll(s => s.Compile(context))`, one plugin after the other. */
  method CompilePlugins(sources: seq<PluginSource>) returns (events: seq<Event>)
    ensures events == CompileEvents(sources)
  {
    events := [];
    for k := 0 to |sources|
      invariant events == CompileEvents(sources[..k])
    {
      events := events + [CompilePlugin(sources[k].sourcePath)];
    }
    assert sources[..|sources|] == sources;
  }

  /** The output root after `CompileScript`: unchanged on a cache hit, else recompiled and cleaned. */
  function ScriptCompiled(dirs: map<string, set<string>>, scriptPath: string, text: string, xxHash32: string -> bv32,
                          xxHash64: string -> bv64, produced: set<string>): map<string, set<string>> {
    var dll := ScriptDll(xxHash32(scriptPath), xxHash64(text));
    if dll.dir in dirs && dll.file in dirs[dll.dir] then dirs
    else AfterCompile(dirs, dll, produced, HashText32(xxHash32(scriptPath)), HashText64(xxHash64(text)))
  }

  /** `Execute(defaultExecute)`. `gather` is what each provider finds, `scriptOnDisk` the text of
      `Intermediate.csx` when it exists, `currentAssembly` the entry assembly's location, `root`
      the `IntermediateAssemblies` directory and `produced` what compiling the script writes. */
  method Execute(root: OutputRoot, hasReuseArgument: bool, reuseVariable: Option<int>, noPluginsMarker: bool,
                 scriptOnDisk: Option<string>, gather: Engine -> seq<PluginSource>, baseType: TypeInfo,
                 currentAssembly: Option<string>, scriptPath: string, sep: char, newline: string,
                 xxHash32: string -> bv32, xxHash64: string -> bv64, produced: set<string>)
    returns (r: Outcome, events: seq<Event>)
    modifies root
    ensures var reuse := AttemptReuseCompiledPlugins(hasReuseArgument, reuseVariable);
      reuse && noPluginsMarker ==> r == DefaultExecute && events == [] && root.dirs == old(root.dirs)
    ensures var reuse := AttemptReuseCompiledPlugins(hasReuseArgument, reuseVariable);
      Reused(reuse, noPluginsMarker, scriptOnDisk, old(root.dirs), scriptPath, xxHash32, xxHash64) && !noPluginsMarker
      ==> r == ExecuteExternal(ScriptDll(xxHash32(scriptPath), xxHash64(scriptOnDisk.value)))
          && events == [] && root.dirs == old(root.dirs)
    ensures var reuse := AttemptReuseCompiledPlugins(hasReuseArgument, reuseVariable);
      !Reused(reuse, noPluginsMarker, scriptOnDisk, old(root.dirs), scriptPath, xxHash32, xxHash64)
      && Gathered(Engines, gather) == []
      ==> r == DefaultExecute && events == Prelude() && root.dirs == old(root.dirs)
    ensures var reuse := AttemptReuseCompiledPlugins(hasReuseArgument, reuseVariable);
      var sources := Gathered(Engines, gather);
      !Reused(reuse, noPluginsMarker, scriptOnDisk, old(root.dirs), scriptPath, xxHash32, xxHash64)
      && sources != [] && currentAssembly.None?
      ==> r == AssertionFailed && events == Prelude() + CompileEvents(sources) && root.dirs == old(root.dirs)
    ensures var reuse := AttemptReuseCompiledPlugins(hasReuseArgument, reuseVariable);
      var sources := Gathered(Engines, gather);
      !Reused(reuse, noPluginsMarker, scriptOnDisk, old(root.dirs), scriptPath, xxHash32, xxHash64)
      && sources != [] && currentAssembly.Some?
      ==> var text := IntermediateScript(sources, baseType, currentAssembly.value, sep, newline);
          var dll := ScriptDll(xxHash32(scriptPath), xxHash64(text));
          r == ExecuteExternal(dll)
          && events == Prelude() + CompileEvents(sources) + [WriteScript(text)]
          && root.dirs == ScriptCompiled(old(root.dirs), scriptPath, text, xxHash32, xxHash64, produced)
  {
    var reused := TryReuse(root, AttemptReuseCompiledPlugins(hasReuseArgument, reuseVariable), noPluginsMarker,
                           scriptOnDisk, scriptPath, xxHash32, xxHash64);
    if reused.Some? {
      return reused.value, [];
    }
    r, events := BuildIntermediate(root, gather, baseType, currentAssembly, scriptPath, sep, newline,
                                   xxHash32, xxHash64, produced);
  }

  /** The reuse branch of `Execute`: the outcome it ends the run with, if any. */
  method TryReuse(root: OutputRoot, reuse: bool, noPluginsMarker: bool, scriptOnDisk: Option<string>,
                  scriptPath: string, xxHash32: string -> bv32, xxHash64: string -> bv64)
    returns (reused: Option<Outcome>)
    ensures reused.Some? <==> Reused(reuse, noPluginsMarker, scriptOnDisk, root.dirs, scriptPath, xxHash32, xxHash64)
    ensures reuse && noPluginsMarker ==> reused == Some(DefaultExecute)
    ensures reused.Some? && !noPluginsMarker
            ==> reused == Some(ExecuteExternal(ScriptDll(xxHash32(scriptPath), xxHash64(scriptOnDisk.value))))
  {
    reused := None;
    if reuse {
      if noPluginsMarker {
        return Some(DefaultExecute);
      }
      if scriptOnDisk.Some? {
        var dll := ScriptDll(xxHash32(scriptPath), xxHash64(scriptOnDisk.value));
        if root.FileExists(dll.dir, dll.file) {
          return Some(ExecuteExternal(dll));
        }
      }
    }
  }

  /** The rest of `Execute`: providers, plugins, script text and its compile. */
  method BuildIntermediate(root: OutputRoot, gather: Engine -> seq<PluginSource>, baseType: TypeInfo,
                           currentAssembly: Option<string>, scriptPath: string, sep: char, newline: string,
                           xxHash32: string -> bv32, xxHash64: string -> bv64, produced: set<string>)
    returns (r: Outcome, events: seq<Event>)
    modifies root
    ensures Gathered(Engines, gather) == [] ==> r == DefaultExecute && events == Prelude() && root.dirs == old(root.dirs)
    ensures var sources := Gathered(Engines, gather);
      sources != [] && currentAssembly.None?
      ==> r == AssertionFailed && events == Prelude() + CompileEvents(sources) && root.dirs == old(root.dirs)
    ensures var sources := Gathered(Engines, gather);
      sources != [] && currentAssembly.Some?
      ==> var text := IntermediateScript(sources, baseType, currentAssembly.value, sep, newline);
          var dll := ScriptDll(xxHash32(scriptPath), xxHash64(text));
          r == ExecuteExternal(dll)
          && events == Prelude() + CompileEvents(sources) + [WriteScript(text)]
          && root.dirs == ScriptCompiled(old(root.dirs), scriptPath, text, xxHash32, xxHash64, produced)
  {
    var initialized := InitializeEngines();
    var gathered, sources := GatherPlugins(gather);
    events := initialized + gathered;
    assert events == Prelude();
    if sources == [] {
      return DefaultExecute, events;
    }
    var later;
    r, later := BuildFromSources(root, sources, baseType, currentAssembly, scriptPath, sep, newline,
                                 xxHash32, xxHash64, produced);
    events := events + later;
  }

  /** `BuildIntermediate` once some plugin was found: compile the plugins, then write and compile
      the intermediate script that derives from all of them. */
  method BuildFromSources(root: OutputRoot, sources: seq<PluginSource>, baseType: TypeInfo,
                          currentAssembly: Option<string>, scriptPath: string, sep: char, newline: string,
                          xxHash32: string -> bv32, xxHash64: string -> bv64, produced: set<string>)
    returns (r: Outcome, events: seq<Event>)
    modifies root
    ensures currentAssembly.None? ==> r == AssertionFailed && events == CompileEvents(sources) && root.dirs == old(root.dirs)
    ensures currentAssembly.Some?
      ==> var text := IntermediateScript(sources, baseType, currentAssembly.value, sep, newline);
          r == ExecuteExternal(ScriptDll(xxHash32(scriptPath), xxHash64(text)))
          && events == CompileEvents(sources) + [WriteScript(text)]
          && root.dirs == ScriptCompiled(old(root.dirs), scriptPath, text, xxHash32, xxHash64, produced)
  {
    events := CompilePlugins(sources);
    if currentAssembly.None? {
      return AssertionFailed, events;
    }
    var text := IntermediateScript(sources, baseType, currentAssembly.value, sep, newline);
    events := events + [WriteScript(text)];
    r := CompileIntermediate(root, scriptPath, text, xxHash32, xxHash64, produced);
  }

  /** `ExecuteExternal(DotnetCommon.CompileScript(intermediateScriptPath, intermediateAssembliesRoot))` */
  method CompileIntermediate(root: OutputRoot, scriptPath: string, text: string, xxHash32: string -> bv32,
                             xxHash64: string -> bv64, produced: set<string>) returns (r: Outcome)
    modifies root
    ensures var dll := ScriptDll(xxHash32(scriptPath), xxHash64(text));
      r == ExecuteExternal(dll)
      && root.dirs == ScriptCompiled(old(root.dirs), scriptPath, text, xxHash32, xxHash64, produced)
  {
    var c := CompileScript(root, scriptPath, text, xxHash32, xxHash64, produced);
    r := ExecuteExternal(c.dll);
  }

  // ---- Properties ------------------------------------------------------------------------

  /** The providers are initialised in the order Implicit, Script, Project, all before the first
      is asked for plugins, and the plugins are gathered in the same provider order. */
  lemma PreludeOrder(gather: Engine -> seq<PluginSource>)
    ensures Prelude() == [Initialize(ImplicitBuildInterface), Initialize(CSharpScript), Initialize(DotnetProject),
                          Gather(ImplicitBuildInterface), Gather(CSharpScript), Gather(DotnetProject)]
    ensures Gathered(Engines, gather) == gather(ImplicitBuildInterface) + gather(CSharpScript) + gather(DotnetProject)
  {
    var e1, e2 := Engines[..1], Engines[..2];
    assert e2[..1] == e1 && e1[..0] == [];
    assert Gathered(e1, gather) == gather(ImplicitBuildInterface);
    assert Gathered(e2, gather) == gather(ImplicitBuildInterface) + gather(CSharpScript);
  }

  /** An interface without a source emits no reference line; one with a source emits `#load`
      when it is imported via its source and `#r` otherwise. */
  lemma RefLineCases(p: Importable, sep: char)
    ensures p.source.None? ==> RefLines([p], sep) == []
    ensures p.source.Some? && p.importViaSource
            ==> RefLines([p], sep) == ["\n// dll: " + p.iface.assemblyLocation + "\n#load \"" + ToText(p.source.value, sep) + "\""]
    ensures p.source.Some? && !p.importViaSource
            ==> RefLines([p], sep) == ["#r \"" + p.iface.assemblyLocation + "\""]
  {
    assert [p][1..] == [];
  }

  /** The reference lines of a list are those of its parts, in order. */
  lemma {:induction false} RefLinesConcat(a: seq<Importable>, b: seq<Importable>, sep: char)
    ensures RefLines(a + b, sep) == RefLines(a, sep) + RefLines(b, sep)
    decreases |a|
  {
    if |a| > 0 {
      assert (a + b)[1..] == a[1..] + b;
      RefLinesConcat(a[1..], b, sep);
    } else {
      assert a + b == b;
    }
  }

  /** Joining the names of two lists of interfaces: nothing is deduplicated or reordered. */
  lemma {:induction false} InterfaceListConcat(a: seq<Importable>, b: seq<Importable>)
    requires |a| > 0 && |b| > 0
    ensures InterfaceList(a + b) == InterfaceList(a) + ", " + InterfaceList(b)
    decreases |a|
  {
    if |a| == 1 {
      assert Names(a + b)[1..] == Names(b);
    } else {
      assert Names(a + b)[1..] == Names(a[1..] + b);
      assert Names(a)[1..] == Names(a[1..]);
      InterfaceListConcat(a[1..], b);
    }
  }
}
