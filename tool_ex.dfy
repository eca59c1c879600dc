/** The extended tool parameters of `ToolEx.cs`: `ToolExArguments` adds a standard-input writer
    to `ToolArguments`, three `|` operators merge the two kinds of record, a propagated tool
    merges the arguments it was created with and those of each call, and `GetToolPathOverride`
    picks the runner of a `.dll` or `.exe` tool. */
module ToolExs {
  import opened Wrappers
  import opened Strings
  import opened ToolArgs

  /** `ToolExArguments(ToolArgs, Input)`; `Input` is an invocation list like `Logger`. */
  datatype ToolExArguments = ToolExArguments(toolArgs: ToolArguments, input: seq<Handler>)

  function ToolArgsOf(a: Option<ToolExArguments>): Option<ToolArguments> {
    if a.None? then None else Some(a.value.toolArgs)
  }

  function InputOf(a: Option<ToolExArguments>): seq<Handler> {
    if a.None? then [] else a.value.input
  }

  /** `ToolExArguments | ToolExArguments`: the tool arguments merged, both inputs in order. */
  function MergeEx(a: Option<ToolExArguments>, b: Option<ToolExArguments>, merge: EnvMerge): (r: ToolExArguments)
    ensures r.input == InputOf(a) + InputOf(b)
    ensures r.toolArgs.logger == LoggerOf(ToolArgsOf(a)) + LoggerOf(ToolArgsOf(b))
  {
    ToolExArguments(Merge(ToolArgsOf(a), ToolArgsOf(b), merge), InputOf(a) + InputOf(b))
  }

  /** `ToolExArguments | ToolArguments`: only the left input survives. */
  function MergeExTool(a: Option<ToolExArguments>, b: Option<ToolArguments>, merge: EnvMerge): (r: ToolExArguments)
    ensures r.input == InputOf(a)
    ensures r.toolArgs.workingDirectory == if IsNullOrWhiteSpace(WorkingDirectoryOf(b)) then WorkingDirectoryOf(ToolArgsOf(a))
                                            else WorkingDirectoryOf(b)
  {
    ToolExArguments(Merge(ToolArgsOf(a), b, merge), InputOf(a))
  }

  /** `ToolArguments | ToolExArguments`: only the right input survives. */
  function MergeToolEx(a: Option<ToolArguments>, b: Option<ToolExArguments>, merge: EnvMerge): (r: ToolExArguments)
    ensures r.input == InputOf(b)
    ensures r.toolArgs.workingDirectory == if IsNullOrWhiteSpace(WorkingDirectoryOf(ToolArgsOf(b))) then WorkingDirectoryOf(a)
                                            else WorkingDirectoryOf(ToolArgsOf(b))
  {
    ToolExArguments(Merge(a, ToolArgsOf(b), merge), InputOf(b))
  }

  /** The arguments `PropagateToolExExecution.Execute` hands to its target: those it was created
      with, merged with those of the call. */
  function Propagated(propagate: Option<ToolExArguments>, callSite: ToolExArguments, merge: EnvMerge): ToolExArguments {
    MergeEx(propagate, Some(callSite), merge)
  }

  /** Which runner `GetToolPathOverride` puts in front of a tool path. */
  datatype Runner = Dotnet(path: string) | Mono(path: string)

  /** `GetToolPathOverride(toolPath)`: `DOTNET_EXE` or `dotnet` from the PATH for a `.dll`;
      `mono` from the PATH for an `.exe` on Unix outside WSL; nothing otherwise. `dotnetExe` is the
      executable named by `DOTNET_EXE`, `pathExecutable` the lookup on the PATH. */
  function GetToolPathOverride(toolPath: string, isUnix: bool, isWsl: bool, dotnetExe: Option<string>,
                               pathExecutable: string -> string): (r: Option<Runner>)
    ensures r.Some? && r.value.Dotnet? <==> EndsWithIgnoreCase(toolPath, ".dll")
    ensures r.Some? && r.value.Mono? <==> isUnix && !isWsl && EndsWithIgnoreCase(toolPath, ".exe")
                                          && !EndsWithIgnoreCase(toolPath, ".dll")
    ensures r.Some? && r.value.Dotnet? ==> r.value.path == dotnetExe.GetOr(pathExecutable("dotnet"))
    ensures r.Some? && r.value.Mono? ==> r.value.path == pathExecutable("mono")
  {
    if EndsWithIgnoreCase(toolPath, ".dll") then Some(Dotnet(dotnetExe.GetOr(pathExecutable("dotnet"))))
    else if isUnix && EndsWithIgnoreCase(toolPath, ".exe") && !isWsl then Some(Mono(pathExecutable("mono")))
    else None
  }

  // ---- Properties ------------------------------------------------------------------------

  /** The three operators agree on the tool arguments; they differ only in which inputs they keep. */
  lemma OperatorsAgree(a: ToolExArguments, b: ToolExArguments, merge: EnvMerge)
    ensures MergeExTool(Some(a), Some(b.toolArgs), merge).toolArgs == MergeEx(Some(a), Some(b), merge).toolArgs
    ensures MergeToolEx(Some(a.toolArgs), Some(b), merge).toolArgs == MergeEx(Some(a), Some(b), merge).toolArgs
    ensures MergeEx(Some(a), Some(b), merge).input
            == MergeExTool(Some(a), Some(b.toolArgs), merge).input + MergeToolEx(Some(a.toolArgs), Some(b), merge).input
  {
  }

  /** The call site's working directory, when given, overrides the propagated one; the arguments
      are the propagated ones followed by the call's; the call's input runs after the propagated. */
  lemma CallSiteOverrides(propagate: ToolExArguments, callSite: ToolExArguments, merge: EnvMerge)
    requires !IsNullOrWhiteSpace(propagate.toolArgs.arguments) && !IsNullOrWhiteSpace(callSite.toolArgs.arguments)
    ensures var r := Propagated(Some(propagate), callSite, merge);
      (!IsNullOrWhiteSpace(callSite.toolArgs.workingDirectory) ==> r.toolArgs.workingDirectory == callSite.toolArgs.workingDirectory)
      && (IsNullOrWhiteSpace(callSite.toolArgs.workingDirectory) ==> r.toolArgs.workingDirectory == propagate.toolArgs.workingDirectory)
      && r.toolArgs.arguments == Some(propagate.toolArgs.arguments.value + " " + callSite.toolArgs.arguments.value)
      && r.input == propagate.input + callSite.input
  {
  }

  /** A path cannot end with both `.dll` and `.exe`, whatever the case. */
  lemma DllIsNotExe(toolPath: string)
    requires EndsWithIgnoreCase(toolPath, ".dll")
    ensures !EndsWithIgnoreCase(toolPath, ".exe")
  {
    var n := |toolPath|;
    assert ToLower(toolPath[n - 3]) == 'd';
  }
}
