/** The parameters of a Nuke `Tool` delegate as a record (`ToolArguments.cs`) and the `|` operator
    that merges two of them field by field. `null` is `None`; a multicast delegate (`Logger`,
    `ExitHandler`) is its invocation list, `null` being the empty list. The dictionary merge of
    the environment variables is a Nuke helper outside the model: a function parameter. */
module ToolArgs {
  import opened Wrappers
  import opened Strings

  /** One delegate in an invocation list. */
  datatype Handler = Handler(id: nat)

  type Env = map<string, string>

  datatype ToolArguments = ToolArguments(
    arguments: Option<string>,
    workingDirectory: Option<string>,
    environmentVariables: Option<Env>,
    timeout: Option<int>,
    logOutput: Option<bool>,
    logInvocation: Option<bool>,
    logger: seq<Handler>,
    exitHandler: seq<Handler>)

  /** `new ToolArguments()`: every field at its default. */
  const Empty := ToolArguments(None, None, None, None, None, None, [], [])

  /** `IReadOnlyDictionary.Merge(this a, b)` */
  type EnvMerge = (Option<Env>, Option<Env>) -> Option<Env>

  /** `new[] { a, b }.Where(s => !string.IsNullOrWhiteSpace(s))` joined with `' '`. */
  function JoinArguments(a: Option<string>, b: Option<string>): (r: string)
    ensures !IsNullOrWhiteSpace(a) && !IsNullOrWhiteSpace(b) ==> r == a.value + " " + b.value
    ensures !IsNullOrWhiteSpace(a) && IsNullOrWhiteSpace(b) ==> r == a.value
    ensures IsNullOrWhiteSpace(a) && !IsNullOrWhiteSpace(b) ==> r == b.value
    ensures IsNullOrWhiteSpace(a) && IsNullOrWhiteSpace(b) ==> r == ""
  {
    var kept := (if IsNullOrWhiteSpace(a) then [] else [a.value]) + (if IsNullOrWhiteSpace(b) then [] else [b.value]);
    assert !IsNullOrWhiteSpace(a) && !IsNullOrWhiteSpace(b) ==> Join(" ", kept) == a.value + " " + b.value by {
      if !IsNullOrWhiteSpace(a) && !IsNullOrWhiteSpace(b) {
        JoinTwo(" ", a.value, b.value);
      }
    }
    Join(" ", kept)
  }

  /** `Math.Max(a?.Timeout ?? -1, b?.Timeout ?? -1)`, `null` when negative. */
  function MaxTimeout(a: Option<int>, b: Option<int>): (r: Option<int>)
    ensures r.Some? <==> (a.Some? && a.value >= 0) || (b.Some? && b.value >= 0)
    ensures r.Some? ==> (r == a || r == b) && (a.Some? ==> r.value >= a.value) && (b.Some? ==> r.value >= b.value)
  {
    var t := if a.GetOr(-1) >= b.GetOr(-1) then a.GetOr(-1) else b.GetOr(-1);
    if t < 0 then None else Some(t)
  }

  /** The nullable OR of `LogOutput` and `LogInvocation`. */
  function OrFlags(a: Option<bool>, b: Option<bool>): (r: Option<bool>)
    ensures r.None? <==> a.None? && b.None?
    ensures r == Some(true) <==> a == Some(true) || b == Some(true)
  {
    if a.None? && b.None? then None else Some(a.GetOr(false) || b.GetOr(false))
  }

  function ArgumentsOf(a: Option<ToolArguments>): Option<string> {
    if a.None? then None else a.value.arguments
  }

  function WorkingDirectoryOf(a: Option<ToolArguments>): Option<string> {
    if a.None? then None else a.value.workingDirectory
  }

  function EnvironmentVariablesOf(a: Option<ToolArguments>): Option<Env> {
    if a.None? then None else a.value.environmentVariables
  }

  function TimeoutOf(a: Option<ToolArguments>): Option<int> {
    if a.None? then None else a.value.timeout
  }

  function LogOutputOf(a: Option<ToolArguments>): Option<bool> {
    if a.None? then None else a.value.logOutput
  }

  function LogInvocationOf(a: Option<ToolArguments>): Option<bool> {
    if a.None? then None else a.value.logInvocation
  }

  function LoggerOf(a: Option<ToolArguments>): seq<Handler> {
    if a.None? then [] else a.value.logger
  }

  function ExitHandlerOf(a: Option<ToolArguments>): seq<Handler> {
    if a.None? then [] else a.value.exitHandler
  }

  /** `ToolArguments operator |(a, b)` */
  function Merge(a: Option<ToolArguments>, b: Option<ToolArguments>, merge: EnvMerge): (r: ToolArguments)
    ensures r.arguments.Some?
    ensures r.workingDirectory == if IsNullOrWhiteSpace(WorkingDirectoryOf(b)) then WorkingDirectoryOf(a) else WorkingDirectoryOf(b)
    ensures a.None? ==> r.environmentVariables.None?
    ensures a.Some? ==> r.environmentVariables == merge(a.value.environmentVariables, EnvironmentVariablesOf(b))
    ensures r.logger == LoggerOf(a) + LoggerOf(b) && r.exitHandler == ExitHandlerOf(a) + ExitHandlerOf(b)
  {
    ToolArguments(
      Some(JoinArguments(ArgumentsOf(a), ArgumentsOf(b))),
      if IsNullOrWhiteSpace(WorkingDirectoryOf(b)) then WorkingDirectoryOf(a) else WorkingDirectoryOf(b),
      if a.None? then None else merge(a.value.environmentVariables, EnvironmentVariablesOf(b)),
      MaxTimeout(TimeoutOf(a), TimeoutOf(b)),
      OrFlags(LogOutputOf(a), LogOutputOf(b)),
      OrFlags(LogInvocationOf(a), LogInvocationOf(b)),
      LoggerOf(a) + LoggerOf(b),
      ExitHandlerOf(a) + ExitHandlerOf(b))
  }

  // ---- Properties ------------------------------------------------------------------------

  /** Merging ignores how the merges are grouped, for every field but the environment variables
      (whose merge is outside the model). */
  lemma MergeAssociative(a: ToolArguments, b: ToolArguments, c: ToolArguments, merge: EnvMerge)
    ensures var l := Merge(Some(Merge(Some(a), Some(b), merge)), Some(c), merge);
            var r := Merge(Some(a), Some(Merge(Some(b), Some(c), merge)), merge);
      l.arguments == r.arguments && l.workingDirectory == r.workingDirectory && l.timeout == r.timeout
      && l.logOutput == r.logOutput && l.logInvocation == r.logInvocation
      && l.logger == r.logger && l.exitHandler == r.exitHandler
  {
    JoinArgumentsAssociative(a.arguments, b.arguments, c.arguments);
  }

  lemma JoinArgumentsAssociative(a: Option<string>, b: Option<string>, c: Option<string>)
    ensures JoinArguments(Some(JoinArguments(a, b)), c) == JoinArguments(a, Some(JoinArguments(b, c)))
  {
    if !IsNullOrWhiteSpace(a) && !IsNullOrWhiteSpace(b) {
      NotBlankJoined(a.value, b.value);
    }
    if !IsNullOrWhiteSpace(b) && !IsNullOrWhiteSpace(c) {
      NotBlankJoined(b.value, c.value);
    }
    assert IsNullOrWhiteSpace(Some(""));
  }

  /** Joining a non-blank string keeps the result non-blank. */
  lemma NotBlankJoined(x: string, y: string)
    requires !AllWhiteSpace(x)
    ensures !AllWhiteSpace(x + " " + y)
  {
    var i :| 0 <= i < |x| && !IsWhiteSpace(x[i]);
    assert (x + " " + y)[i] == x[i];
  }

  /** With nothing on the right, the left operand's fields survive, its arguments unless blank. */
  lemma MergeEmptyRight(a: ToolArguments, merge: EnvMerge)
    ensures var r := Merge(Some(a), Some(Empty), merge);
      r.workingDirectory == a.workingDirectory
      && r.arguments == Some(if IsNullOrWhiteSpace(a.arguments) then "" else a.arguments.value)
      && r.logger == a.logger && r.exitHandler == a.exitHandler
      && r.logOutput == a.logOutput && r.logInvocation == a.logInvocation
      && (a.timeout.Some? && a.timeout.value >= 0 ==> r.timeout == a.timeout)
  {
  }
}
