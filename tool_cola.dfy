/** The pure helpers of `ToolCola.cs`: the logger that classifies tool output by its words,
    environment-variable records, the PATH extension, the removal of ANSI escape sequences and
    the piping of one tool's output into the next one's standard input.

    The process environment (`EnvironmentInfo.Variables`, `EnvironmentInfo.Paths`) is a
    parameter; the standard input of the next process is a class that records what is written. */
module ToolColas {
  import opened Wrappers
  import opened Strings
  import opened Collections
  import opened ToolArgs

  datatype OutputType = Std | Err

  /** Nuke's `Output`: one line of a process's output and the stream it came from. */
  datatype Output = Output(kind: OutputType, text: string)

  // ---- Semantic logging ------------------------------------------------------------------

  datatype LogLevel = Debug | Information | Warning | Error

  /** What the semantic logger does with one line. */
  datatype LogAction = Skipped | Logged(level: LogLevel, text: string) | Forwarded(kind: OutputType, text: string)

  const InformationWords: seq<string> := ["success", "complete", "ready", "start", "***"]
  const ErrorWords: seq<string> := ["error", "fail"]

  /** The level the words of a line choose, if any: information words first, then "warning",
      then the error words. */
  function Level(l: string): Option<LogLevel> {
    if ContainsAnyIgnoreCase(l, InformationWords) then Some(Information)
    else if ContainsIgnoreCase(l, "warning") then Some(Warning)
    else if ContainsAnyIgnoreCase(l, ErrorWords) then Some(Error)
    else None
  }

  /** The logger `SemanticLogging(filter, normalOutputLogger)` installs, applied to one line `l`
      of type `t`; `hasNormalOutputLogger` says whether a `normalOutputLogger` was given. */
  function SemanticLog(filter: Option<string -> bool>, hasNormalOutputLogger: bool, t: OutputType, l: string): (r: LogAction)
    ensures r.Skipped? <==> filter.Some? && !filter.value(l)
    ensures !r.Skipped? && Level(l).Some? ==> r == Logged(Level(l).value, l)
    ensures r.Forwarded? <==> !r.Skipped? && Level(l).None? && hasNormalOutputLogger
    ensures r.Forwarded? ==> r == Forwarded(t, l)
    ensures !r.Skipped? && Level(l).None? && !hasNormalOutputLogger ==> r == Logged(Debug, l)
  {
    if filter.Some? && !filter.value(l) then Skipped
    else match Level(l)
      case Some(level) => Logged(level, l)
      case None => if hasNormalOutputLogger then Forwarded(t, l) else Logged(Debug, l)
  }

  /** The line with its ASCII letters in lower case. */
  function LowerCase(s: string): (r: string)
    ensures |r| == |s|
    ensures forall i :: 0 <= i < |s| ==> r[i] == ToLower(s[i])
  {
    seq(|s|, i requires 0 <= i < |s| => ToLower(s[i]))
  }

  lemma {:induction false} ContainsIgnoreCaseLower(s: string, p: string)
    ensures ContainsIgnoreCase(LowerCase(s), p) <==> ContainsIgnoreCase(s, p)
    decreases |s|
  {
    var t := LowerCase(s);
    assert StartsWithIgnoreCase(t, p) <==> StartsWithIgnoreCase(s, p) by {
      if |p| <= |s| {
        assert forall i :: 0 <= i < |p| ==> ToLower(t[..|p|][i]) == ToLower(s[..|p|][i]);
      }
    }
    if |s| > 0 {
      assert t[1..] == LowerCase(s[1..]);
      ContainsIgnoreCaseLower(s[1..], p);
    }
  }

  lemma ContainsAnyIgnoreCaseLower(s: string, ps: seq<string>)
    ensures ContainsAnyIgnoreCase(LowerCase(s), ps) <==> ContainsAnyIgnoreCase(s, ps)
  {
    forall i | 0 <= i < |ps| ensures ContainsIgnoreCase(LowerCase(s), ps[i]) <==> ContainsIgnoreCase(s, ps[i]) {
      ContainsIgnoreCaseLower(s, ps[i]);
    }
  }

  /** The classification ignores the case of the line. */
  lemma LevelIgnoresCase(l: string)
    ensures Level(LowerCase(l)) == Level(l)
  {
    ContainsAnyIgnoreCaseLower(l, InformationWords);
    ContainsIgnoreCaseLower(l, "warning");
    ContainsAnyIgnoreCaseLower(l, ErrorWords);
  }

  /** An information word outranks a warning or an error word in the same line, and "warning"
      outranks the error words. */
  lemma LevelPrecedence(l: string)
    ensures ContainsIgnoreCase(l, "start") ==> Level(l) == Some(Information)
    ensures !ContainsAnyIgnoreCase(l, InformationWords) && ContainsIgnoreCase(l, "warning") ==> Level(l) == Some(Warning)
    ensures !ContainsAnyIgnoreCase(l, InformationWords) && !ContainsIgnoreCase(l, "warning") && ContainsIgnoreCase(l, "fail")
            ==> Level(l) == Some(Error)
  {
    assert InformationWords[3] == "start";
    assert ErrorWords[1] == "fail";
  }

  // ---- Environment variables -------------------------------------------------------------

  /** `EnvVar(key, value, includeParentEnvironment)`; `value` is `value.ToString()` and `parent`
      the current process environment. */
  function EnvVar(key: string, value: string, includeParentEnvironment: bool, parent: Env): (r: ToolArguments)
    ensures r.environmentVariables.Some?
    ensures var env := r.environmentVariables.value;
      key in env && env[key] == value
      && (forall k :: k in env && k != key ==> includeParentEnvironment && k in parent && env[k] == parent[k])
      && (includeParentEnvironment ==> forall k :: k in parent ==> k in env)
    ensures r.(environmentVariables := None) == Empty
  {
    var result := if includeParentEnvironment then parent else map[];
    Empty.(environmentVariables := Some(result[key := value]))
  }

  /** No key repeats among the items. */
  predicate DistinctKeys(items: seq<(string, string)>) {
    forall i, j :: 0 <= i < j < |items| ==> items[i].0 != items[j].0
  }

  /** `items.ToDictionary(i => i.key, i => i.value.ToString())`: the items added one by one,
      failing on a repeated key. */
  function ToDictionary(items: seq<(string, string)>): (r: Result<Env>)
    ensures r.Ok? <==> DistinctKeys(items)
    ensures r.Ok? ==> r.value.Keys == set i | 0 <= i < |items| :: items[i].0
    decreases |items|
  {
    if |items| == 0 then Ok(map[])
    else
      var last := items[|items| - 1];
      var init := items[..|items| - 1];
      var previous := ToDictionary(init);
      assert forall i :: 0 <= i < |init| ==> init[i] == items[i];
      if previous.Err? then
        previous
      else if last.0 in previous.value then
        Result.Err(Exception("ArgumentException", "An item with the same key has already been added."))
      else
        assert (set i | 0 <= i < |items| :: items[i].0) == (set i | 0 <= i < |init| :: init[i].0) + {last.0};
        Ok(previous.value[last.0 := last.1])
  }

  /** Every item's key maps to that item's value. */
  lemma {:induction false} ToDictionaryValues(items: seq<(string, string)>)
    requires DistinctKeys(items)
    ensures forall i :: 0 <= i < |items| ==> ToDictionary(items).value[items[i].0] == items[i].1
    decreases |items|
  {
    if |items| > 0 {
      var init := items[..|items| - 1];
      assert forall i :: 0 <= i < |init| ==> init[i] == items[i];
      ToDictionaryValues(init);
    }
  }

  /** `EnvVars(includeParentEnvironment, items)`: the items' dictionary merged into the parent
      environment, or into nothing. */
  function EnvVars(includeParentEnvironment: bool, items: seq<(string, string)>, parent: Env, merge: EnvMerge): (r: Result<ToolArguments>)
    ensures r.Ok? <==> ToDictionary(items).Ok?
    ensures r.Ok? ==> r.value == Empty.(environmentVariables :=
                        merge(if includeParentEnvironment then Some(parent) else None, Some(ToDictionary(items).value)))
  {
    var itemsDict :- ToDictionary(items);
    Ok(Empty.(environmentVariables := merge(if includeParentEnvironment then Some(parent) else None, Some(itemsDict))))
  }

  /** `WithPathVar(path)`: PATH set to the process paths with `path` added unless present, joined
      with ';'. */
  function PathVar(paths: seq<string>, path: string, parent: Env): ToolArguments {
    EnvVar("PATH", Join(";", Union(paths, [path])), true, parent)
  }

  /** The PATH gains `path` at its end exactly when it was absent. */
  lemma PathVarAddsOnlyAbsent(paths: seq<string>, path: string, parent: Env)
    ensures var env := PathVar(paths, path, parent).environmentVariables.value;
      (path in paths ==> env["PATH"] == Join(";", DistinctBy(paths, Identity)))
      && (path !in paths ==> env["PATH"] == Join(";", DistinctBy(paths, Identity) + [path]))
  {
    UnionOne(paths, path);
  }

  // ---- ANSI escape removal ---------------------------------------------------------------

  const Escape: char := '\U{1B}'

  predicate IsParameter(c: char) {
    '0' <= c <= '9' || c == ';'
  }

  /** The length of the leading run of digits and semicolons. */
  function ParameterRun(s: string): (n: nat)
    ensures n <= |s|
    ensures forall i :: 0 <= i < n ==> IsParameter(s[i])
    ensures n < |s| ==> !IsParameter(s[n])
    decreases |s|
  {
    if |s| > 0 && IsParameter(s[0]) then 1 + ParameterRun(s[1..]) else 0
  }

  /** The length of the match of `\x1b\[[0-9;]*[mK]` at the start of `s`, or 0. */
  function EscapeLength(s: string): (n: nat)
    ensures n <= |s|
    ensures n > 0 ==> n >= 3 && s[0] == Escape && s[1] == '[' && (s[n - 1] == 'm' || s[n - 1] == 'K')
  {
    if |s| >= 2 && s[0] == Escape && s[1] == '[' then
      var k := 2 + ParameterRun(s[2..]);
      if k < |s| && (s[k] == 'm' || s[k] == 'K') then k + 1 else 0
    else 0
  }

  /** `ReplaceRegex("\x1b\\[[0-9;]*[mK]", m => "")`: the matches are removed in one left-to-right
      pass. */
  function StripAnsi(s: string): (r: string)
    ensures |r| <= |s|
    decreases |s|
  {
    if |s| == 0 then ""
    else
      var n := EscapeLength(s);
      if n > 0 then StripAnsi(s[n..]) else [s[0]] + StripAnsi(s[1..])
  }

  /** `RemoveAnsiEscape()`: every line keeps its type, only its text is cleaned. */
  function RemoveAnsiEscape(output: seq<Output>): (r: seq<Output>)
    ensures |r| == |output|
    ensures forall i :: 0 <= i < |r| ==> r[i].kind == output[i].kind && r[i].text == StripAnsi(output[i].text)
  {
    seq(|output|, i requires 0 <= i < |output| => Output(output[i].kind, StripAnsi(output[i].text)))
  }

  /** Text without the escape character passes through unchanged. */
  lemma {:induction false} StripAnsiPlain(a: string, b: string)
    requires Escape !in a
    ensures StripAnsi(a + b) == a + StripAnsi(b)
    decreases |a|
  {
    if |a| > 0 {
      assert (a + b)[0] == a[0];
      assert (a + b)[1..] == a[1..] + b;
      StripAnsiPlain(a[1..], b);
    } else {
      assert a + b == b;
    }
  }

  /** A colour or erase sequence is removed whole. */
  lemma StripAnsiSequence(parameters: string, final: char, rest: string)
    requires forall i :: 0 <= i < |parameters| ==> IsParameter(parameters[i])
    requires final == 'm' || final == 'K'
    ensures StripAnsi([Escape, '['] + parameters + [final] + rest) == StripAnsi(rest)
  {
    var s := [Escape, '['] + parameters + [final] + rest;
    assert s[2..] == parameters + [final] + rest;
    RunOfParameters(parameters, [final] + rest);
    assert parameters + [final] + rest == parameters + ([final] + rest);
    assert s[2 + |parameters|] == final;
    assert s[|parameters| + 3..] == rest;
  }

  lemma {:induction false} RunOfParameters(p: string, rest: string)
    requires forall i :: 0 <= i < |p| ==> IsParameter(p[i])
    requires |rest| > 0 && !IsParameter(rest[0])
    ensures ParameterRun(p + rest) == |p|
    decreases |p|
  {
    if |p| > 0 {
      assert (p + rest)[1..] == p[1..] + rest;
      RunOfParameters(p[1..], rest);
    } else {
      assert p + rest == rest;
    }
  }

  // ---- Piping ----------------------------------------------------------------------------

  /**
    * The standard input of the next process: the lines written so far and whether it was closed.
    * Writing to a closed stream throws ObjectDisposedException; closing it again does nothing.
    */
  class InputStream {
    var written: seq<string>
    var closed: bool

    constructor ()
      ensures written == [] && !closed
    {
      written := [];
      closed := false;
    }

    /** `ok` is false when the write throws because the stream was closed; nothing is written then. */
    method WriteLine(line: string) returns (ok: bool)
      modifies this
      ensures ok == !old(closed)
      ensures written == (if ok then old(written) + [line] else old(written))
      ensures closed == old(closed)
    {
      if closed {
        return false;
      }
      written := written + [line];
      return true;
    }

    method Close()
      modifies this
      ensures written == old(written) && closed
    {
      closed := true;
    }
  }

  /** Whether `Pipe` forwards an output line: standard output always, standard error when `pipeError`. */
  predicate Piped(line: Output, pipeError: bool)
  {
    line.kind == Std || pipeError
  }

  /** The lines `Pipe` forwards: standard output, and standard error too when `pipeError`. */
  function PipedLines(previous: seq<Output>, pipeError: bool): (r: seq<string>)
    ensures |r| <= |previous|
    decreases |previous|
  {
    if |previous| == 0 then []
    else
      var last := previous[|previous| - 1];
      PipedLines(previous[..|previous| - 1], pipeError) + (if Piped(last, pipeError) then [last.text] else [])
  }

  /** Nothing is forwarded exactly when no line of the output is piped. */
  lemma {:induction false} PipedLinesEmpty(previous: seq<Output>, pipeError: bool)
    ensures PipedLines(previous, pipeError) == [] <==> forall i :: 0 <= i < |previous| ==> !Piped(previous[i], pipeError)
    decreases |previous|
  {
    if |previous| > 0 {
      PipedLinesEmpty(previous[..|previous| - 1], pipeError);
    }
  }

  /**
    * The input action of `previous.Pipe(next, pipeError, close)`. On a stream an earlier action closed,
    * the first forwarded line throws (`ok` false) and nothing is written; with nothing to forward the
    * action completes and the repeated close is harmless.
    */
  method Pipe(s: InputStream, previous: seq<Output>, pipeError: bool, close: bool) returns (ok: bool)
    modifies s
    ensures ok == (!old(s.closed) || PipedLines(previous, pipeError) == [])
    ensures s.written == (if old(s.closed) then old(s.written) else old(s.written) + PipedLines(previous, pipeError))
    ensures s.closed == (old(s.closed) || close)
  {
    PipedLinesEmpty(previous, pipeError);
    for i := 0 to |previous|
      invariant s.closed == old(s.closed)
      invariant s.written == (if s.closed then old(s.written) else old(s.written) + PipedLines(previous[..i], pipeError))
      invariant s.closed ==> forall j :: 0 <= j < i ==> !Piped(previous[j], pipeError)
    {
      assert previous[..i + 1][..i] == previous[..i];
      if Piped(previous[i], pipeError) {
        var written := s.WriteLine(previous[i].text);
        if !written {
          return false;
        }
      }
    }
    assert previous[..|previous|] == previous;
    if close {
      s.Close();
    }
    return true;
  }

  /**
    * The input action of `WithInput(lines)`: every line, in order, and the stream left as it was.
    * On a closed stream the first line throws (`ok` false); with no lines the action completes.
    */
  method WithInput(s: InputStream, lines: seq<string>) returns (ok: bool)
    modifies s
    ensures ok == (!old(s.closed) || lines == [])
    ensures s.written == (if old(s.closed) then old(s.written) else old(s.written) + lines)
    ensures s.closed == old(s.closed)
  {
    for i := 0 to |lines|
      invariant s.closed == old(s.closed)
      invariant s.written == (if s.closed then old(s.written) else old(s.written) + lines[..i])
      invariant s.closed ==> i == 0
    {
      assert lines[..i + 1] == lines[..i] + [lines[i]];
      var written := s.WriteLine(lines[i]);
      if !written {
        return false;
      }
    }
    assert lines[..|lines|] == lines;
    return true;
  }

  /**
    * `output.Pipe(tool).WithInput(lines)`: both input actions run in order on the next process's fresh
    * standard input. `Pipe` closes it by default, so the composed input completes only when there are no
    * lines to add.
    */
  method PipeThenWithInput(previous: seq<Output>, pipeError: bool, lines: seq<string>) returns (ok: bool, written: seq<string>)
    ensures ok == (lines == [])
    ensures written == PipedLines(previous, pipeError)
  {
    var s := new InputStream();
    var piped := Pipe(s, previous, pipeError, true);
    ok := WithInput(s, lines);
    written := s.written;
  }

  /** Without `pipeError` only standard-output lines are forwarded; with it, every line. */
  lemma {:induction false} PipedLinesSelect(previous: seq<Output>)
    ensures |PipedLines(previous, true)| == |previous|
    ensures forall i :: 0 <= i < |previous| ==> PipedLines(previous, true)[i] == previous[i].text
    ensures (forall i :: 0 <= i < |previous| ==> previous[i].kind == OutputType.Err) ==> PipedLines(previous, false) == []
    decreases |previous|
  {
    if |previous| > 0 {
      PipedLinesSelect(previous[..|previous| - 1]);
    }
  }
}
