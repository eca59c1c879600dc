/** Unescaping of arguments that a user passes through a build parameter to a tool, and the
    extraction of a named block of command-line arguments (`Arguments.cs`). The escape
    convention: `''` stands for a double quote, `~-` and a leading `~` for a dash. */
module ArgumentEscapes {
  import opened Wrappers
  import opened Strings

  /** Nuke's `TrimMatchingDoubleQuotes`: one pair of enclosing double quotes is removed. */
  function TrimMatchingDoubleQuotes(s: string): (r: string)
    ensures r == s || (|s| >= 2 && s[0] == '"' && s[|s| - 1] == '"' && r == s[1..|s| - 1])
    ensures '"' !in s ==> r == s
  {
    if |s| < 2 || s[0] != '"' || s[|s| - 1] != '"' then s else s[1..|s| - 1]
  }

  /** The text after quote trimming and the two sequence replacements, before the leading `~`
      test. */
  function Unescaped(s: string): string {
    Replace(Replace(TrimMatchingDoubleQuotes(s), "''", "\""), "~-", "-")
  }

  /** `ProcessArgument` of a non-null argument that is not blank. Indexing `arg[0]` of a text
      that trimming and replacing left empty (the argument `""`) throws. */
  function ProcessText(s: string): (r: Result<string>)
    ensures r.Err? <==> |Unescaped(s)| == 0
    ensures r.Ok? ==> |r.value| == |Unescaped(s)| && r.value[1..] == Unescaped(s)[1..]
    ensures r.Ok? ==> r.value[0] == (if Unescaped(s)[0] == '~' then '-' else Unescaped(s)[0])
  {
    var u := Unescaped(s);
    if |u| == 0 then Result.Err(Exception("IndexOutOfRangeException", "Index was outside the bounds of the array."))
    else if u[0] == '~' then Ok("-" + u[1..])
    else Ok(u)
  }

  /** `ProcessArgument(arg)`: a null or blank argument comes back unchanged. */
  function ProcessArgument(arg: Option<string>): (r: Result<Option<string>>)
    ensures IsNullOrWhiteSpace(arg) ==> r == Ok(arg)
    ensures !IsNullOrWhiteSpace(arg) ==> (r.Ok? <==> ProcessText(arg.value).Ok?)
    ensures !IsNullOrWhiteSpace(arg) && r.Ok? ==> r.value == Some(ProcessText(arg.value).value)
  {
    if IsNullOrWhiteSpace(arg) then Ok(arg)
    else
      var t :- ProcessText(arg.value);
      Ok(Some(t))
  }

  /** The text a user writes for `s`: every dash as `~-`, then every double quote as `''`. */
  function Escape(s: string): string {
    Replace(Replace(s, "-", "~-"), "\"", "''")
  }

  /** `AsArguments(args)`: each argument processed, in order; a null sequence gives none. The
      first argument whose processing throws ends the enumeration with its exception. */
  function AsArguments(args: Option<seq<string>>): (r: Result<seq<Option<string>>>)
    ensures args.None? ==> r == Ok([])
    ensures args.Some? && r.Ok? ==>
      |r.value| == |args.value| && forall i :: 0 <= i < |args.value| ==> ProcessArgument(Some(args.value[i])) == Ok(r.value[i])
    ensures args.Some? ==> (r.Err? <==> exists i :: 0 <= i < |args.value| && ProcessArgument(Some(args.value[i])).Err?)
  {
    if args.None? then Ok([]) else ProcessAll(args.value)
  }

  function ProcessAll(xs: seq<string>): (r: Result<seq<Option<string>>>)
    ensures r.Ok? ==> |r.value| == |xs| && forall i :: 0 <= i < |xs| ==> ProcessArgument(Some(xs[i])) == Ok(r.value[i])
    ensures r.Err? <==> exists i :: 0 <= i < |xs| && ProcessArgument(Some(xs[i])).Err?
    decreases |xs|
  {
    if |xs| == 0 then Ok([])
    else
      var head := ProcessArgument(Some(xs[0]));
      if head.Err? then Result.Err(head.error)
      else
        var tail := ProcessAll(xs[1..]);
        if tail.Err? then
          Result.Err(tail.error)
        else
          assert forall i :: 1 <= i < |xs| ==> xs[i] == xs[1..][i - 1];
          Ok([head.value] + tail.value)
  }

  /** `string.Join(' ', …)` of nullable texts: a null contributes the empty text. */
  function Texts(xs: seq<Option<string>>): (r: seq<string>)
    ensures |r| == |xs| && forall i :: 0 <= i < |xs| ==> r[i] == xs[i].GetOr("")
  {
    seq(|xs|, i requires 0 <= i < |xs| => xs[i].GetOr(""))
  }

  /** `AppendAsArguments(input, leadingSpace)`: nothing for a null or empty input, otherwise the
      processed arguments joined by spaces, after a space when `leadingSpace`. */
  function AppendAsArguments(input: Option<seq<string>>, leadingSpace: bool := true): (r: Result<string>)
    ensures input.None? || |input.value| == 0 ==> r == Ok("")
    ensures input.Some? && |input.value| > 0 ==> (r.Err? <==> AsArguments(input).Err?)
    ensures input.Some? && |input.value| > 0 && r.Ok? ==>
      r.value == (if leadingSpace then " " else "") + Join(" ", Texts(AsArguments(input).value))
  {
    if input.None? || |input.value| == 0 then Ok("")
    else
      var processed :- AsArguments(input);
      Ok((if leadingSpace then " " else "") + Join(" ", Texts(processed)))
  }

  // ---- Argument blocks -------------------------------------------------------------------

  /** The block marker `-->` followed by the block's name. */
  function Marker(name: string): string {
    "-->" + name
  }

  /** Nuke's `SkipUntil(a => a == marker)`: drops the elements before the first marker. */
  function SkipUntilMarker(xs: seq<string>, marker: string): (r: seq<string>)
    ensures |r| <= |xs| && r == xs[|xs| - |r|..]
    ensures |r| > 0 ==> r[0] == marker
    ensures forall i :: 0 <= i < |xs| - |r| ==> xs[i] != marker
    decreases |xs|
  {
    if |xs| == 0 || xs[0] == marker then xs else SkipUntilMarker(xs[1..], marker)
  }

  /** Nuke's `TakeUntil(a => a.StartsWith("-->"))`: the elements before the first one that
      opens a block. */
  function TakeUntilBlock(xs: seq<string>): (r: seq<string>)
    ensures r <= xs
    decreases |xs|
  {
    if |xs| == 0 || StartsWith(xs[0], "-->") then [] else [xs[0]] + TakeUntilBlock(xs[1..])
  }

  /** `GetBlock(name, from)`; `from` is `EnvironmentInfo.CommandLineArguments` when the caller
      passes none, so the caller supplies it. */
  function GetBlock(name: string, from: seq<string>): (r: seq<string>)
    ensures Marker(name) !in from ==> r == []
  {
    var afterMarker := SkipUntilMarker(from, Marker(name));
    TakeUntilBlock(if |afterMarker| == 0 then [] else afterMarker[1..])
  }

  // ---- Properties ------------------------------------------------------------------------

  lemma {:induction false} TakeUntilBlockStops(xs: seq<string>)
    ensures forall i :: 0 <= i < |TakeUntilBlock(xs)| ==> !StartsWith(TakeUntilBlock(xs)[i], "-->")
    ensures |TakeUntilBlock(xs)| < |xs| ==> StartsWith(xs[|TakeUntilBlock(xs)|], "-->")
    decreases |xs|
  {
    if |xs| > 0 && !StartsWith(xs[0], "-->") {
      TakeUntilBlockStops(xs[1..]);
    }
  }

  /** With the first marker of the block at index `m`, the block is the run of elements after
      it, up to and excluding the next element that opens a block (or to the end). */
  lemma GetBlockAfterMarker(name: string, from: seq<string>, m: nat)
    requires m < |from| && from[m] == Marker(name)
    requires forall i :: 0 <= i < m ==> from[i] != Marker(name)
    ensures var r := GetBlock(name, from);
      r <= from[m + 1..]
      && (forall i :: 0 <= i < |r| ==> !StartsWith(r[i], "-->"))
      && (m + 1 + |r| == |from| || StartsWith(from[m + 1 + |r|], "-->"))
  {
    var afterMarker := SkipUntilMarker(from, Marker(name));
    assert |afterMarker| == |from| - m;
    assert afterMarker[1..] == from[m + 1..];
    TakeUntilBlockStops(from[m + 1..]);
  }

  /** Undoing the replacement of a character by a two-character sequence whose first
      character the text lacks gives the text back. */
  lemma {:induction false} ReplaceCharUndone(t: string, c: char, q: string)
    requires |q| == 2 && q[0] !in t && q[0] != c
    ensures Replace(Replace(t, [c], q), q, [c]) == t
    decreases |t|
  {
    if |t| > 0 {
      var rest := Replace(t[1..], [c], q);
      ReplaceCharUndone(t[1..], c, q);
      if t[0] == c {
        assert Replace(t, [c], q) == q + rest;
        assert (q + rest)[..2] == q && (q + rest)[2..] == rest;
      } else {
        assert Replace(t, [c], q) == [t[0]] + rest;
        if |rest| > 0 {
          assert ([t[0]] + rest)[..2][0] == t[0];
          assert ([t[0]] + rest)[1..] == rest;
        } else {
          assert t[1..] == [];
        }
      }
      assert t == [t[0]] + t[1..];
    }
  }

  /** Replacing a character by a text that starts with a non-blank character keeps a
      non-blank text non-blank. */
  lemma {:induction false} ReplaceKeepsNonBlank(s: string, c: char, q: string)
    requires |q| > 0 && !IsWhiteSpace(q[0]) && !AllWhiteSpace(s)
    ensures !AllWhiteSpace(Replace(s, [c], q))
    decreases |s|
  {
    var rest := Replace(s[1..], [c], q);
    if s[0] == c {
      assert Replace(s, [c], q)[0] == q[0];
    } else if !IsWhiteSpace(s[0]) {
      assert Replace(s, [c], q)[0] == s[0];
    } else {
      var j :| 0 <= j < |s| && !IsWhiteSpace(s[j]);
      assert s[1..][j - 1] == s[j];
      ReplaceKeepsNonBlank(s[1..], c, q);
      var k :| 0 <= k < |rest| && !IsWhiteSpace(rest[k]);
      assert Replace(s, [c], q)[k + 1] == rest[k];
    }
  }

  /** Round trip: an argument without `'` or `~` that is not blank comes back from its escaped
      form. */
  lemma ProcessArgumentUndoesEscape(s: string)
    requires '\'' !in s && '~' !in s && !AllWhiteSpace(s)
    ensures ProcessArgument(Some(Escape(s))) == Ok(Some(s))
  {
    var dashed := Replace(s, "-", "~-");
    ReplaceKeepsAbsent(s, "-", "~-", '\'');
    ReplaceRemovesChar(dashed, '"', "''");
    ReplaceKeepsNonBlank(s, '-', "~-");
    ReplaceKeepsNonBlank(dashed, '"', "''");
    assert TrimMatchingDoubleQuotes(Escape(s)) == Escape(s);
    ReplaceCharUndone(dashed, '"', "''");
    ReplaceCharUndone(s, '-', "~-");
    assert Unescaped(Escape(s)) == s;
  }

  /** No `''` survives unescaping. */
  lemma ProcessTextLeavesNoQuotePair(s: string)
    requires ProcessText(s).Ok?
    ensures !Contains(ProcessText(s).value, "''")
  {
    var t := Replace(TrimMatchingDoubleQuotes(s), "''", "\"");
    ReplaceLeavesNoOccurrence(TrimMatchingDoubleQuotes(s), "''", "\"");
    DashesKeepNoQuotePair(t);
    var u := Unescaped(s);
    if u[0] == '~' {
      NoPairAfterHead(u, '-');
    }
  }

  /** `Replace("~-", "-")` only removes a `~` in front of a dash, so it cannot put two `'`
      next to each other. */
  lemma {:induction false} DashesKeepNoQuotePair(t: string)
    requires !Contains(t, "''")
    ensures !Contains(Replace(t, "~-", "-"), "''")
    ensures |t| > 0 && t[0] == '\'' ==> |Replace(t, "~-", "-")| > 0 && Replace(t, "~-", "-")[0] == '\''
    ensures |t| > 0 && t[0] != '\'' ==> |Replace(t, "~-", "-")| > 0 && Replace(t, "~-", "-")[0] != '\''
    decreases |t|
  {
    var r := Replace(t, "~-", "-");
    if |t| < 2 {
      ContainsShort(r, "''");
    } else if t[..2] == "~-" {
      var rest := Replace(t[2..], "~-", "-");
      assert t[2..] == t[1..][1..];
      assert !Contains(t[1..], "''");
      assert !Contains(t[2..], "''");
      DashesKeepNoQuotePair(t[2..]);
      assert r == "-" + rest;
      ContainsAfter("-", rest, "''");
    } else {
      var rest := Replace(t[1..], "~-", "-");
      assert !Contains(t[1..], "''");
      DashesKeepNoQuotePair(t[1..]);
      assert r == [t[0]] + rest;
      assert r[1..] == rest;
      if t[0] == '\'' {
        assert t[1] != '\'' by { assert t[..2] != "''"; }
        assert t[1..][0] == t[1];
        assert r[..2] != "''" by { assert r[1] == rest[0]; }
      }
    }
  }

  /** Replacing the first character by a character other than `'` keeps `''` out. */
  lemma NoPairAfterHead(u: string, c: char)
    requires |u| > 0 && !Contains(u, "''") && c != '\''
    ensures !Contains([c] + u[1..], "''")
  {
    if |u| > 1 {
      assert !Contains(u[1..], "''");
    } else {
      assert u[1..] == [];
    }
    ContainsAfter([c], u[1..], "''");
  }
}
