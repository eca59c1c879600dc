/** String helpers of the build extension: the glob-to-regex translation used for
    exclusion and capture-group renaming, and small null/whitespace conveniences. */
module TextExtensions {
  import opened Wrappers
  import opened Strings

  // ---------------------------------------------------------------------------
  // Glob to regex
  // ---------------------------------------------------------------------------

  /** `Regex.Escape` of one character: the metacharacters \ * + ? | { [ ( ) ^ $ . # and
      the space get a backslash; tab, newline, carriage return and form feed become
      \t \n \r \f. */
  function EscapeChar(c: char): string {
    if c == '\n' then @"\n"
    else if c == '\r' then @"\r"
    else if c == '\t' then @"\t"
    else if c == '\U{C}' then @"\f"
    else if IsRegexMeta(c) then ['\\', c]
    else [c]
  }

  /** The characters `Regex.Escape` prefixes with a backslash. */
  predicate IsRegexMeta(c: char) {
    c == '\\' || c == '*' || c == '+' || c == '?' || c == '|' || c == '{' || c == '['
    || c == '(' || c == ')' || c == '^' || c == '$' || c == '.' || c == '#' || c == ' '
  }

  /** `Regex.Escape` */
  function RegexEscape(s: string): string
    decreases |s|
  {
    if |s| == 0 then "" else EscapeChar(s[0]) + RegexEscape(s[1..])
  }

  /** The capture that a single `*` becomes: any run of characters within one path level. */
  const LevelCapture: string := @"([^\/]*)"

  /** The capture that a `**` after a separator becomes: an optional separator, then anything. */
  const RecursiveCapture: string := @"[\\\/]?(.*)"

  /** `Regex.Replace(s, @"(?<PRE>[^\*]|^)\*(?<POST>[^\*])", PRE + "([^\/]*)" + POST)`:
      matches are tried left to right; each consumes the character before the star (or the
      start of the text), the star and the character after it, and the next attempt
      starts after the match. `atStart` says whether `s` begins at the start of the text. */
  function SingleStars(s: string, atStart: bool): string
    decreases |s|
  {
    if |s| >= 3 && s[0] != '*' && s[1] == '*' && s[2] != '*' then
      [s[0]] + LevelCapture + [s[2]] + SingleStars(s[3..], false)
    else if atStart && |s| >= 2 && s[0] == '*' && s[1] != '*' then
      LevelCapture + [s[1]] + SingleStars(s[2..], false)
    else if |s| == 0 then ""
    else [s[0]] + SingleStars(s[1..], false)
  }

  /** `Regex.Replace(s, @"^\*\*", @"^(.*)")` */
  function LeadingDoubleStar(s: string): string {
    if StartsWith(s, "**") then "^(.*)" + s[2..] else s
  }

  /** `Regex.Replace(s, @"(?:\\\\|\\\/)\*\*", @"[\\\/]?(.*)")`: an escaped backslash or
      an escaped slash followed by two stars. */
  function SeparatorDoubleStars(s: string): string
    decreases |s|
  {
    if |s| >= 4 && s[0] == '\\' && (s[1] == '\\' || s[1] == '/') && s[2] == '*' && s[3] == '*' then
      RecursiveCapture + SeparatorDoubleStars(s[4..])
    else if |s| == 0 then ""
    else [s[0]] + SeparatorDoubleStars(s[1..])
  }

  /** The first two rewrites: the escaped glob with every '/' escaped. */
  function EscapedText(s: string): string {
    Replace(RegexEscape(s), "/", @"\/")
  }

  /** The third rewrite, which turns the escaped stars back into plain stars. */
  function UnescapeStars(s: string): string {
    Replace(s, @"\*", "*")
  }

  /** The last three rewrites, which turn the stars into capturing groups. */
  function RewriteStars(s: string): string {
    SeparatorDoubleStars(LeadingDoubleStar(SingleStars(s, true)))
  }

  /** `GlobToRegex`: escape, escape the slashes, unescape the stars, then turn single
      stars, a leading `**` and a `**` after a separator into capturing groups. */
  function GlobToRegex(glob: string): string {
    RewriteStars(UnescapeStars(EscapedText(glob)))
  }

  // ---------------------------------------------------------------------------
  // Every '/' of the regex is escaped
  // ---------------------------------------------------------------------------

  /** Every '/' in the text is immediately preceded by a backslash. */
  predicate SlashesEscaped(s: string) {
    forall i :: 0 <= i < |s| && s[i] == '/' ==> i > 0 && s[i - 1] == '\\'
  }

  /** Every '/' in `s` is preceded by a backslash, reading `prev` as the character
      just before `s`. */
  predicate EscapedAfter(prev: char, s: string) {
    (|s| > 0 && s[0] == '/' ==> prev == '\\')
    && forall i :: 1 <= i < |s| && s[i] == '/' ==> s[i - 1] == '\\'
  }

  function LastOr(prev: char, s: string): char {
    if |s| == 0 then prev else s[|s| - 1]
  }

  lemma EscapedAfterConcat(prev: char, a: string, b: string)
    requires EscapedAfter(prev, a) && EscapedAfter(LastOr(prev, a), b)
    ensures EscapedAfter(prev, a + b)
  {
    if |a| == 0 {
      assert a + b == b;
    } else {
      assert (a + b)[0] == a[0];
      forall i | 1 <= i < |a + b| && (a + b)[i] == '/'
        ensures (a + b)[i - 1] == '\\'
      {
        if i < |a| {
          assert (a + b)[i] == a[i] && (a + b)[i - 1] == a[i - 1];
        } else if i == |a| {
          assert (a + b)[i] == b[0] && (a + b)[i - 1] == a[|a| - 1];
        } else {
          assert (a + b)[i] == b[i - |a|] && (a + b)[i - 1] == b[i - 1 - |a|];
        }
      }
    }
  }

  lemma EscapedAfterSuffix(prev: char, s: string, k: nat)
    requires EscapedAfter(prev, s) && 1 <= k <= |s|
    ensures EscapedAfter(s[k - 1], s[k..])
  {
    if k < |s| {
      assert s[k..][0] == s[k];
    }
    forall i | 1 <= i < |s[k..]| && s[k..][i] == '/'
      ensures s[k..][i - 1] == '\\'
    {
      assert s[k..][i] == s[k + i] && s[k..][i - 1] == s[k + i - 1];
    }
  }

  lemma EscapedAfterHead(prev: char, s: string)
    requires EscapedAfter(prev, s) && |s| > 0
    ensures EscapedAfter(prev, [s[0]])
  {
    assert [s[0]][0] == s[0];
  }

  /** A character that follows a non-backslash is not a slash. */
  lemma NoSlashAfter(prev: char, s: string, k: nat)
    requires EscapedAfter(prev, s) && 1 <= k < |s| && s[k - 1] != '\\'
    ensures s[k] != '/'
  {
  }

  lemma {:induction false} EscapeSlashesEscapes(prev: char, s: string)
    ensures EscapedAfter(prev, Replace(s, "/", @"\/"))
    decreases |s|
  {
    if |s| >= 1 {
      if s[..1] == "/" {
        EscapeSlashesEscapes('/', s[1..]);
        EscapedAfterConcat(prev, @"\/", Replace(s[1..], "/", @"\/"));
      } else {
        assert s[0] != '/';
        EscapeSlashesEscapes(s[0], s[1..]);
        EscapedAfterConcat(prev, [s[0]], Replace(s[1..], "/", @"\/"));
      }
    }
  }

  lemma {:induction false} UnescapeStarsKeeps(prev: char, s: string)
    requires EscapedAfter(prev, s)
    ensures EscapedAfter(prev, Replace(s, @"\*", "*"))
    decreases |s|
  {
    if |s| >= 2 {
      if s[..2] == @"\*" {
        EscapedAfterSuffix(prev, s, 2);
        assert s[1] == s[..2][1];
        if |s| > 2 { NoSlashAfter(prev, s, 2); }
        assert EscapedAfter('*', s[2..]);
        UnescapeStarsKeeps('*', s[2..]);
        EscapedAfterConcat(prev, "*", Replace(s[2..], @"\*", "*"));
      } else {
        EscapedAfterSuffix(prev, s, 1);
        UnescapeStarsKeeps(s[0], s[1..]);
        EscapedAfterHead(prev, s);
        EscapedAfterConcat(prev, [s[0]], Replace(s[1..], @"\*", "*"));
      }
    }
  }

  lemma {:induction false} SingleStarsKeeps(prev: char, s: string, atStart: bool)
    requires EscapedAfter(prev, s)
    ensures EscapedAfter(prev, SingleStars(s, atStart))
    decreases |s|
  {
    if |s| >= 3 && s[0] != '*' && s[1] == '*' && s[2] != '*' {
      EscapedAfterSuffix(prev, s, 3);
      SingleStarsKeeps(s[2], s[3..], false);
      NoSlashAfter(prev, s, 2);
      EscapedAfterHead(prev, s);
      EscapedAfterConcat(prev, [s[0]], LevelCapture);
      EscapedAfterConcat(prev, [s[0]] + LevelCapture, [s[2]]);
      EscapedAfterConcat(prev, [s[0]] + LevelCapture + [s[2]], SingleStars(s[3..], false));
    } else if atStart && |s| >= 2 && s[0] == '*' && s[1] != '*' {
      EscapedAfterSuffix(prev, s, 2);
      SingleStarsKeeps(s[1], s[2..], false);
      NoSlashAfter(prev, s, 1);
      EscapedAfterConcat(prev, LevelCapture, [s[1]]);
      EscapedAfterConcat(prev, LevelCapture + [s[1]], SingleStars(s[2..], false));
    } else if |s| > 0 {
      EscapedAfterSuffix(prev, s, 1);
      SingleStarsKeeps(s[0], s[1..], false);
      EscapedAfterHead(prev, s);
      EscapedAfterConcat(prev, [s[0]], SingleStars(s[1..], false));
    }
  }

  lemma LeadingDoubleStarKeeps(prev: char, s: string)
    requires EscapedAfter(prev, s)
    ensures EscapedAfter(prev, LeadingDoubleStar(s))
  {
    if StartsWith(s, "**") {
      EscapedAfterSuffix(prev, s, 2);
      assert s[1] == s[..2][1];
      if |s| > 2 { NoSlashAfter(prev, s, 2); }
      assert EscapedAfter(')', s[2..]);
      EscapedAfterConcat(prev, "^(.*)", s[2..]);
    }
  }

  lemma {:induction false} SeparatorDoubleStarsKeeps(prev: char, s: string)
    requires EscapedAfter(prev, s)
    ensures EscapedAfter(prev, SeparatorDoubleStars(s))
    decreases |s|
  {
    if |s| >= 4 && s[0] == '\\' && (s[1] == '\\' || s[1] == '/') && s[2] == '*' && s[3] == '*' {
      EscapedAfterSuffix(prev, s, 4);
      if |s| > 4 { NoSlashAfter(prev, s, 4); }
      assert EscapedAfter(')', s[4..]);
      SeparatorDoubleStarsKeeps(')', s[4..]);
      EscapedAfterConcat(prev, RecursiveCapture, SeparatorDoubleStars(s[4..]));
    } else if |s| > 0 {
      EscapedAfterSuffix(prev, s, 1);
      SeparatorDoubleStarsKeeps(s[0], s[1..]);
      EscapedAfterHead(prev, s);
      EscapedAfterConcat(prev, [s[0]], SeparatorDoubleStars(s[1..]));
    }
  }

  /** Every '/' of the regex is escaped, so the regex can be embedded between slashes:
      the second rewrite establishes it and each later rewrite keeps it. */
  lemma GlobToRegexEscapesSlashes(glob: string)
    ensures SlashesEscaped(GlobToRegex(glob))
  {
    var escaped := EscapedText(glob);
    EscapeSlashesEscapes(' ', RegexEscape(glob));
    var stars := UnescapeStars(escaped);
    UnescapeStarsKeeps(' ', escaped);
    SingleStarsKeeps(' ', stars, true);
    LeadingDoubleStarKeeps(' ', SingleStars(stars, true));
    SeparatorDoubleStarsKeeps(' ', LeadingDoubleStar(SingleStars(stars, true)));
  }

  // ---------------------------------------------------------------------------
  // How the rewrites compose
  // ---------------------------------------------------------------------------

  /** Escaping works character by character. */
  lemma {:induction false} RegexEscapeConcat(a: string, b: string)
    ensures RegexEscape(a + b) == RegexEscape(a) + RegexEscape(b)
    decreases |a|
  {
    if |a| == 0 {
      assert a + b == b;
    } else {
      assert (a + b)[0] == a[0] && (a + b)[1..] == a[1..] + b;
      RegexEscapeConcat(a[1..], b);
    }
  }

  lemma EscapedTextConcat(a: string, b: string)
    ensures EscapedText(a + b) == EscapedText(a) + EscapedText(b)
  {
    RegexEscapeConcat(a, b);
    ReplaceCharConcat(RegexEscape(a), RegexEscape(b), '/', @"\/");
  }

  /** Escaping introduces no star. */
  lemma {:induction false} RegexEscapeStarFree(s: string)
    requires '*' !in s
    ensures '*' !in RegexEscape(s)
    decreases |s|
  {
    if |s| > 0 {
      assert s[0] in s;
      RegexEscapeStarFree(s[1..]);
    }
  }

  lemma EscapedTextStarFree(s: string)
    requires '*' !in s
    ensures '*' !in EscapedText(s)
  {
    RegexEscapeStarFree(s);
    ReplaceKeepsAbsent(RegexEscape(s), "/", @"\/", '*');
  }

  /** The escaped text of a non-empty glob is non-empty, and it ends in neither a backslash
      nor a slash when the glob does not. */
  lemma EscapedTextLast(s: string)
    requires |s| > 0 && s[|s| - 1] != '\\' && s[|s| - 1] != '/'
    ensures var e := EscapedText(s); |e| > 0 && e[|e| - 1] != '\\' && e[|e| - 1] != '/'
  {
    var c := s[|s| - 1];
    assert s == s[..|s| - 1] + [c];
    EscapedTextConcat(s[..|s| - 1], [c]);
    assert RegexEscape([c]) == EscapeChar(c) by { assert [c][1..] == []; }
    ReplaceAbsent(EscapeChar(c), "/", @"\/", 0);
  }

  /** Every star of `s` has a star neighbour, reading `prev` as the character before `s`. */
  predicate StarsPairedAfter(prev: char, s: string) {
    forall i :: 0 <= i < |s| && s[i] == '*' ==>
      (if i == 0 then prev else s[i - 1]) == '*' || (i + 1 < |s| && s[i + 1] == '*')
  }

  lemma StarNeighbour(prev: char, s: string, i: nat)
    requires StarsPairedAfter(prev, s) && i < |s| && s[i] == '*'
    ensures (if i == 0 then prev else s[i - 1]) == '*' || (i + 1 < |s| && s[i + 1] == '*')
  {
  }

  lemma StarFreePaired(prev: char, s: string)
    requires '*' !in s
    ensures StarsPairedAfter(prev, s) && NoDoubleStar(s)
  {
    forall i | 0 <= i < |s| ensures s[i] != '*' { assert s[i] in s; }
  }

  lemma StarsPairedJoin(prev: char, x: string, y: string)
    requires StarsPairedAfter(prev, x) && StarsPairedAfter(if |x| == 0 then prev else x[|x| - 1], y)
    ensures StarsPairedAfter(prev, x + y)
  {
    forall i | 0 <= i < |x + y| && (x + y)[i] == '*'
      ensures (if i == 0 then prev else (x + y)[i - 1]) == '*' || (i + 1 < |x + y| && (x + y)[i + 1] == '*')
    {
      if i < |x| {
        StarNeighbour(prev, x, i);
        assert (x + y)[i] == x[i];
        if i > 0 { assert (x + y)[i - 1] == x[i - 1]; }
        if i + 1 < |x| { assert (x + y)[i + 1] == x[i + 1]; }
      } else {
        var j := i - |x|;
        assert (x + y)[i] == y[j];
        StarNeighbour(if |x| == 0 then prev else x[|x| - 1], y, j);
        if j > 0 { assert (x + y)[i - 1] == y[j - 1]; }
        if j == 0 && i > 0 { assert (x + y)[i - 1] == x[|x| - 1]; }
        if j + 1 < |y| { assert (x + y)[i + 1] == y[j + 1]; }
      }
    }
  }

  /** Stars that come in runs of two or more are left to the later rewrites: without a lone
      star, the single-star rewrite changes nothing. */
  lemma {:induction false} SingleStarsPairedStars(prev: char, s: string, atStart: bool)
    requires StarsPairedAfter(prev, s) && (atStart ==> prev != '*')
    ensures SingleStars(s, atStart) == s
    decreases |s|
  {
    if |s| >= 3 && s[0] != '*' && s[1] == '*' && s[2] != '*' {
      assert false;
    } else if atStart && |s| >= 2 && s[0] == '*' && s[1] != '*' {
      StarNeighbour(prev, s, 0);
      assert false;
    } else if |s| > 0 {
      assert StarsPairedAfter(s[0], s[1..]) by {
        forall i | 0 <= i < |s[1..]| && s[1..][i] == '*'
          ensures (if i == 0 then s[0] else s[1..][i - 1]) == '*' || (i + 1 < |s[1..]| && s[1..][i + 1] == '*')
        {
          assert s[1..][i] == s[i + 1];
          StarNeighbour(prev, s, i + 1);
          if i > 0 { assert s[1..][i - 1] == s[i]; }
          if i + 1 < |s[1..]| { assert s[1..][i + 1] == s[i + 2]; }
        }
      }
      SingleStarsPairedStars(s[0], s[1..], false);
      assert [s[0]] + s[1..] == s;
    }
  }

  /** No two stars are adjacent. */
  predicate NoDoubleStar(s: string) {
    forall i :: 0 <= i < |s| - 1 ==> s[i] != '*' || s[i + 1] != '*'
  }

  lemma NoDoubleStarJoin(a: string, b: string)
    requires NoDoubleStar(a) && '*' !in b
    ensures NoDoubleStar(a + b)
  {
    forall i | 0 <= i < |a + b| - 1
      ensures (a + b)[i] != '*' || (a + b)[i + 1] != '*'
    {
      if i + 1 < |a| {
        assert (a + b)[i] == a[i] && (a + b)[i + 1] == a[i + 1];
      } else {
        assert (a + b)[i + 1] == b[i + 1 - |a|];
      }
    }
  }

  /** Without a `**`, neither double-star rewrite changes anything. */
  lemma {:induction false} DoubleStarFree(s: string)
    requires NoDoubleStar(s)
    ensures LeadingDoubleStar(s) == s && SeparatorDoubleStars(s) == s
    decreases |s|
  {
    if |s| >= 2 {
      assert s[..2] != "**" by { assert s[..2][0] == s[0] && s[..2][1] == s[1]; }
    }
    if |s| > 0 {
      DoubleStarFree(s[1..]);
      assert [s[0]] + s[1..] == s;
    }
  }

  /** Star-free text that does not end in a backslash or a slash passes through the
      separator rewrite untouched, and no match reaches back into it. */
  lemma {:induction false} SeparatorDoubleStarsPrefix(a: string, b: string)
    requires '*' !in a && (|a| == 0 || (a[|a| - 1] != '\\' && a[|a| - 1] != '/'))
    ensures SeparatorDoubleStars(a + b) == a + SeparatorDoubleStars(b)
    decreases |a|
  {
    if |a| == 0 {
      assert a + b == b;
    } else {
      var s := a + b;
      assert s[0] == a[0] && s[1..] == a[1..] + b;
      if |a| >= 3 {
        assert s[2] == a[2] && a[2] in a;
      } else if |a| == 2 {
        assert s[1] == a[1];
      }
      assert |a| > 1 ==> a[1..][|a| - 2] == a[|a| - 1];
      SeparatorDoubleStarsPrefix(a[1..], b);
    }
  }

  lemma UnescapeStarsStarFree(s: string)
    requires '*' !in s
    ensures UnescapeStars(s) == s
  {
    ReplaceAbsent(s, @"\*", "*", 1);
  }

  lemma UnescapeStarsConcat(a: string, b: string)
    requires |a| == 0 || a[|a| - 1] != '\\'
    ensures UnescapeStars(a + b) == UnescapeStars(a) + UnescapeStars(b)
  {
    ReplacePairConcat(a, b, @"\*", "*");
  }

  /** One character escapes to its `Regex.Escape` form, a slash to an escaped slash. */
  lemma EscapedTextChar(c: char)
    ensures EscapedText([c]) == if c == '/' then @"\/" else EscapeChar(c)
  {
    assert RegexEscape([c]) == EscapeChar(c) by { assert [c][1..] == []; }
    if c != '/' {
      ReplaceAbsent(EscapeChar(c), "/", @"\/", 0);
    }
  }

  lemma UnescapeStarsPair()
    ensures UnescapeStars(@"\*") == "*"
  {
  }

  /** Star-free text goes through the star rewrites unchanged. */
  lemma RewriteStarFree(s: string)
    requires '*' !in s
    ensures RewriteStars(s) == s
  {
    StarFreePaired(' ', s);
    SingleStarsPairedStars(' ', s, true);
    DoubleStarFree(s);
  }

  /** `s` is passed with its value as a precondition, which keeps the solver from
      evaluating the rewrite on the literal star. */
  lemma SingleStarsLeadingStar(s: string, e: string)
    requires '*' !in e && |e| > 0 && s == "*" + e
    ensures SingleStars(s, true) == LevelCapture + e
  {
    var c, f := e[0], e[1..];
    assert e == [c] + f;
    assert '*' !in f && c != '*';
    StarFreePaired(c, f);
    SingleStarsPairedStars(c, f, false);
    assert s[0] == '*' && s[1] == c && s[2..] == f;
  }

  lemma RewriteLeadingStar(e: string)
    requires '*' !in e && |e| > 0
    ensures RewriteStars("*" + e) == LevelCapture + e
  {
    SingleStarsLeadingStar("*" + e, e);
    assert NoDoubleStar(LevelCapture);
    NoDoubleStarJoin(LevelCapture, e);
    DoubleStarFree(LevelCapture + e);
  }

  lemma SingleStarsLeadingRecursive(e: string)
    requires '*' !in e
    ensures SingleStars(@"**\/" + e, true) == @"**\/" + e
  {
    StarFreePaired('/', e);
    assert StarsPairedAfter(' ', @"**\/");
    StarsPairedJoin(' ', @"**\/", e);
    SingleStarsPairedStars(' ', @"**\/" + e, true);
  }

  lemma RewriteLeadingRecursive(e: string)
    requires '*' !in e
    ensures RewriteStars(@"**\/" + e) == "^(.*)" + (@"\/" + e)
  {
    SingleStarsLeadingRecursive(e);
    var s := @"**\/" + e;
    assert s[..2] == "**" && s[2..] == @"\/" + e;
    assert NoDoubleStar(@"^(.*)\/");
    NoDoubleStarJoin(@"^(.*)\/", e);
    assert @"^(.*)\/" + e == "^(.*)" + (@"\/" + e);
    DoubleStarFree("^(.*)" + (@"\/" + e));
  }

  lemma SingleStarsInnerRecursive(a: string, b: string)
    requires '*' !in a && '*' !in b
    ensures SingleStars(a + (@"\/**\/" + b), true) == a + (@"\/**\/" + b)
  {
    StarFreePaired(' ', a);
    StarFreePaired('/', b);
    var prev := if |a| == 0 then ' ' else a[|a| - 1];
    assert StarsPairedAfter(prev, @"\/**\/");
    StarsPairedJoin(prev, @"\/**\/", b);
    StarsPairedJoin(' ', a, @"\/**\/" + b);
    SingleStarsPairedStars(' ', a + (@"\/**\/" + b), true);
  }

  lemma SeparatorAtSeparator(b: string)
    requires '*' !in b
    ensures SeparatorDoubleStars(@"\/**\/" + b) == RecursiveCapture + (@"\/" + b)
  {
    var t := @"\/**\/" + b;
    assert t[0] == '\\' && t[1] == '/' && t[2] == '*' && t[3] == '*';
    assert t[4..] == @"\/" + b;
    StarFreePaired(' ', b);
    assert NoDoubleStar(@"\/");
    NoDoubleStarJoin(@"\/", b);
    DoubleStarFree(@"\/" + b);
  }

  lemma SeparatorInnerRecursive(a: string, b: string)
    requires '*' !in a && '*' !in b
    requires |a| == 0 || (a[|a| - 1] != '\\' && a[|a| - 1] != '/')
    ensures LeadingDoubleStar(a + (@"\/**\/" + b)) == a + (@"\/**\/" + b)
    ensures SeparatorDoubleStars(a + (@"\/**\/" + b)) == a + (RecursiveCapture + (@"\/" + b))
  {
    var t := @"\/**\/" + b;
    var s := a + t;
    if |a| > 0 {
      assert s[0] == a[0] && a[0] in a;
    } else {
      assert s == t && s[0] == '\\';
    }
    assert !StartsWith(s, "**") by { assert s[..2][0] == s[0]; }
    SeparatorDoubleStarsPrefix(a, t);
    SeparatorAtSeparator(b);
  }

  lemma RewriteInnerRecursive(s: string, a: string, b: string)
    requires '*' !in a && '*' !in b && s == a + (@"\/**\/" + b)
    requires |a| == 0 || (a[|a| - 1] != '\\' && a[|a| - 1] != '/')
    ensures RewriteStars(s) == a + RecursiveCapture + @"\/" + b
  {
    SingleStarsInnerRecursive(a, b);
    SeparatorInnerRecursive(a, b);
    assert a + (RecursiveCapture + (@"\/" + b)) == a + RecursiveCapture + @"\/" + b;
  }

  /** A glob without wildcards becomes its escaped text with every '/' escaped, and
      nothing else: no capturing group is introduced. */
  lemma GlobToRegexWithoutWildcards(glob: string)
    requires '*' !in glob
    ensures GlobToRegex(glob) == EscapedText(glob)
  {
    EscapedTextStarFree(glob);
    UnescapeStarsStarFree(EscapedText(glob));
    RewriteStarFree(EscapedText(glob));
  }

  /** A lone `*` has no character after it for the single-star rewrite: its translation
      is the bare quantifier `*`. `glob` is passed with its value as a precondition. */
  lemma GlobToRegexLoneStar(glob: string)
    requires glob == "*"
    ensures GlobToRegex(glob) == "*"
  {
    EscapedTextChar('*');
    UnescapeStarsPair();
    var s := UnescapeStars(EscapedText(glob));
    assert s == "*";
    assert SingleStars(s, true) == [s[0]] + SingleStars(s[1..], false);
    assert s[1..] == [];
    assert SeparatorDoubleStars(s) == [s[0]] + SeparatorDoubleStars(s[1..]);
  }

  /** Two stars after a plain character are left alone by every star rewrite: the
      translation of `a**` is `a**`, a quantifier straight after another. */
  lemma GlobToRegexDoubledStar(glob: string)
    requires glob == "a**"
    ensures GlobToRegex(glob) == "a**"
  {
    EscapedTextConcat("a", "**");
    EscapedTextConcat("*", "*");
    EscapedTextChar('a');
    EscapedTextChar('*');
    assert glob == "a" + "**";
    assert "**" == "*" + "*";
    var e := EscapedText(glob);
    assert e == "a" + (@"\*" + @"\*");
    UnescapeStarsConcat("a", @"\*" + @"\*");
    UnescapeStarsConcat(@"\*", @"\*");
    UnescapeStarsPair();
    UnescapeStarsStarFree("a");
    var s := UnescapeStars(e);
    assert s == "a**";
    var t := s[1..];
    assert t == "**" && t[1..] == "*";
    assert SingleStars(s, true) == [s[0]] + SingleStars(t, false);
    assert SingleStars(t, false) == [t[0]] + SingleStars(t[1..], false);
    assert SingleStars(t[1..], false) == [t[1]] + SingleStars(t[2..], false);
    assert t[2..] == [];
    assert SingleStars(s, true) == s;
    assert !StartsWith(s, "**");
    assert SeparatorDoubleStars(s) == [s[0]] + SeparatorDoubleStars(t);
    assert SeparatorDoubleStars(t) == [t[0]] + SeparatorDoubleStars(t[1..]);
    assert SeparatorDoubleStars(t[1..]) == [t[1]] + SeparatorDoubleStars(t[2..]);
  }

  lemma EscapedTextNonEmpty(s: string)
    requires |s| > 0
    ensures |EscapedText(s)| > 0
  {
    EscapedTextConcat([s[0]], s[1..]);
    assert [s[0]] + s[1..] == s;
    EscapedTextChar(s[0]);
  }

  lemma EscapeLeadingStar(rest: string)
    requires '*' !in rest
    ensures UnescapeStars(EscapedText("*" + rest)) == "*" + EscapedText(rest)
  {
    var e := EscapedText(rest);
    EscapedTextStarFree(rest);
    EscapedTextConcat(['*'], rest);
    EscapedTextChar('*');
    UnescapeStarsConcat(@"\*", e);
    UnescapeStarsPair();
    UnescapeStarsStarFree(e);
  }

  /** A leading single star followed by star-free text becomes a level capture in front
      of the translation of that text. */
  lemma GlobToRegexLeadingStar(rest: string)
    requires '*' !in rest && |rest| > 0
    ensures GlobToRegex("*" + rest) == LevelCapture + GlobToRegex(rest)
  {
    EscapeLeadingStar(rest);
    EscapedTextStarFree(rest);
    EscapedTextNonEmpty(rest);
    RewriteLeadingStar(EscapedText(rest));
    GlobToRegexWithoutWildcards(rest);
  }

  lemma EscapedLeadingRecursive(rest: string)
    ensures EscapedText("**/" + rest) == @"\*" + (@"\*" + (@"\/" + EscapedText(rest)))
  {
    assert "**/" + rest == ['*'] + (['*'] + (['/'] + rest));
    EscapedTextConcat(['*'], ['*'] + (['/'] + rest));
    EscapedTextConcat(['*'], ['/'] + rest);
    EscapedTextConcat(['/'], rest);
    EscapedTextChar('*');
    EscapedTextChar('/');
  }

  lemma UnescapeLeadingRecursive(e: string)
    requires '*' !in e
    ensures UnescapeStars(@"\*" + (@"\*" + (@"\/" + e))) == @"**\/" + e
  {
    UnescapeStarsConcat(@"\*", @"\*" + (@"\/" + e));
    UnescapeStarsConcat(@"\*", @"\/" + e);
    UnescapeStarsPair();
    assert '*' !in @"\/" + e;
    UnescapeStarsStarFree(@"\/" + e);
  }

  lemma EscapeLeadingRecursive(rest: string)
    requires '*' !in rest
    ensures UnescapeStars(EscapedText("**/" + rest)) == @"**\/" + EscapedText(rest)
  {
    EscapedTextStarFree(rest);
    EscapedLeadingRecursive(rest);
    UnescapeLeadingRecursive(EscapedText(rest));
  }

  /** A leading `**` and separator become an anchored capture of anything, then the escaped
      separator, in front of the translation of the star-free rest. */
  lemma GlobToRegexLeadingRecursive(rest: string)
    requires '*' !in rest
    ensures GlobToRegex("**/" + rest) == "^(.*)" + @"\/" + GlobToRegex(rest)
  {
    EscapeLeadingRecursive(rest);
    EscapedTextStarFree(rest);
    RewriteLeadingRecursive(EscapedText(rest));
    GlobToRegexWithoutWildcards(rest);
  }

  lemma EscapedInnerRecursive(after: string)
    ensures EscapedText("/**/" + after) == @"\/" + EscapedText("**/" + after)
  {
    assert "/**/" + after == ['/'] + ("**/" + after);
    EscapedTextConcat(['/'], "**/" + after);
    EscapedTextChar('/');
  }

  /** Unescaping the stars leaves star-free text and an escaped slash in front alone. */
  lemma UnescapeAfterSlash(a: string, x: string)
    requires '*' !in a && (|a| == 0 || a[|a| - 1] != '\\')
    ensures UnescapeStars(a + (@"\/" + x)) == a + (@"\/" + UnescapeStars(x))
  {
    UnescapeStarsConcat(a, @"\/" + x);
    UnescapeStarsStarFree(a);
    UnescapeStarsConcat(@"\/", x);
    UnescapeStarsStarFree(@"\/");
  }

  lemma EscapedInnerParts(glob: string, before: string, after: string)
    requires glob == before + ("/**/" + after)
    ensures EscapedText(glob) == EscapedText(before) + (@"\/" + EscapedText("**/" + after))
  {
    EscapedTextConcat(before, "/**/" + after);
    EscapedInnerRecursive(after);
  }

  lemma EscapeInnerRecursive(glob: string, before: string, after: string)
    requires '*' !in before && '*' !in after && glob == before + ("/**/" + after)
    requires |before| == 0 || (before[|before| - 1] != '\\' && before[|before| - 1] != '/')
    ensures UnescapeStars(EscapedText(glob)) == EscapedText(before) + (@"\/**\/" + EscapedText(after))
  {
    var a := EscapedText(before);
    var x := EscapedText("**/" + after);
    EscapedTextStarFree(before);
    if |before| > 0 { EscapedTextLast(before); } else { assert a == ""; }
    EscapedInnerParts(glob, before, after);
    UnescapeAfterSlash(a, x);
    EscapeLeadingRecursive(after);
    assert @"\/" + (@"**\/" + EscapedText(after)) == @"\/**\/" + EscapedText(after);
  }

  /** A `**` between two separators becomes an optional separator and a capture of anything,
      then the escaped separator: the star-free texts around it are translated on their own. */
  lemma GlobToRegexInnerRecursive(before: string, after: string)
    requires '*' !in before && '*' !in after
    requires |before| == 0 || (before[|before| - 1] != '\\' && before[|before| - 1] != '/')
    ensures GlobToRegex(before + "/**/" + after)
         == GlobToRegex(before) + RecursiveCapture + @"\/" + GlobToRegex(after)
  {
    var glob := before + "/**/" + after;
    assert glob == before + ("/**/" + after);
    EscapeInnerRecursive(glob, before, after);
    var a := EscapedText(before);
    var b := EscapedText(after);
    EscapedTextStarFree(before);
    EscapedTextStarFree(after);
    if |before| > 0 { EscapedTextLast(before); } else { assert a == ""; }
    RewriteInnerRecursive(UnescapeStars(EscapedText(glob)), a, b);
    GlobToRegexWithoutWildcards(before);
    GlobToRegexWithoutWildcards(after);
  }

  // ---------------------------------------------------------------------------
  // Worked translations
  // ---------------------------------------------------------------------------

  /** Letters, digits and underscores are not regex metacharacters. */
  predicate IsWordText(s: string) {
    forall i :: 0 <= i < |s| ==>
      ('a' <= s[i] <= 'z') || ('A' <= s[i] <= 'Z') || ('0' <= s[i] <= '9') || s[i] == '_'
  }

  lemma {:induction false} RegexEscapeWordText(s: string)
    requires IsWordText(s)
    ensures RegexEscape(s) == s
    decreases |s|
  {
    if |s| > 0 {
      RegexEscapeWordText(s[1..]);
      assert [s[0]] + s[1..] == s;
    }
  }

  /** Word text escapes to itself. */
  lemma EscapedWordText(s: string)
    requires IsWordText(s)
    ensures EscapedText(s) == s
  {
    RegexEscapeWordText(s);
    assert '/' !in s by {
      forall i | 0 <= i < |s| ensures s[i] != '/' { }
    }
    ReplaceAbsent(s, "/", @"\/", 0);
  }

  /** A file name made of word text around one dot escapes to itself with the dot escaped. */
  lemma EscapedFileName(f: string, name: string, ext: string)
    requires IsWordText(name) && IsWordText(ext) && f == name + "." + ext
    ensures EscapedText(f) == name + @"\." + ext
  {
    EscapedTextConcat(name + ".", ext);
    EscapedTextConcat(name, ".");
    EscapedTextChar('.');
    EscapedWordText(name);
    EscapedWordText(ext);
  }

  lemma WordTextStarFree(s: string)
    requires IsWordText(s)
    ensures '*' !in s && (|s| == 0 || (s[|s| - 1] != '\\' && s[|s| - 1] != '/'))
  {
    forall i | 0 <= i < |s| ensures s[i] != '*' { }
  }

  lemma FileNameStarFree(f: string, name: string, ext: string)
    requires IsWordText(name) && IsWordText(ext) && f == name + "." + ext
    ensures '*' !in f && |f| > 0
  {
    WordTextStarFree(name);
    WordTextStarFree(ext);
  }

  /** `*.ext`: a level capture, then the escaped dot and the extension. */
  lemma GlobToRegexAnyWithExtension(glob: string, ext: string)
    requires IsWordText(ext) && glob == "*." + ext
    ensures GlobToRegex(glob) == LevelCapture + @"\." + ext
  {
    var f := "" + "." + ext;
    assert glob == "*" + f;
    FileNameStarFree(f, "", ext);
    GlobToRegexLeadingStar(f);
    GlobToRegexWithoutWildcards(f);
    EscapedFileName(f, "", ext);
  }

  // A leading double star, a separator and `name.ext`: an anchored capture of anything,
  // an escaped slash, then the file name.
  lemma GlobToRegexAnyBelow(glob: string, name: string, ext: string)
    requires IsWordText(name) && IsWordText(ext) && glob == "**/" + name + "." + ext
    ensures GlobToRegex(glob) == @"^(.*)\/" + name + @"\." + ext
  {
    var f := name + "." + ext;
    assert glob == "**/" + f;
    FileNameStarFree(f, name, ext);
    GlobToRegexLeadingRecursive(f);
    GlobToRegexWithoutWildcards(f);
    EscapedFileName(f, name, ext);
  }

  // `dir`, a separator, a double star, a separator and `name.ext`: the directory, an
  // optional separator and a capture of anything, an escaped slash, then the file name.
  lemma GlobToRegexAnyInside(glob: string, dir: string, f: string, name: string, ext: string)
    requires IsWordText(dir) && IsWordText(name) && IsWordText(ext)
    requires f == name + "." + ext && glob == dir + "/**/" + f
    ensures GlobToRegex(glob) == dir + RecursiveCapture + @"\/" + name + @"\." + ext
  {
    WordTextStarFree(dir);
    FileNameStarFree(f, name, ext);
    GlobToRegexInnerRecursive(dir, f);
    WordTextTranslation(dir);
    FileNameTranslation(f, name, ext);
    var p := dir + RecursiveCapture + @"\/";
    assert p + (name + @"\." + ext) == p + name + @"\." + ext;
  }

  lemma WordTextTranslation(s: string)
    requires IsWordText(s)
    ensures GlobToRegex(s) == s
  {
    WordTextStarFree(s);
    GlobToRegexWithoutWildcards(s);
    EscapedWordText(s);
  }

  lemma FileNameTranslation(f: string, name: string, ext: string)
    requires IsWordText(name) && IsWordText(ext) && f == name + "." + ext
    ensures GlobToRegex(f) == name + @"\." + ext
  {
    FileNameStarFree(f, name, ext);
    GlobToRegexWithoutWildcards(f);
    EscapedFileName(f, name, ext);
  }

  lemma GlobToRegexFileExtension(glob: string)
    requires glob == "*.txt"
    ensures GlobToRegex(glob) == @"([^\/]*)\.txt"
  {
    GlobToRegexAnyWithExtension(glob, "txt");
  }

  lemma GlobToRegexLeadingRecursiveExample(glob: string)
    requires glob == "**/foo.txt"
    ensures GlobToRegex(glob) == @"^(.*)\/foo\.txt"
  {
    GlobToRegexAnyBelow(glob, "foo", "txt");
  }

  // ---------------------------------------------------------------------------
  // Null / whitespace conveniences
  // ---------------------------------------------------------------------------

  /** `AsSingleLine`: the platform line break, then every remaining '\n', becomes `replaceWith`. */
  function AsSingleLine(input: string, replaceWith: string, newLine: string): (r: string)
    requires |newLine| > 0
    ensures '\n' !in replaceWith ==> '\n' !in r
  {
    var once := Replace(input, newLine, replaceWith);
    var r := Replace(once, "\n", replaceWith);
    assert '\n' !in replaceWith ==> '\n' !in r by {
      if '\n' !in replaceWith { ReplaceRemovesChar(once, '\n', replaceWith); }
    }
    r
  }

  /** `AppendNonEmpty`: nothing for a null or blank input, otherwise the input followed by `other`. */
  function AppendNonEmpty(self: Option<string>, other: string): (r: string)
    ensures IsNullOrWhiteSpace(self) ==> r == ""
    ensures !IsNullOrWhiteSpace(self) ==>
              |r| == |self.value| + |other| && StartsWith(r, self.value) && EndsWith(r, other)
  {
    if IsNullOrWhiteSpace(self) then "" else self.value + other
  }

  /** `PrependNonEmpty`: nothing for a null or blank input, otherwise `other` followed by the input. */
  function PrependNonEmpty(self: Option<string>, other: string): (r: string)
    ensures IsNullOrWhiteSpace(self) ==> r == ""
    ensures !IsNullOrWhiteSpace(self) ==>
              |r| == |other| + |self.value| && StartsWith(r, other) && EndsWith(r, self.value)
  {
    if IsNullOrWhiteSpace(self) then "" else other + self.value
  }

  /** The inputs `Else` replaces by its default. */
  predicate Defers(self: Option<string>, ignoreWhitespace: bool) {
    (IsNullOrWhiteSpace(self) && ignoreWhitespace) || IsNullOrEmpty(self)
  }

  /** `Else`: the default for a null or empty input (or a blank one when whitespace is
      ignored); the input itself otherwise. */
  function Else(self: Option<string>, def: Option<string> := None, ignoreWhitespace: bool := true): (r: Option<string>)
    ensures Defers(self, ignoreWhitespace) ==> r == def
    ensures !Defers(self, ignoreWhitespace) ==> r == self && r.Some? && r.value != ""
    ensures ignoreWhitespace && !Defers(self, ignoreWhitespace) ==> !AllWhiteSpace(r.value)
  {
    if Defers(self, ignoreWhitespace) then def else self
  }

  /** Falling back twice to the same default is falling back once. */
  lemma ElseIdempotent(self: Option<string>, def: Option<string>, ignoreWhitespace: bool)
    ensures Else(Else(self, def, ignoreWhitespace), def, ignoreWhitespace) == Else(self, def, ignoreWhitespace)
  {
  }
}
