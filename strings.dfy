/** The parts of .NET's `string` API the code relies on, with the semantics of the
    runtime: `String.Replace` (left to right, non-overlapping), `IsNullOrWhiteSpace`,
    `String.Join`, ordinal and case-insensitive prefix and containment tests, and the
    decimal rendering of integers. */
module Strings {
  import opened Wrappers

  /** `char.IsWhiteSpace`: the Unicode space separators plus U+0009..U+000D, U+0085,
      U+2028 and U+2029. */
  predicate IsWhiteSpace(c: char) {
    c == ' ' || ('\t' <= c <= '\r') || c == '\U{85}' || c == '\U{A0}' || c == '\U{1680}'
    || ('\U{2000}' <= c <= '\U{200A}') || c == '\U{2028}' || c == '\U{2029}'
    || c == '\U{202F}' || c == '\U{205F}' || c == '\U{3000}'
  }

  predicate AllWhiteSpace(s: string) {
    forall i :: 0 <= i < |s| ==> IsWhiteSpace(s[i])
  }

  /** `string.IsNullOrWhiteSpace` */
  predicate IsNullOrWhiteSpace(s: Option<string>) {
    s.None? || AllWhiteSpace(s.value)
  }

  /** `string.IsNullOrEmpty` */
  predicate IsNullOrEmpty(s: Option<string>) {
    s.None? || s.value == ""
  }

  predicate StartsWith(s: string, p: string) {
    |p| <= |s| && s[..|p|] == p
  }

  predicate EndsWith(s: string, p: string) {
    |p| <= |s| && s[|s| - |p|..] == p
  }

  /** Ordinal `Contains`: some suffix of `s` starts with `p`. */
  predicate Contains(s: string, p: string)
    decreases |s|
  {
    StartsWith(s, p) || (|s| > 0 && Contains(s[1..], p))
  }

  /** Simple case mapping of the ASCII letters; the model's stand-in for the invariant
      culture's and ordinal case-insensitive comparisons. */
  function ToLower(c: char): char {
    if 'A' <= c <= 'Z' then (c as int + 32) as char else c
  }

  predicate EqualsIgnoreCase(a: string, b: string) {
    |a| == |b| && forall i :: 0 <= i < |a| ==> ToLower(a[i]) == ToLower(b[i])
  }

  predicate StartsWithIgnoreCase(s: string, p: string) {
    |p| <= |s| && EqualsIgnoreCase(s[..|p|], p)
  }

  predicate EndsWithIgnoreCase(s: string, p: string) {
    |p| <= |s| && EqualsIgnoreCase(s[|s| - |p|..], p)
  }

  predicate ContainsIgnoreCase(s: string, p: string)
    decreases |s|
  {
    StartsWithIgnoreCase(s, p) || (|s| > 0 && ContainsIgnoreCase(s[1..], p))
  }

  predicate StartsWithAnyIgnoreCase(s: string, ps: seq<string>) {
    exists i :: 0 <= i < |ps| && StartsWithIgnoreCase(s, ps[i])
  }

  predicate ContainsAnyIgnoreCase(s: string, ps: seq<string>) {
    exists i :: 0 <= i < |ps| && ContainsIgnoreCase(s, ps[i])
  }

  /** `String.Replace(p, r)`: every occurrence of `p`, scanning left to right and
      resuming after each replaced occurrence, becomes `r`. (.NET rejects an empty `p`.) */
  function Replace(s: string, p: string, r: string): string
    requires |p| > 0
    decreases |s|
  {
    if |s| < |p| then s
    else if s[..|p|] == p then r + Replace(s[|p|..], p, r)
    else [s[0]] + Replace(s[1..], p, r)
  }

  /** `String.Replace(p, r, ignoreCase: true, culture)` with the simple case mapping. */
  function ReplaceIgnoreCase(s: string, p: string, r: string): string
    requires |p| > 0
    decreases |s|
  {
    if |s| < |p| then s
    else if EqualsIgnoreCase(s[..|p|], p) then r + ReplaceIgnoreCase(s[|p|..], p, r)
    else [s[0]] + ReplaceIgnoreCase(s[1..], p, r)
  }

  /** `string.Join(sep, xs)` */
  function Join(sep: string, xs: seq<string>): string
    decreases |xs|
  {
    if |xs| == 0 then ""
    else if |xs| == 1 then xs[0]
    else xs[0] + sep + Join(sep, xs[1..])
  }

  lemma JoinTwo(sep: string, x: string, y: string)
    ensures Join(sep, [x, y]) == x + sep + y
  {
    assert [x, y][1..] == [y];
  }

  function DigitChar(d: nat): char
    requires d < 10
  {
    ('0' as int + d) as char
  }

  /** `ToString()` of a non-negative integer: its decimal digits, most significant first. */
  function NatToString(n: nat): (s: string)
    ensures |s| > 0
    ensures forall i :: 0 <= i < |s| ==> '0' <= s[i] <= '9'
    decreases n
  {
    if n < 10 then [DigitChar(n)] else NatToString(n / 10) + [DigitChar(n % 10)]
  }

  /** `int.ToString()` with the invariant culture. */
  function IntToString(n: int): string {
    if n < 0 then "-" + NatToString(-n) else NatToString(n)
  }

  /** Without an occurrence of the pattern, `Replace` leaves the text unchanged. */
  lemma {:induction false} ReplaceWithoutOccurrence(s: string, p: string, r: string)
    requires |p| > 0
    requires !Contains(s, p)
    ensures Replace(s, p, r) == s
    decreases |s|
  {
    if |s| >= |p| {
      assert s[..|p|] != p;
      assert !Contains(s[1..], p);
      ReplaceWithoutOccurrence(s[1..], p, r);
      assert [s[0]] + s[1..] == s;
    }
  }

  /** Case-insensitive `Replace` without a case-insensitive occurrence is the identity. */
  lemma {:induction false} ReplaceIgnoreCaseWithoutOccurrence(s: string, p: string, r: string)
    requires |p| > 0
    requires !ContainsIgnoreCase(s, p)
    ensures ReplaceIgnoreCase(s, p, r) == s
    decreases |s|
  {
    if |s| >= |p| {
      assert !EqualsIgnoreCase(s[..|p|], p);
      assert !ContainsIgnoreCase(s[1..], p);
      ReplaceIgnoreCaseWithoutOccurrence(s[1..], p, r);
      assert [s[0]] + s[1..] == s;
    }
  }

  /** Replacing a single character by a text that does not contain it removes every
      occurrence of that character. */
  lemma {:induction false} ReplaceRemovesChar(s: string, c: char, r: string)
    requires c !in r
    ensures c !in Replace(s, [c], r)
    decreases |s|
  {
    if |s| >= 1 {
      ReplaceRemovesChar(s[1..], c, r);
    }
  }

  /** A pattern with a character that the text lacks never occurs, so nothing is replaced. */
  lemma {:induction false} ReplaceAbsent(s: string, p: string, r: string, k: nat)
    requires 0 <= k < |p| && p[k] !in s
    ensures Replace(s, p, r) == s
    decreases |s|
  {
    if |s| >= |p| {
      assert s[k] == s[..|p|][k];
      ReplaceAbsent(s[1..], p, r, k);
      assert [s[0]] + s[1..] == s;
    }
  }

  /** A pattern whose last character occurs nowhere before its end, appended to a text without
      that character, is replaced exactly once: at the end. */
  lemma {:induction false} ReplaceTrailing(x: string, p: string, r: string)
    requires |p| > 0 && p[|p| - 1] !in x && p[|p| - 1] !in p[..|p| - 1]
    ensures Replace(x + p, p, r) == x + r
    decreases |x|
  {
    var s := x + p;
    if |x| == 0 {
      assert s == p;
      ReplaceMatch(s, p, r);
      assert s[|p|..] == "";
    } else {
      HeadIsNotPattern(x, p);
      ReplaceSkip(s, p, r);
      assert s[1..] == x[1..] + p;
      ReplaceTrailing(x[1..], p, r);
      assert [x[0]] + x[1..] == x;
    }
  }

  lemma HeadIsNotPattern(x: string, p: string)
    requires |x| > 0 && |p| > 0 && p[|p| - 1] !in x && p[|p| - 1] !in p[..|p| - 1]
    ensures (x + p)[..|p|] != p
  {
    var s, last := x + p, |p| - 1;
    if last < |x| {
      assert s[last] == x[last];
    } else {
      assert s[last] == p[last - |x|];
      assert p[last - |x|] == p[..last][last - |x|];
    }
    assert s[..|p|][last] == s[last];
  }

  /** `Replace` introduces a character only through the replacement text. */
  lemma {:induction false} ReplaceKeepsAbsent(s: string, p: string, r: string, c: char)
    requires |p| > 0 && c !in s && c !in r
    ensures c !in Replace(s, p, r)
    decreases |s|
  {
    if |s| >= |p| {
      if s[..|p|] == p {
        ReplaceKeepsAbsent(s[|p|..], p, r, c);
      } else {
        ReplaceKeepsAbsent(s[1..], p, r, c);
      }
    }
  }

  /** `Replace` of a one-character pattern distributes over a concatenation. */
  lemma {:induction false} ReplaceCharConcat(a: string, b: string, c: char, r: string)
    ensures Replace(a + b, [c], r) == Replace(a, [c], r) + Replace(b, [c], r)
    decreases |a|
  {
    if |a| == 0 {
      assert a + b == b;
    } else {
      assert (a + b)[..1] == a[..1];
      assert (a + b)[1..] == a[1..] + b;
      ReplaceCharConcat(a[1..], b, c, r);
    }
  }

  lemma ReplaceSkip(s: string, p: string, r: string)
    requires 0 < |p| <= |s| && s[..|p|] != p
    ensures Replace(s, p, r) == [s[0]] + Replace(s[1..], p, r)
  {
  }

  lemma ReplaceMatch(s: string, p: string, r: string)
    requires 0 < |p| <= |s| && s[..|p|] == p
    ensures Replace(s, p, r) == r + Replace(s[|p|..], p, r)
  {
  }

  lemma SkipHead(a: string, b: string, p: string, r: string)
    requires |p| == 2 && |a| >= 2 && a[..2] != p
    ensures Replace(a + b, p, r) == [a[0]] + Replace(a[1..] + b, p, r)
  {
    var s := a + b;
    assert s[..2] == a[..2];
    assert s[1..] == a[1..] + b;
    ReplaceSkip(s, p, r);
  }

  lemma MatchHead(a: string, b: string, p: string, r: string)
    requires |p| == 2 && |a| >= 2 && a[..2] == p
    ensures Replace(a + b, p, r) == r + Replace(a[2..] + b, p, r)
  {
    var s := a + b;
    assert s[..2] == a[..2];
    assert s[2..] == a[2..] + b;
    ReplaceMatch(s, p, r);
  }

  lemma PairConcatShort(a: string, b: string, p: string, r: string)
    requires |p| == 2 && |a| == 1 && a[0] != p[0]
    ensures Replace(a + b, p, r) == Replace(a, p, r) + Replace(b, p, r)
  {
    var s := a + b;
    assert Replace(a, p, r) == a;
    if |s| >= 2 {
      assert s[..2][0] == a[0] && s[1..] == b;
      ReplaceSkip(s, p, r);
    } else {
      assert s == a && b == [];
    }
  }

  lemma PairConcatMatch(a: string, b: string, p: string, r: string)
    requires |p| == 2 && |a| >= 2 && a[..2] == p
    requires Replace(a[2..] + b, p, r) == Replace(a[2..], p, r) + Replace(b, p, r)
    ensures Replace(a + b, p, r) == Replace(a, p, r) + Replace(b, p, r)
  {
    MatchHead(a, b, p, r);
    ReplaceMatch(a, p, r);
    var x, y := Replace(a[2..], p, r), Replace(b, p, r);
    assert r + (x + y) == (r + x) + y;
  }

  lemma PairConcatSkip(a: string, b: string, p: string, r: string)
    requires |p| == 2 && |a| >= 2 && a[..2] != p
    requires Replace(a[1..] + b, p, r) == Replace(a[1..], p, r) + Replace(b, p, r)
    ensures Replace(a + b, p, r) == Replace(a, p, r) + Replace(b, p, r)
  {
    SkipHead(a, b, p, r);
    ReplaceSkip(a, p, r);
    var x, y := Replace(a[1..], p, r), Replace(b, p, r);
    assert [a[0]] + (x + y) == ([a[0]] + x) + y;
  }

  /** `Replace` of a two-character pattern distributes over a concatenation whose left
      part does not end with the pattern's first character. */
  lemma {:induction false} ReplacePairConcat(a: string, b: string, p: string, r: string)
    requires |p| == 2 && (|a| == 0 || a[|a| - 1] != p[0])
    ensures Replace(a + b, p, r) == Replace(a, p, r) + Replace(b, p, r)
    decreases |a|
  {
    if |a| == 0 {
      assert a + b == b;
    } else if |a| == 1 {
      PairConcatShort(a, b, p, r);
    } else if a[..2] == p {
      assert |a| > 2 ==> a[2..][|a| - 3] == a[|a| - 1];
      ReplacePairConcat(a[2..], b, p, r);
      PairConcatMatch(a, b, p, r);
    } else {
      assert a[1..][|a| - 2] == a[|a| - 1];
      ReplacePairConcat(a[1..], b, p, r);
      PairConcatSkip(a, b, p, r);
    }
  }

  lemma {:induction false} AllWhiteSpaceConcat(a: string, b: string)
    ensures AllWhiteSpace(a + b) <==> AllWhiteSpace(a) && AllWhiteSpace(b)
  {
    if AllWhiteSpace(a) && AllWhiteSpace(b) {
      forall i | 0 <= i < |a + b| ensures IsWhiteSpace((a + b)[i]) {
        if i < |a| { assert (a + b)[i] == a[i]; } else { assert (a + b)[i] == b[i - |a|]; }
      }
    }
    if AllWhiteSpace(a + b) {
      forall i | 0 <= i < |a| ensures IsWhiteSpace(a[i]) { assert (a + b)[i] == a[i]; }
      forall i | 0 <= i < |b| ensures IsWhiteSpace(b[i]) { assert (a + b)[|a| + i] == b[i]; }
    }
  }

  lemma {:induction false} ContainsShort(s: string, p: string)
    requires |s| < |p|
    ensures !Contains(s, p)
    decreases |s|
  {
    if |s| > 0 {
      ContainsShort(s[1..], p);
    }
  }

  /** A text occurs wherever it stands between two others. */
  lemma {:induction false} ContainsInfix(a: string, p: string, b: string)
    ensures Contains(a + p + b, p)
    decreases |a|
  {
    if |a| == 0 {
      assert (a + p + b)[..|p|] == p;
    } else {
      assert (a + p + b)[1..] == a[1..] + p + b;
      ContainsInfix(a[1..], p, b);
    }
  }

  /** Every element of a list occurs in the list joined, whatever surrounds it. */
  lemma {:induction false} ContainsJoined(sep: string, xs: seq<string>, k: nat, before: string, after: string)
    requires k < |xs|
    ensures Contains(before + Join(sep, xs) + after, xs[k])
    decreases k
  {
    if |xs| == 1 {
      ContainsInfix(before, xs[0], after);
    } else if k == 0 {
      assert before + Join(sep, xs) + after == before + xs[0] + (sep + Join(sep, xs[1..]) + after);
      ContainsInfix(before, xs[0], sep + Join(sep, xs[1..]) + after);
    } else {
      assert before + Join(sep, xs) + after == (before + xs[0] + sep) + Join(sep, xs[1..]) + after;
      ContainsJoined(sep, xs[1..], k - 1, before + xs[0] + sep, after);
    }
  }

  /** An occurrence in `a + b` that cannot start inside `a` lies in `b`. */
  lemma {:induction false} ContainsAfter(a: string, b: string, p: string)
    requires |p| > 0 && p[0] !in a
    ensures Contains(a + b, p) ==> Contains(b, p)
    decreases |a|
  {
    if |a| > 0 {
      assert (a + b)[1..] == a[1..] + b;
      assert (a + b)[0] == a[0];
      ContainsAfter(a[1..], b, p);
    } else {
      assert a + b == b;
    }
  }

  /** Replacing a two-character pattern by a text that shares no character with it leaves
      no occurrence of the pattern behind; the result starts with the text's first character
      or with a replacement. */
  lemma {:induction false} ReplaceLeavesNoOccurrence(s: string, p: string, r: string)
    requires |p| == 2 && |r| > 0 && p[0] !in r && p[1] !in r
    ensures !Contains(Replace(s, p, r), p)
    ensures |Replace(s, p, r)| == 0 <==> |s| == 0
    ensures |s| > 0 ==> Replace(s, p, r)[0] == s[0] || Replace(s, p, r)[0] == r[0]
    decreases |s|
  {
    var t := Replace(s, p, r);
    if |s| < 2 {
      ContainsShort(s, p);
    } else if s[..2] == p {
      ReplaceLeavesNoOccurrence(s[2..], p, r);
      ContainsAfter(r, Replace(s[2..], p, r), p);
    } else {
      var u := Replace(s[1..], p, r);
      ReplaceLeavesNoOccurrence(s[1..], p, r);
      assert t == [s[0]] + u;
      assert t[1..] == u;
    }
  }
}
