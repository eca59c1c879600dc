/** Nuke's `AbsolutePath`, reduced to what the build extension relies on: a root and a list of
    normalised segments, the `/` operator that appends a relative text, `Name`, `Parent`, the
    platform rendering and `GetRelativePathTo`. */
module Paths {
  import opened Strings

  /** An absolute path: a root (such as "/" or "C:") and its segments, none of which is empty,
      "." or "..". */
  datatype AbsolutePath = AbsolutePath(root: string, segments: seq<string>)

  predicate IsSeparator(c: char) {
    c == '/' || c == '\\'
  }

  predicate IsNormalSegment(s: string) {
    s != "" && s != "." && s != ".." && forall i :: 0 <= i < |s| ==> !IsSeparator(s[i])
  }

  predicate Normalised(p: AbsolutePath) {
    forall i :: 0 <= i < |p.segments| ==> IsNormalSegment(p.segments[i])
  }

  /** Where a walk over a relative text stands: the segments so far and the segment being read. */
  datatype Walk = Walk(segments: seq<string>, current: string)

  predicate SeparatorFree(s: string) {
    forall i :: 0 <= i < |s| ==> !IsSeparator(s[i])
  }

  predicate WalkValid(w: Walk) {
    (forall i :: 0 <= i < |w.segments| ==> IsNormalSegment(w.segments[i])) && SeparatorFree(w.current)
  }

  /** Ends one segment: empty and "." segments vanish, ".." removes the last segment. */
  function Flush(segs: seq<string>, seg: string): (r: seq<string>)
    requires forall i :: 0 <= i < |segs| ==> IsNormalSegment(segs[i])
    requires SeparatorFree(seg)
    ensures forall i :: 0 <= i < |r| ==> IsNormalSegment(r[i])
  {
    if seg == "" || seg == "." then segs
    else if seg == ".." then (if |segs| == 0 then segs else segs[..|segs| - 1])
    else segs + [seg]
  }

  /** Reads one character: a separator of either kind ends the current segment. */
  function Step(w: Walk, c: char): (r: Walk)
    requires WalkValid(w)
    ensures WalkValid(r)
  {
    if IsSeparator(c) then Walk(Flush(w.segments, w.current), "") else Walk(w.segments, w.current + [c])
  }

  function Run(w: Walk, text: string): (r: Walk)
    requires WalkValid(w)
    ensures WalkValid(r)
    decreases |text|
  {
    if |text| == 0 then w else Run(Step(w, text[0]), text[1..])
  }

  /** `path / rel`: the segments of `rel` appended one by one. */
  function Combine(p: AbsolutePath, rel: string): (r: AbsolutePath)
    requires Normalised(p)
    ensures Normalised(r) && r.root == p.root
  {
    var w := Run(Walk(p.segments, ""), rel);
    AbsolutePath(p.root, Flush(w.segments, w.current))
  }

  /** `path.Name`: the last segment (the root's name is empty). */
  function Name(p: AbsolutePath): string {
    if |p.segments| == 0 then "" else p.segments[|p.segments| - 1]
  }

  /** `path.Parent`, defined below the root. */
  function Parent(p: AbsolutePath): (r: AbsolutePath)
    requires |p.segments| > 0
    ensures r.root == p.root && r.segments + [Name(p)] == p.segments
  {
    AbsolutePath(p.root, p.segments[..|p.segments| - 1])
  }

  /** `path.ToString()` with the platform's directory separator. */
  function ToText(p: AbsolutePath, sep: char): string {
    if |p.segments| == 0 then p.root else p.root + Join([sep], p.segments)
  }

  /** The number of leading segments two lists share. */
  function CommonPrefix(a: seq<string>, b: seq<string>): (n: nat)
    ensures n <= |a| && n <= |b| && a[..n] == b[..n]
    ensures n < |a| && n < |b| ==> a[n] != b[n]
    decreases |a|
  {
    if |a| == 0 || |b| == 0 || a[0] != b[0] then 0
    else
      var k := CommonPrefix(a[1..], b[1..]);
      assert a[..k + 1] == [a[0]] + a[1..][..k];
      assert b[..k + 1] == [b[0]] + b[1..][..k];
      k + 1
  }

  function Repeat(s: string, n: nat): (r: seq<string>)
    ensures |r| == n && forall i :: 0 <= i < n ==> r[i] == s
  {
    if n == 0 then [] else Repeat(s, n - 1) + [s]
  }

  /** `from.GetRelativePathTo(to)`: ".." for every segment of `from` past the common prefix,
      then the rest of `to`; "." for the same path; `to` itself under another root. */
  function RelativeSegments(from: AbsolutePath, to: AbsolutePath): seq<string> {
    var n := CommonPrefix(from.segments, to.segments);
    Repeat("..", |from.segments| - n) + to.segments[n..]
  }

  function GetRelativePathTo(from: AbsolutePath, to: AbsolutePath, sep: char): (r: string)
    ensures from.root == to.root && from.segments == to.segments ==> r == "."
  {
    if from.root != to.root then ToText(to, sep)
    else
      var rel := RelativeSegments(from, to);
      if |rel| == 0 then "." else Join([sep], rel)
  }

  lemma {:induction false} RunConcat(w: Walk, a: string, b: string)
    requires WalkValid(w)
    ensures Run(w, a + b) == Run(Run(w, a), b)
    decreases |a|
  {
    if |a| > 0 {
      assert (a + b)[0] == a[0] && (a + b)[1..] == a[1..] + b;
      RunConcat(Step(w, a[0]), a[1..], b);
    } else {
      assert a + b == b;
    }
  }

  /** Reading separator-free text only extends the current segment. */
  lemma {:induction false} RunPlain(w: Walk, s: string)
    requires WalkValid(w) && SeparatorFree(s)
    ensures Run(w, s) == Walk(w.segments, w.current + s)
    decreases |s|
  {
    if |s| > 0 {
      RunPlain(Step(w, s[0]), s[1..]);
      assert w.current + [s[0]] + s[1..] == w.current + s;
    }
  }

  /** Appending a single normal segment adds exactly that segment. */
  lemma CombineSegment(p: AbsolutePath, name: string)
    requires Normalised(p) && IsNormalSegment(name)
    ensures Combine(p, name) == AbsolutePath(p.root, p.segments + [name])
  {
    RunPlain(Walk(p.segments, ""), name);
    assert "" + name == name;
  }

  /** Appending normal segments joined by a separator appends exactly those segments. */
  lemma {:induction false} RunJoined(segs: seq<string>, xs: seq<string>, sep: char)
    requires forall i :: 0 <= i < |segs| ==> IsNormalSegment(segs[i])
    requires forall i :: 0 <= i < |xs| ==> IsNormalSegment(xs[i])
    requires IsSeparator(sep) && |xs| > 0
    ensures Run(Walk(segs, ""), Join([sep], xs)) == Walk(segs + xs[..|xs| - 1], xs[|xs| - 1])
    decreases |xs|
  {
    RunPlain(Walk(segs, ""), xs[0]);
    assert "" + xs[0] == xs[0];
    if |xs| > 1 {
      var rest := Join([sep], xs[1..]);
      assert Join([sep], xs) == xs[0] + ([sep] + rest);
      RunConcat(Walk(segs, ""), xs[0], [sep] + rest);
      RunSeparator(segs, xs[0], sep, rest);
      RunJoined(segs + [xs[0]], xs[1..], sep);
      assert segs + [xs[0]] + xs[1..][..|xs[1..]| - 1] == segs + xs[..|xs| - 1];
    }
  }

  /** A separator after a normal segment ends it. */
  lemma RunSeparator(segs: seq<string>, cur: string, sep: char, rest: string)
    requires forall i :: 0 <= i < |segs| ==> IsNormalSegment(segs[i])
    requires IsNormalSegment(cur) && IsSeparator(sep)
    ensures Run(Walk(segs, cur), [sep] + rest) == Run(Walk(segs + [cur], ""), rest)
  {
    assert ([sep] + rest)[0] == sep && ([sep] + rest)[1..] == rest;
    assert Step(Walk(segs, cur), sep) == Walk(segs + [cur], "");
  }

  /** A collapsed "//" reads like the "/" it came from. */
  lemma {:induction false} RunCollapse(w: Walk, s: string)
    requires WalkValid(w)
    ensures Run(w, Replace(s, "//", "/")) == Run(w, s)
    decreases |s|
  {
    if |s| >= 2 {
      if s[..2] == "//" {
        ReplaceMatch(s, "//", "/");
        var t := Replace(s[2..], "//", "/");
        RunConcat(w, "/", t);
        RunCollapse(Step(w, '/'), s[2..]);
        assert Step(Step(w, '/'), '/') == Step(w, '/');
        assert s == "//" + s[2..];
        RunConcat(w, "//", s[2..]);
      } else {
        ReplaceSkip(s, "//", "/");
        RunConcat(w, [s[0]], Replace(s[1..], "//", "/"));
        RunCollapse(Step(w, s[0]), s[1..]);
      }
    } else {
      assert Replace(s, "//", "/") == s;
    }
  }

  /** Collapsing "//" to "/" never changes the path a text denotes. */
  lemma CombineCollapse(p: AbsolutePath, rel: string)
    requires Normalised(p)
    ensures Combine(p, Replace(rel, "//", "/")) == Combine(p, rel)
  {
    RunCollapse(Walk(p.segments, ""), rel);
  }

  /** Below a directory, the relative path of a descendant is its remaining segments. */
  lemma RelativeToAncestor(from: AbsolutePath, rest: seq<string>)
    ensures RelativeSegments(from, AbsolutePath(from.root, from.segments + rest)) == rest
  {
    var to := AbsolutePath(from.root, from.segments + rest);
    var n := CommonPrefix(from.segments, to.segments);
    if n < |from.segments| {
      assert false;
    }
    assert to.segments[n..] == rest;
  }

  /** `path / "a/b/c"` appends the segments a, b and c. */
  lemma CombineJoined(p: AbsolutePath, xs: seq<string>, sep: char)
    requires Normalised(p) && IsSeparator(sep)
    requires forall i :: 0 <= i < |xs| ==> IsNormalSegment(xs[i])
    ensures Combine(p, Join([sep], xs)) == AbsolutePath(p.root, p.segments + xs)
  {
    if |xs| > 0 {
      RunJoined(p.segments, xs, sep);
      SnocSplit(p.segments, xs);
    } else {
      CombineNothing(p, Join([sep], xs));
      assert p.segments + xs == p.segments;
    }
  }

  lemma SnocSplit<T>(a: seq<T>, xs: seq<T>)
    requires |xs| > 0
    ensures a + xs[..|xs| - 1] + [xs[|xs| - 1]] == a + xs
  {
    assert xs[..|xs| - 1] + [xs[|xs| - 1]] == xs;
  }

  lemma ConcatAssoc<T>(a: seq<T>, b: seq<T>, c: seq<T>)
    ensures a + b + c == a + (b + c)
  {
  }

  lemma CombineNothing(p: AbsolutePath, rel: string)
    requires Normalised(p) && |rel| == 0
    ensures Combine(p, rel) == p
  {
  }

  /** The relative path from a directory to one of its descendants, rendered with `sep`, is
      the descendant's remaining segments joined by `sep`. */
  lemma RelativePathToDescendant(from: AbsolutePath, rest: seq<string>, sep: char)
    requires |rest| > 0
    ensures GetRelativePathTo(from, AbsolutePath(from.root, from.segments + rest), sep) == Join([sep], rest)
  {
    RelativeToAncestor(from, rest);
  }
}
