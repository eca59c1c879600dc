/** The license comment of `LicenseRegion.cs`: the Doxygen comment template, the removal of an
    existing leading comment, the license text turned into comment lines, the text a processed
    file receives, and the `LicenseRegion` options object with its template dictionary. Line
    breaks are `\n`, both when splitting and when joining. */
module LicenseRegions {
  import opened Wrappers
  import opened Strings
  import opened Paths

  /** `LicenseCommentData(License, Author, Year)` */
  datatype LicenseCommentData = LicenseCommentData(license: string, author: string, year: int)

  // ---- Lines -----------------------------------------------------------------------------

  /** `SplitLineBreaks()`: the texts between line breaks; a text without one is one line. */
  function SplitLines(s: string): (r: seq<string>)
    ensures |r| >= 1
    ensures forall k :: 0 <= k < |r| ==> '\n' !in r[k]
    decreases |s|
  {
    if |s| == 0 then [""]
    else
      var rest := SplitLines(s[1..]);
      if s[0] == '\n' then [""] + rest else [[s[0]] + rest[0]] + rest[1..]
  }

  /** `JoinNewLine()` */
  function JoinLines(lines: seq<string>): string {
    Join("\n", lines)
  }

  lemma {:induction false} JoinConcat(a: seq<string>, b: seq<string>)
    requires |a| > 0 && |b| > 0
    ensures JoinLines(a + b) == JoinLines(a) + "\n" + JoinLines(b)
    decreases |a|
  {
    if |a| == 1 {
      assert (a + b)[1..] == b;
    } else {
      assert (a + b)[1..] == a[1..] + b;
      JoinConcat(a[1..], b);
    }
  }

  /** Joining the lines of a text gives the text back. */
  lemma {:induction false} JoinSplit(s: string)
    ensures JoinLines(SplitLines(s)) == s
    decreases |s|
  {
    if |s| > 0 {
      var rest := SplitLines(s[1..]);
      JoinSplit(s[1..]);
      if s[0] == '\n' {
        JoinConcat([""], rest);
      } else if |rest| == 1 {
        assert s == [s[0]] + rest[0];
      } else {
        JoinConcat([rest[0]], rest[1..]);
        JoinConcat([[s[0]] + rest[0]], rest[1..]);
        assert rest == [rest[0]] + rest[1..];
      }
    }
  }

  /** Splitting joined lines without line breaks gives the lines back. */
  lemma {:induction false} SplitJoin(lines: seq<string>)
    requires |lines| > 0 && forall k :: 0 <= k < |lines| ==> '\n' !in lines[k]
    ensures SplitLines(JoinLines(lines)) == lines
    decreases |lines|, |lines[0]|
  {
    if |lines[0]| > 0 {
      var l := lines[0];
      var shorter := [l[1..]] + lines[1..];
      assert JoinLines(lines) == [l[0]] + JoinLines(shorter) by {
        if |lines| == 1 {
          assert shorter == [l[1..]];
        } else {
          JoinConcat([l], lines[1..]);
          JoinConcat([l[1..]], lines[1..]);
          assert lines == [l] + lines[1..];
          assert shorter[1..] == lines[1..];
        }
      }
      assert forall k :: 1 <= k < |shorter| ==> shorter[k] == lines[k];
      SplitJoin(shorter);
      assert ([l[0]] + JoinLines(shorter))[1..] == JoinLines(shorter);
      assert l == [l[0]] + l[1..];
      assert [[l[0]] + l[1..]] + lines[1..] == lines;
    } else if |lines| > 1 {
      JoinConcat([lines[0]], lines[1..]);
      assert JoinLines(lines) == "\n" + JoinLines(lines[1..]);
      assert ("\n" + JoinLines(lines[1..]))[1..] == JoinLines(lines[1..]);
      SplitJoin(lines[1..]);
      assert [""] + lines[1..] == lines;
    }
  }

  /** The lines of two texts joined by a line break are the lines of each. */
  lemma SplitConcat(a: string, b: string)
    ensures SplitLines(a + "\n" + b) == SplitLines(a) + SplitLines(b)
  {
    JoinSplit(a);
    JoinSplit(b);
    JoinConcat(SplitLines(a), SplitLines(b));
    SplitJoin(SplitLines(a) + SplitLines(b));
  }

  // ---- The Doxygen template --------------------------------------------------------------

  const CommentStart: string := "/** @noop License Comment"
  const LinePrefix: string := " *  "
  const CommentEnd: string := " */"
  const CommentPrefixes: seq<string> := [CommentStart, LinePrefix, CommentEnd]

  predicate IsCommentLine(l: string) {
    StartsWithAnyIgnoreCase(l, CommentPrefixes)
  }

  /** `SkipWhile` of the lines that start with one of the comment prefixes. */
  function SkipCommentLines(lines: seq<string>): (r: seq<string>)
    ensures |r| <= |lines| && r == lines[|lines| - |r|..]
    ensures forall k :: 0 <= k < |lines| - |r| ==> IsCommentLine(lines[k])
    ensures |r| > 0 ==> !IsCommentLine(r[0])
    decreases |lines|
  {
    if |lines| > 0 && IsCommentLine(lines[0]) then SkipCommentLines(lines[1..]) else lines
  }

  /** `RemoveExistingComment(fileContent)`: the content without its leading run of comment lines. */
  function RemoveExistingComment(fileContent: string): string {
    JoinLines(SkipCommentLines(SplitLines(fileContent)))
  }

  function TransformLine(l: string): (r: string)
    ensures StartsWith(r, LinePrefix)
  {
    if AllWhiteSpace(l) then LinePrefix + "@copyright" else LinePrefix + l
  }

  /** The license lines as comment lines, one for one. */
  function TransformLines(lines: seq<string>): (r: seq<string>)
    ensures |r| == |lines| && forall k :: 0 <= k < |lines| ==> r[k] == TransformLine(lines[k])
  {
    seq(|lines|, k requires 0 <= k < |lines| => TransformLine(lines[k]))
  }

  /** `TransformLicenseText(license)` */
  function TransformLicenseText(license: string): string {
    JoinLines(TransformLines(SplitLines(license)))
  }

  function Header(): seq<string> {
    [CommentStart, LinePrefix + "@file", LinePrefix + "@copyright"]
  }

  function Footer(author: string, year: int): seq<string> {
    [LinePrefix, LinePrefix + "@author " + author, LinePrefix + "@date " + IntToString(year), CommentEnd]
  }

  /** The leading comment template rendered with the data, the license already transformed:
      its lines joined, `{{ license }}`, `{{ author }}` and `{{ year }}` substituted. */
  function CommentText(data: LicenseCommentData): string {
    JoinLines(Header() + [TransformLicenseText(data.license)] + Footer(data.author, data.year))
  }

  /** What `ProcessLicenseRegion` writes to a selected file: the comment, a line break, and the
      file's text without its existing comment. */
  function LicensedText(fileContent: string, data: LicenseCommentData): string {
    CommentText(data) + "\n" + RemoveExistingComment(fileContent)
  }

  // ---- Properties ------------------------------------------------------------------------

  lemma StartsWithOwnPrefix(p: string, x: string)
    ensures StartsWithIgnoreCase(p + x, p)
  {
    assert (p + x)[..|p|] == p;
  }

  /** A text made of a comment prefix and anything after it is a comment line. */
  lemma PrefixIsCommentLine(k: nat, x: string)
    requires k < |CommentPrefixes|
    ensures IsCommentLine(CommentPrefixes[k] + x)
  {
    StartsWithOwnPrefix(CommentPrefixes[k], x);
  }

  lemma PrefixedIsCommentLine(x: string)
    ensures IsCommentLine(LinePrefix + x)
  {
    PrefixIsCommentLine(1, x);
  }

  /** The comment's lines: the header, one line per license line, the footer. */
  function CommentLines(data: LicenseCommentData): seq<string> {
    Header() + TransformLines(SplitLines(data.license)) + Footer(data.author, data.year)
  }

  lemma CommentTextLines(data: LicenseCommentData)
    ensures CommentText(data) == JoinLines(CommentLines(data))
  {
    var license := TransformLines(SplitLines(data.license));
    var footer := Footer(data.author, data.year);
    JoinConcat(Header(), [TransformLicenseText(data.license)]);
    JoinConcat(Header() + [TransformLicenseText(data.license)], footer);
    assert JoinLines([TransformLicenseText(data.license)]) == JoinLines(license);
    JoinConcat(Header(), license);
    JoinConcat(Header() + license, footer);
  }

  lemma {:induction false} DigitsHaveNoBreak(n: nat)
    ensures '\n' !in NatToString(n)
  {
  }

  /** Comment lines, none of which holds a line break. */
  predicate AllCommentLines(ls: seq<string>) {
    forall k :: 0 <= k < |ls| ==> IsCommentLine(ls[k]) && '\n' !in ls[k]
  }

  /** A comment prefix followed by a text without a line break is a comment line without one. */
  lemma PrefixedLine(k: nat, x: string)
    requires k < |CommentPrefixes| && '\n' !in x
    ensures IsCommentLine(CommentPrefixes[k] + x) && '\n' !in CommentPrefixes[k] + x
  {
    PrefixIsCommentLine(k, x);
    assert '\n' !in CommentPrefixes[k];
  }

  lemma ConsCommentLine(l: string, rest: seq<string>)
    requires IsCommentLine(l) && '\n' !in l && AllCommentLines(rest)
    ensures AllCommentLines([l] + rest)
  {
    assert forall k :: 1 <= k < |[l] + rest| ==> ([l] + rest)[k] == rest[k - 1];
  }

  lemma HeaderIsComment()
    ensures AllCommentLines(Header())
  {
    PrefixedLine(0, "");
    PrefixedLine(1, "@file");
    PrefixedLine(1, "@copyright");
    var h0, h1, h2 := CommentStart, LinePrefix + "@file", LinePrefix + "@copyright";
    assert CommentStart + "" == CommentStart;
    ConsCommentLine(h2, []);
    ConsCommentLine(h1, [h2]);
    ConsCommentLine(h0, [h1] + [h2]);
    assert Header() == [h0] + ([h1] + [h2]);
  }

  /** A tagged line of the comment, such as `@author` followed by the author. */
  lemma TaggedLine(tag: string, x: string)
    requires '\n' !in tag && '\n' !in x
    ensures IsCommentLine(LinePrefix + tag + x) && '\n' !in LinePrefix + tag + x
  {
    PrefixedLine(1, tag + x);
    assert LinePrefix + tag + x == LinePrefix + (tag + x);
  }

  lemma FooterIsComment(author: string, year: int)
    requires '\n' !in author
    ensures AllCommentLines(Footer(author, year))
  {
    DigitsHaveNoBreak(if year < 0 then -year else year);
    var f0, f1 := LinePrefix, LinePrefix + "@author " + author;
    var f2, f3 := LinePrefix + "@date " + IntToString(year), CommentEnd;
    PrefixedLine(1, "");
    assert LinePrefix + "" == LinePrefix;
    TaggedLine("@author ", author);
    TaggedLine("@date ", IntToString(year));
    PrefixedLine(2, "");
    assert CommentEnd + "" == CommentEnd;
    ConsCommentLine(f3, []);
    ConsCommentLine(f2, [f3]);
    ConsCommentLine(f1, [f2] + [f3]);
    ConsCommentLine(f0, [f1] + ([f2] + [f3]));
    assert Footer(author, year) == [f0] + ([f1] + ([f2] + [f3]));
  }

  lemma TransformedIsComment(lines: seq<string>)
    requires forall k :: 0 <= k < |lines| ==> '\n' !in lines[k]
    ensures AllCommentLines(TransformLines(lines))
  {
    var t := TransformLines(lines);
    forall k | 0 <= k < |t| ensures IsCommentLine(t[k]) && '\n' !in t[k] {
      if AllWhiteSpace(lines[k]) {
        PrefixedIsCommentLine("@copyright");
      } else {
        PrefixedIsCommentLine(lines[k]);
      }
    }
  }

  lemma AllCommentLinesConcat(a: seq<string>, b: seq<string>)
    requires AllCommentLines(a) && AllCommentLines(b)
    ensures AllCommentLines(a + b)
  {
    forall k | 0 <= k < |a + b| ensures IsCommentLine((a + b)[k]) && '\n' !in (a + b)[k] {
      if k < |a| { assert (a + b)[k] == a[k]; } else { assert (a + b)[k] == b[k - |a|]; }
    }
  }

  /** The comment of data whose author has no line break consists of comment lines only, none
      of which holds a line break. */
  lemma CommentLinesAreComment(data: LicenseCommentData)
    requires '\n' !in data.author
    ensures AllCommentLines(CommentLines(data))
  {
    HeaderIsComment();
    TransformedIsComment(SplitLines(data.license));
    FooterIsComment(data.author, data.year);
    AllCommentLinesConcat(Header(), TransformLines(SplitLines(data.license)));
    AllCommentLinesConcat(Header() + TransformLines(SplitLines(data.license)), Footer(data.author, data.year));
  }

  /** Skipping comment lines passes over a leading block of comment lines. */
  lemma {:induction false} SkipPastComment(comment: seq<string>, rest: seq<string>)
    requires forall k :: 0 <= k < |comment| ==> IsCommentLine(comment[k])
    ensures SkipCommentLines(comment + rest) == SkipCommentLines(rest)
    decreases |comment|
  {
    if |comment| == 0 {
      assert comment + rest == rest;
    } else {
      assert (comment + rest)[1..] == comment[1..] + rest;
      SkipPastComment(comment[1..], rest);
    }
  }

  /** Removing the comment twice removes nothing more. */
  lemma RemoveExistingCommentIdempotent(fileContent: string)
    ensures RemoveExistingComment(RemoveExistingComment(fileContent)) == RemoveExistingComment(fileContent)
  {
    var kept := SkipCommentLines(SplitLines(fileContent));
    if |kept| == 0 {
      assert RemoveExistingComment(fileContent) == "";
      assert SplitLines("") == [""];
      assert !IsCommentLine("") by {
        forall i | 0 <= i < |CommentPrefixes| ensures !StartsWithIgnoreCase("", CommentPrefixes[i]) { }
      }
    } else {
      SplitJoin(kept);
    }
  }

  /** Licensing a licensed file again replaces its comment: the result is what licensing the
      original with the new data gives. */
  lemma LicensedTextReplacesComment(fileContent: string, first: LicenseCommentData, second: LicenseCommentData)
    requires '\n' !in first.author
    ensures LicensedText(LicensedText(fileContent, first), second) == LicensedText(fileContent, second)
  {
    var body := RemoveExistingComment(fileContent);
    CommentTextLines(first);
    CommentLinesAreComment(first);
    SplitJoin(CommentLines(first));
    SplitConcat(CommentText(first), body);
    SkipPastComment(CommentLines(first), SplitLines(body));
    RemoveExistingCommentIdempotent(fileContent);
  }

  /** The comment lines of the license are one per license line, so the count is kept. */
  lemma TransformKeepsLineCount(license: string)
    ensures |SplitLines(TransformLicenseText(license))| == |SplitLines(license)|
  {
    var lines := TransformLines(SplitLines(license));
    forall k | 0 <= k < |lines| ensures '\n' !in lines[k] {
      var l := SplitLines(license)[k];
      assert '\n' !in l;
      if !AllWhiteSpace(l) {
        assert lines[k] == LinePrefix + l;
      }
    }
    SplitJoin(lines);
  }

  // ---- Options ---------------------------------------------------------------------------

  /** The type a template is registered under. */
  datatype TemplateType = CppTemplate | CSharpTemplate | CustomTemplate(name: string)

  /** A Doxygen-style comment template: what tells templates apart is the files it applies to. */
  datatype CommentTemplate = CommentTemplate(fileFilters: seq<string>)

  const CppFilters: seq<string> := ["*.h", "*.cpp", "*.cxx", "*.hpp", "*.cppm", "*.ixx"]
  const CSharpFilters: seq<string> := ["*.cs"]

  predicate Distinct<T(==)>(xs: seq<T>) {
    forall i, j :: 0 <= i < j < |xs| ==> xs[i] != xs[j]
  }

  /** `LicenseRegion`: the template dictionary (its keys in the order they were added, the order
      in which `Templates` lists the values) and the options of the traversal. */
  class LicenseRegion {
    var order: seq<TemplateType>
    var templates: map<TemplateType, CommentTemplate>
    var allowDirectory: Option<AbsolutePath -> bool>
    var allowFile: Option<AbsolutePath -> bool>
    var licenseRegionFile: string
    var allowDotFiles: bool
    var allowDotDirectories: bool

    ghost predicate Valid()
      reads this
    {
      Distinct(order) && forall t :: t in templates <==> t in order
    }

    constructor()
      ensures Valid()
      ensures order == [CppTemplate, CSharpTemplate]
      ensures templates == map[CppTemplate := CommentTemplate(CppFilters), CSharpTemplate := CommentTemplate(CSharpFilters)]
      ensures allowDirectory.None? && allowFile.None?
      ensures licenseRegionFile == "*LicenseRegion*" && !allowDotFiles && !allowDotDirectories
    {
      order := [CppTemplate, CSharpTemplate];
      templates := map[CppTemplate := CommentTemplate(CppFilters), CSharpTemplate := CommentTemplate(CSharpFilters)];
      allowDirectory := None;
      allowFile := None;
      licenseRegionFile := "*LicenseRegion*";
      allowDotFiles := false;
      allowDotDirectories := false;
    }

    /** `WithCommentTemplate<T>(template)`: the template stored under its type, in the place of
        the one it replaces or after the others; the object itself is returned for chaining. */
    method WithCommentTemplate(t: TemplateType, template: CommentTemplate) returns (r: LicenseRegion)
      requires Valid()
      modifies this
      ensures Valid() && r == this
      ensures templates == old(templates)[t := template]
      ensures order == if t in old(templates) then old(order) else old(order) + [t]
      ensures allowDirectory == old(allowDirectory) && allowFile == old(allowFile)
      ensures licenseRegionFile == old(licenseRegionFile)
      ensures allowDotFiles == old(allowDotFiles) && allowDotDirectories == old(allowDotDirectories)
    {
      if t !in templates {
        order := order + [t];
      }
      templates := templates[t := template];
      r := this;
    }

    /** `Templates`: the stored templates in the order of their keys. */
    function Templates(): (r: seq<CommentTemplate>)
      requires Valid()
      reads this
      ensures |r| == |order| && forall k :: 0 <= k < |order| ==> r[k] == templates[order[k]]
    {
      seq(|order|, k requires 0 <= k < |order| && order[k] in templates reads this => templates[order[k]])
    }
  }

  /** `Templates.SelectMany(t => t.FileFilters)` */
  function AllFileFilters(ts: seq<CommentTemplate>): (r: seq<string>)
    ensures forall k, f :: 0 <= k < |ts| && f in ts[k].fileFilters ==> f in r
    ensures forall f :: f in r ==> exists k :: 0 <= k < |ts| && f in ts[k].fileFilters
    decreases |ts|
  {
    if |ts| == 0 then [] else ts[0].fileFilters + AllFileFilters(ts[1..])
  }

  /** `Templates.First(t => t.FileFilters.Any(f => Glob.IsMatch(file, f)))`, with the glob match
      supplied; without a matching template `First` throws. */
  function SelectTemplate(ts: seq<CommentTemplate>, file: string, isMatch: (string, string) -> bool): (r: Result<CommentTemplate>)
    ensures r.Err? <==> forall k :: 0 <= k < |ts| ==> forall f :: f in ts[k].fileFilters ==> !isMatch(file, f)
    ensures r.Ok? ==> exists k :: (0 <= k < |ts| && r.value == ts[k] && (exists f :: f in ts[k].fileFilters && isMatch(file, f))
      && forall j :: 0 <= j < k ==> forall f :: f in ts[j].fileFilters ==> !isMatch(file, f))
    decreases |ts|
  {
    if |ts| == 0 then Result.Err(Exception("InvalidOperationException", "Sequence contains no matching element"))
    else if exists f :: f in ts[0].fileFilters && isMatch(file, f) then Ok(ts[0])
    else
      var r := SelectTemplate(ts[1..], file, isMatch);
      assert forall k :: 1 <= k < |ts| ==> ts[k] == ts[1..][k - 1];
      r
  }

  /** A template registered again keeps its place, so it is still consulted before the templates
      added after it. */
  method ReplacedTemplateKeepsPlace(region: LicenseRegion, template: CommentTemplate) returns (first: CommentTemplate)
    requires region.Valid() && region.order == [CppTemplate, CSharpTemplate]
    modifies region
    ensures first == template
  {
    var r := region.WithCommentTemplate(CppTemplate, template);
    first := r.Templates()[0];
  }
}
