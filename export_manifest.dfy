/** The export manifest of folder composition (`export.yml`): the items it lists and where
    each globbed item lands in the importing folder (`FileOrDirectory.GetDestination`).
    The .NET regex engine enters as three parameters: `parses(pattern)`, whether its parser
    accepts the pattern (a rejected one makes `Regex` throw `ArgumentException`),
    `isMatchIgnoreCase(input, pattern)` and `matchGroups(input, pattern)`, the values of
    `Match.Groups` (index 0 is the whole match). */
module ExportManifests {
  import opened Wrappers
  import opened Strings
  import opened Paths
  import opened TextExtensions

  /** One entry of a manifest list. `asTemplate` is the YAML `as` field. */
  datatype FileOrDirectory = FileOrDirectory(
    file: Option<string>,
    directory: Option<string>,
    not: seq<string>,
    asTemplate: Option<string>,
    processContent: bool,
    manifestFilePattern: Option<string>)

  /** The Link, Copy, Use and Not lists of a manifest. */
  datatype ExportManifest = ExportManifest(
    link: seq<FileOrDirectory>,
    copy: seq<FileOrDirectory>,
    use: seq<FileOrDirectory>,
    not: seq<string>)

  /** An entry as the YAML reader creates it before filling in the fields present. */
  function DefaultItem(): (d: FileOrDirectory)
    ensures d.not == [] && !d.processContent
    ensures d.file.None? && d.directory.None? && d.asTemplate.None?
  {
    FileOrDirectory(None, None, [], None, false, None)
  }

  /** A manifest as the YAML reader creates it: all four lists empty. */
  function DefaultManifest(): (m: ExportManifest)
    ensures m.link == [] && m.copy == [] && m.use == [] && m.not == []
  {
    ExportManifest([], [], [], [])
  }

  const NullReference := Exception("NullReferenceException", "Object reference not set to an instance of an object.")

  /** The glob the entry stands for: `File ?? Directory`. */
  function Glob(item: FileOrDirectory): Option<string> {
    if item.file.Some? then item.file else item.directory
  }

  /** What .NET's `Regex` throws for a pattern its parser rejects (`RegexParseException`
      derives from it). */
  function InvalidPattern(pattern: string): Exception {
    Exception("ArgumentException", "Invalid pattern '" + pattern + "'.")
  }

  /** Some exclusion glob, turned into a regex, matches the relative path ignoring case. */
  predicate Excluded(relative: string, exclude: seq<string>, isMatchIgnoreCase: (string, string) -> bool) {
    exists k :: 0 <= k < |exclude| && isMatchIgnoreCase(relative, GlobToRegex(exclude[k]))
  }

  /** Every exclusion glob translates to a pattern the regex parser accepts. */
  predicate ExclusionsParse(exclude: seq<string>, parses: string -> bool) {
    forall k :: 0 <= k < |exclude| ==> parses(GlobToRegex(exclude[k]))
  }

  /** `exclude.Any(Ignore)`: the exclusion globs are tried in order and the first whose regex
      matches ends the scan with true; a regex the parser rejects throws when it is reached. */
  function Exclusion(relative: string, exclude: seq<string>, parses: string -> bool,
                     isMatchIgnoreCase: (string, string) -> bool): (r: Result<bool>)
    ensures r.Err? ==> exists k :: 0 <= k < |exclude| && r.error == InvalidPattern(GlobToRegex(exclude[k]))
    decreases |exclude|
  {
    if exclude == [] then Ok(false)
    else
      var regex := GlobToRegex(exclude[0]);
      if !parses(regex) then Err(InvalidPattern(regex))
      else if isMatchIgnoreCase(relative, regex) then Ok(true)
      else
        var rest := Exclusion(relative, exclude[1..], parses, isMatchIgnoreCase);
        assert rest.Err? ==> exists k :: 0 <= k < |exclude| && rest.error == InvalidPattern(GlobToRegex(exclude[k])) by {
          if rest.Err? {
            var k :| 0 <= k < |exclude[1..]| && rest.error == InvalidPattern(GlobToRegex(exclude[1..][k]));
            assert exclude[1..][k] == exclude[k + 1];
          }
        }
        rest
  }

  /** When every exclusion regex parses, the scan answers exactly whether one matches. */
  lemma {:induction false} ExclusionAgrees(relative: string, exclude: seq<string>, parses: string -> bool,
                                           isMatchIgnoreCase: (string, string) -> bool)
    requires ExclusionsParse(exclude, parses)
    ensures Exclusion(relative, exclude, parses, isMatchIgnoreCase) == Ok(Excluded(relative, exclude, isMatchIgnoreCase))
    decreases |exclude|
  {
    if exclude != [] && !isMatchIgnoreCase(relative, GlobToRegex(exclude[0])) {
      assert ExclusionsParse(exclude[1..], parses) by {
        forall k | 0 <= k < |exclude[1..]| ensures parses(GlobToRegex(exclude[1..][k])) {
          assert exclude[1..][k] == exclude[k + 1];
        }
      }
      ExclusionAgrees(relative, exclude[1..], parses, isMatchIgnoreCase);
      if Excluded(relative, exclude, isMatchIgnoreCase) {
        var k :| 0 <= k < |exclude| && isMatchIgnoreCase(relative, GlobToRegex(exclude[k]));
        assert exclude[1..][k - 1] == exclude[k];
      }
      if Excluded(relative, exclude[1..], isMatchIgnoreCase) {
        var k :| 0 <= k < |exclude[1..]| && isMatchIgnoreCase(relative, GlobToRegex(exclude[1..][k]));
        assert exclude[1..][k] == exclude[k + 1];
      }
    }
  }

  /** The exclusion globs `exclude[..k]` all parse and none matches: the scan reaches glob k. */
  predicate ReachesPattern(relative: string, exclude: seq<string>, k: int, parses: string -> bool,
                           isMatchIgnoreCase: (string, string) -> bool)
    requires 0 <= k <= |exclude|
  {
    forall j :: 0 <= j < k ==> parses(GlobToRegex(exclude[j])) && !isMatchIgnoreCase(relative, GlobToRegex(exclude[j]))
  }

  /** The scan throws exactly when it reaches an exclusion glob whose regex does not parse. */
  lemma {:induction false} ExclusionThrows(relative: string, exclude: seq<string>, parses: string -> bool,
                                           isMatchIgnoreCase: (string, string) -> bool)
    ensures Exclusion(relative, exclude, parses, isMatchIgnoreCase).Err?
        <==> exists k :: 0 <= k < |exclude| && ReachesPattern(relative, exclude, k, parses, isMatchIgnoreCase)
                         && !parses(GlobToRegex(exclude[k]))
    decreases |exclude|
  {
    if exclude == [] {
    } else if !parses(GlobToRegex(exclude[0])) {
      assert ReachesPattern(relative, exclude, 0, parses, isMatchIgnoreCase);
    } else if isMatchIgnoreCase(relative, GlobToRegex(exclude[0])) {
      forall k | 0 <= k < |exclude| && ReachesPattern(relative, exclude, k, parses, isMatchIgnoreCase)
        ensures parses(GlobToRegex(exclude[k]))
      {
      }
    } else {
      var tail := exclude[1..];
      ExclusionThrows(relative, tail, parses, isMatchIgnoreCase);
      forall k | 0 <= k < |tail|
        ensures ReachesPattern(relative, tail, k, parses, isMatchIgnoreCase)
            <==> ReachesPattern(relative, exclude, k + 1, parses, isMatchIgnoreCase)
      {
        assert forall j :: 0 <= j < k ==> tail[j] == exclude[j + 1];
        if ReachesPattern(relative, tail, k, parses, isMatchIgnoreCase) {
          forall j | 0 <= j < k + 1
            ensures parses(GlobToRegex(exclude[j])) && !isMatchIgnoreCase(relative, GlobToRegex(exclude[j]))
          {
            if j > 0 { assert exclude[j] == tail[j - 1]; }
          }
        }
      }
      if exists k :: 0 <= k < |exclude| && ReachesPattern(relative, exclude, k, parses, isMatchIgnoreCase)
                     && !parses(GlobToRegex(exclude[k])) {
        var k :| 0 <= k < |exclude| && ReachesPattern(relative, exclude, k, parses, isMatchIgnoreCase)
                 && !parses(GlobToRegex(exclude[k]));
        assert k > 0;
        assert tail[k - 1] == exclude[k];
      }
    }
  }

  /** The `$N` placeholders for N = i .. |groups| - 1, replaced in increasing order by the
      value of capture group N. */
  function SubstituteCaptures(expr: string, groups: seq<string>, i: nat): string
    decreases |groups| - i
  {
    if i >= |groups| then expr
    else SubstituteCaptures(Replace(expr, "$" + IntToString(i), groups[i]), groups, i + 1)
  }

  /** `GetDestination`: the relative path of the globbed item below the source root, rendered
      with the platform separator, decides where it lands below the destination root. */
  function GetDestination(
    item: FileOrDirectory, srcRoot: AbsolutePath, dstRoot: AbsolutePath, currentPath: AbsolutePath,
    itemId: int, exclude: seq<string>, sep: char,
    parses: string -> bool, isMatchIgnoreCase: (string, string) -> bool, matchGroups: (string, string) -> seq<string>
  ): (r: Result<Option<AbsolutePath>>)
    requires Normalised(dstRoot)
    ensures r.Ok? && r.value.Some? ==> r.value.value.root == dstRoot.root
    ensures r.Err? ==> r.error == NullReference || (r.error.Exception? && r.error.typeName == "ArgumentException")
  {
    Destination(item, dstRoot, GetRelativePathTo(srcRoot, currentPath, sep), itemId, exclude, parses, isMatchIgnoreCase, matchGroups)
  }

  /** The destination of an item at `relative`: None when excluded, the mirrored relative
      path without `as`, otherwise the `as` template with `$#` and then the captures
      substituted. A missing glob together with an `as` template dereferences null. */
  function Destination(
    item: FileOrDirectory, dstRoot: AbsolutePath, relative: string, itemId: int, exclude: seq<string>,
    parses: string -> bool, isMatchIgnoreCase: (string, string) -> bool, matchGroups: (string, string) -> seq<string>
  ): (r: Result<Option<AbsolutePath>>)
    requires Normalised(dstRoot)
    ensures r.Ok? && r.value.Some? ==> r.value.value.root == dstRoot.root
    ensures r.Err? ==> r.error == NullReference || (r.error.Exception? && r.error.typeName == "ArgumentException")
  {
    match Exclusion(relative, exclude, parses, isMatchIgnoreCase)
    case Err(e) => Err(e)
    case Ok(excluded) =>
      if excluded then Ok(None)
      else if item.asTemplate.None? then Ok(Some(Combine(dstRoot, relative)))
      else
        var asExpr := Replace(item.asTemplate.value, "$#", IntToString(itemId));
        match Glob(item)
        case None => Err(NullReference)
        case Some(glob) =>
          if '*' in glob && '$' in asExpr then
            var regex := GlobToRegex(glob);
            if !parses(regex) then Err(InvalidPattern(regex))
            else
              var groups := matchGroups(Replace(relative, "\\", "/"), regex);
              Ok(Some(Combine(dstRoot, Replace(SubstituteCaptures(asExpr, groups, 1), "//", "/"))))
          else Ok(Some(Combine(dstRoot, asExpr)))
  }

  /** The capture step throws: the glob has a star, the template still holds a '$' after the
      `$#` step, and the glob's regex does not parse. */
  predicate CaptureRegexRejected(item: FileOrDirectory, itemId: int, parses: string -> bool) {
    item.asTemplate.Some? && Glob(item).Some? && '*' in Glob(item).value
    && '$' in Replace(item.asTemplate.value, "$#", IntToString(itemId))
    && !parses(GlobToRegex(Glob(item).value))
  }

  /** The item is dropped exactly when the exclusion scan stops at a match, and a throw of the
      scan is the outcome. Past the scan, the item fails exactly for an `as` template with no
      glob (a null dereference) or with a glob whose capture regex does not parse. */
  lemma {:induction false} DestinationExcluded(
    item: FileOrDirectory, dstRoot: AbsolutePath, relative: string, itemId: int, exclude: seq<string>,
    parses: string -> bool, isMatchIgnoreCase: (string, string) -> bool, matchGroups: (string, string) -> seq<string>)
    requires Normalised(dstRoot)
    ensures var r := Destination(item, dstRoot, relative, itemId, exclude, parses, isMatchIgnoreCase, matchGroups);
      var scan := Exclusion(relative, exclude, parses, isMatchIgnoreCase);
      (r == Ok(None) <==> scan == Ok(true))
      && (scan.Err? ==> r == Err(scan.error))
      && (scan == Ok(false) ==>
            (r.Err? <==> (item.asTemplate.Some? && Glob(item).None?) || CaptureRegexRejected(item, itemId, parses)))
      && (r.Err? && scan.Ok? ==> r.error == NullReference || r.error == InvalidPattern(GlobToRegex(Glob(item).value)))
  {
  }

  /** When every regex involved parses, the only failure left is the null glob: the item is
      dropped exactly when an exclusion glob matches, and otherwise fails exactly for an `as`
      template with neither File nor Directory. */
  lemma {:induction false} DestinationWhenPatternsParse(
    item: FileOrDirectory, dstRoot: AbsolutePath, relative: string, itemId: int, exclude: seq<string>,
    parses: string -> bool, isMatchIgnoreCase: (string, string) -> bool, matchGroups: (string, string) -> seq<string>)
    requires Normalised(dstRoot) && ExclusionsParse(exclude, parses)
    requires Glob(item).Some? ==> parses(GlobToRegex(Glob(item).value))
    ensures var r := Destination(item, dstRoot, relative, itemId, exclude, parses, isMatchIgnoreCase, matchGroups);
      (r == Ok(None) <==> Excluded(relative, exclude, isMatchIgnoreCase))
      && (r.Err? <==> !Excluded(relative, exclude, isMatchIgnoreCase) && item.asTemplate.Some? && item.file.None? && item.directory.None?)
  {
    ExclusionAgrees(relative, exclude, parses, isMatchIgnoreCase);
  }

  /** The glob `*` translates to the regex `*`, a quantifier with nothing before it, which
      .NET's parser rejects: as the first exclusion glob it makes every destination throw. */
  lemma {:induction false} LoneStarExclusionThrows(
    item: FileOrDirectory, dstRoot: AbsolutePath, relative: string, itemId: int, exclude: seq<string>,
    parses: string -> bool, isMatchIgnoreCase: (string, string) -> bool, matchGroups: (string, string) -> seq<string>)
    requires Normalised(dstRoot) && |exclude| > 0 && exclude[0] == "*" && !parses("*")
    ensures Destination(item, dstRoot, relative, itemId, exclude, parses, isMatchIgnoreCase, matchGroups)
         == Err(InvalidPattern("*"))
  {
    GlobToRegexLoneStar(exclude[0]);
  }

  /** The glob `a**` translates to the regex `a**`, a quantifier straight after another, which
      .NET's parser rejects: with an `as` template naming `$1` the capture step throws. */
  lemma {:induction false} DoubledStarCaptureThrows(
    item: FileOrDirectory, dstRoot: AbsolutePath, relative: string, itemId: int, exclude: seq<string>,
    parses: string -> bool, isMatchIgnoreCase: (string, string) -> bool, matchGroups: (string, string) -> seq<string>)
    requires Normalised(dstRoot) && item.file == Some("a**") && item.asTemplate == Some("$1")
    requires Exclusion(relative, exclude, parses, isMatchIgnoreCase) == Ok(false) && !parses("a**")
    ensures Destination(item, dstRoot, relative, itemId, exclude, parses, isMatchIgnoreCase, matchGroups)
         == Err(InvalidPattern("a**"))
  {
    GlobToRegexDoubledStar(item.file.value);
    PlaceholderKept([], [], '1', IntToString(itemId));
    assert [] + ['$', '1'] + [] == "$1";
  }

  /** When File is set, Directory plays no part. */
  lemma {:induction false} FileWinsOverDirectory(
    item: FileOrDirectory, directory: Option<string>, dstRoot: AbsolutePath, relative: string,
    itemId: int, exclude: seq<string>,
    parses: string -> bool, isMatchIgnoreCase: (string, string) -> bool, matchGroups: (string, string) -> seq<string>)
    requires Normalised(dstRoot) && item.file.Some?
    ensures Destination(item, dstRoot, relative, itemId, exclude, parses, isMatchIgnoreCase, matchGroups)
         == Destination(item.(directory := directory), dstRoot, relative, itemId, exclude, parses, isMatchIgnoreCase, matchGroups)
  {
  }

  /** Without `as`, an item below the source root lands at the same relative place below
      the destination root. */
  lemma {:induction false} GetDestinationMirrors(
    item: FileOrDirectory, srcRoot: AbsolutePath, dstRoot: AbsolutePath, rest: seq<string>,
    itemId: int, exclude: seq<string>, sep: char,
    parses: string -> bool, isMatchIgnoreCase: (string, string) -> bool, matchGroups: (string, string) -> seq<string>)
    requires Normalised(dstRoot) && IsSeparator(sep) && item.asTemplate.None? && |rest| > 0
    requires forall i :: 0 <= i < |rest| ==> IsNormalSegment(rest[i])
    requires Exclusion(Join([sep], rest), exclude, parses, isMatchIgnoreCase) == Ok(false)
    ensures GetDestination(item, srcRoot, dstRoot, AbsolutePath(srcRoot.root, srcRoot.segments + rest),
                           itemId, exclude, sep, parses, isMatchIgnoreCase, matchGroups)
         == Ok(Some(AbsolutePath(dstRoot.root, dstRoot.segments + rest)))
  {
    var current := AbsolutePath(srcRoot.root, srcRoot.segments + rest);
    var relative := GetRelativePathTo(srcRoot, current, sep);
    RelativePathToDescendant(srcRoot, rest, sep);
    DestinationWithoutAs(item, dstRoot, relative, itemId, exclude, parses, isMatchIgnoreCase, matchGroups);
    CombineJoined(dstRoot, rest, sep);
  }

  /** Without `as`, a kept item lands at its relative path below the destination root. */
  lemma {:induction false} DestinationWithoutAs(
    item: FileOrDirectory, dstRoot: AbsolutePath, relative: string, itemId: int, exclude: seq<string>,
    parses: string -> bool, isMatchIgnoreCase: (string, string) -> bool, matchGroups: (string, string) -> seq<string>)
    requires Normalised(dstRoot) && item.asTemplate.None?
    requires Exclusion(relative, exclude, parses, isMatchIgnoreCase) == Ok(false)
    ensures Destination(item, dstRoot, relative, itemId, exclude, parses, isMatchIgnoreCase, matchGroups)
         == Ok(Some(Combine(dstRoot, relative)))
  {
  }

  /** A template without '$' is taken literally, whatever the glob. */
  lemma {:induction false} DestinationLiteralAs(
    item: FileOrDirectory, dstRoot: AbsolutePath, relative: string, itemId: int, exclude: seq<string>,
    parses: string -> bool, isMatchIgnoreCase: (string, string) -> bool, matchGroups: (string, string) -> seq<string>)
    requires Normalised(dstRoot) && Glob(item).Some?
    requires item.asTemplate.Some? && '$' !in item.asTemplate.value
    requires Exclusion(relative, exclude, parses, isMatchIgnoreCase) == Ok(false)
    ensures Destination(item, dstRoot, relative, itemId, exclude, parses, isMatchIgnoreCase, matchGroups)
         == Ok(Some(Combine(dstRoot, item.asTemplate.value)))
  {
    ReplaceAbsent(item.asTemplate.value, "$#", IntToString(itemId), 0);
  }

  /** After the `$#` step no `$#` is left for the capture step to see. */
  lemma {:induction false} ItemIdSubstitutedFirst(template: string, itemId: int)
    ensures !Contains(Replace(template, "$#", IntToString(itemId)), "$#")
  {
    var id := IntToString(itemId);
    assert id[0] == '-' || '0' <= id[0] <= '9';
    assert forall k :: 1 <= k < |id| ==> '0' <= id[k] <= '9';
    ReplaceLeavesNoOccurrence(template, "$#", id);
  }

  /** A template naming only `$#` yields the item's number. */
  lemma {:induction false} DestinationItemId(
    item: FileOrDirectory, dstRoot: AbsolutePath, relative: string, itemId: nat, exclude: seq<string>,
    before: string, after: string,
    parses: string -> bool, isMatchIgnoreCase: (string, string) -> bool, matchGroups: (string, string) -> seq<string>)
    requires Normalised(dstRoot) && Glob(item).Some? && '*' !in Glob(item).value
    requires '$' !in before && '$' !in after
    requires item.asTemplate == Some(before + "$#" + after)
    requires Exclusion(relative, exclude, parses, isMatchIgnoreCase) == Ok(false)
    ensures Destination(item, dstRoot, relative, itemId, exclude, parses, isMatchIgnoreCase, matchGroups)
         == Ok(Some(Combine(dstRoot, before + NatToString(itemId) + after)))
  {
    var id := NatToString(itemId);
    assert IntToString(itemId) == id;
    SubstituteOne(before, after, "$#", id);
  }

  /** With '$' in neither side, replacing the one placeholder between them gives the value. */
  lemma {:induction false} SubstituteOne(before: string, after: string, placeholder: string, value: string)
    requires |placeholder| == 2 && placeholder[0] == '$'
    requires '$' !in before && '$' !in after
    ensures Replace(before + placeholder + after, placeholder, value) == before + value + after
  {
    ReplacePairConcat(before, placeholder + after, placeholder, value);
    ReplaceAbsent(before, placeholder, value, 0);
    assert (placeholder + after)[..2] == placeholder;
    assert (placeholder + after)[2..] == after;
    ReplaceMatch(placeholder + after, placeholder, value);
    ReplaceAbsent(after, placeholder, value, 0);
    assert before + placeholder + after == before + (placeholder + after);
  }

  /** The `$#` step keeps a `$N` placeholder between '$'-free text. */
  lemma {:induction false} PlaceholderKept(before: string, after: string, digit: char, id: string)
    requires '$' !in before && '$' !in after && digit != '#' && digit != '$'
    ensures Replace(before + ['$', digit] + after, "$#", id) == before + ['$', digit] + after
  {
    var tail := ['$', digit] + after;
    assert before + ['$', digit] + after == before + tail;
    assert Replace(before, "$#", id) == before by {
      ReplaceAbsent(before, "$#", id, 0);
    }
    assert Replace(tail, "$#", id) == tail by {
      assert tail[..2] != "$#";
      ReplaceSkip(tail, "$#", id);
      assert '$' !in tail[1..];
      ReplaceAbsent(tail[1..], "$#", id, 0);
      assert ['$'] + tail[1..] == tail;
    }
    ReplacePairConcat(before, tail, "$#", id);
  }

  /** Without '*' in the glob no capture is substituted: a `$N` placeholder of the template
      stays in the destination literally. */
  lemma {:induction false} DestinationStarFreeKeepsPlaceholder(
    item: FileOrDirectory, dstRoot: AbsolutePath, relative: string, itemId: int, exclude: seq<string>,
    before: string, after: string, digit: char,
    parses: string -> bool, isMatchIgnoreCase: (string, string) -> bool, matchGroups: (string, string) -> seq<string>)
    requires Normalised(dstRoot) && Glob(item).Some? && '*' !in Glob(item).value
    requires '$' !in before && '$' !in after && '0' <= digit <= '9'
    requires item.asTemplate == Some(before + ['$', digit] + after)
    requires Exclusion(relative, exclude, parses, isMatchIgnoreCase) == Ok(false)
    ensures Destination(item, dstRoot, relative, itemId, exclude, parses, isMatchIgnoreCase, matchGroups)
         == Ok(Some(Combine(dstRoot, before + ['$', digit] + after)))
  {
    PlaceholderKept(before, after, digit, IntToString(itemId));
  }

  /** Substitution leaves a template without '$' unchanged. */
  lemma {:induction false} SubstituteCapturesLiteral(expr: string, groups: seq<string>, i: nat)
    requires '$' !in expr
    ensures SubstituteCaptures(expr, groups, i) == expr
    decreases |groups| - i
  {
    if i < |groups| {
      ReplaceAbsent(expr, "$" + IntToString(i), groups[i], 0);
      SubstituteCapturesLiteral(expr, groups, i + 1);
    }
  }

  /** A template `before$1after` over a glob with one capture takes the captured text. */
  lemma {:induction false} DestinationCapture(
    item: FileOrDirectory, dstRoot: AbsolutePath, relative: string, itemId: int, exclude: seq<string>,
    before: string, after: string,
    parses: string -> bool, isMatchIgnoreCase: (string, string) -> bool, matchGroups: (string, string) -> seq<string>)
    requires Normalised(dstRoot) && Glob(item).Some? && '*' in Glob(item).value
    requires parses(GlobToRegex(Glob(item).value))
    requires '$' !in before && '$' !in after
    requires item.asTemplate == Some(before + "$1" + after)
    requires Exclusion(relative, exclude, parses, isMatchIgnoreCase) == Ok(false)
    requires var groups := matchGroups(Replace(relative, "\\", "/"), GlobToRegex(Glob(item).value));
      |groups| == 2 && '$' !in groups[1]
    ensures var groups := matchGroups(Replace(relative, "\\", "/"), GlobToRegex(Glob(item).value));
      Destination(item, dstRoot, relative, itemId, exclude, parses, isMatchIgnoreCase, matchGroups)
         == Ok(Some(Combine(dstRoot, before + groups[1] + after)))
  {
    var template := before + "$1" + after;
    var asExpr := Replace(template, "$#", IntToString(itemId));
    assert asExpr == template by {
      PlaceholderKept(before, after, '1', IntToString(itemId));
    }
    assert '$' in asExpr by {
      assert template[|before|] == '$';
    }
    var groups := matchGroups(Replace(relative, "\\", "/"), GlobToRegex(Glob(item).value));
    var result := before + groups[1] + after;
    assert SubstituteCaptures(template, groups, 1) == result by {
      assert "$" + IntToString(1) == "$1";
      SubstituteOne(before, after, "$1", groups[1]);
      assert '$' !in result;
      SubstituteCapturesLiteral(result, groups, 2);
    }
    CombineCollapse(dstRoot, result);
  }

  /** Collapsing "//" after substitution never changes the destination: empty segments are
      dropped when a path is appended anyway. */
  lemma {:induction false} CaptureCollapseRedundant(dstRoot: AbsolutePath, expr: string, groups: seq<string>)
    requires Normalised(dstRoot)
    ensures Combine(dstRoot, Replace(SubstituteCaptures(expr, groups, 1), "//", "/"))
         == Combine(dstRoot, SubstituteCaptures(expr, groups, 1))
  {
    CombineCollapse(dstRoot, SubstituteCaptures(expr, groups, 1));
  }
}
