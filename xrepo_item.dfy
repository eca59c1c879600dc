/** The tree `XRepoItem.cs` reads from the indented output of `xrepo info`: each item line
    (four or more leading spaces, then `require…` or `->`) opens an item whose kind, key and
    value come from three regular expressions; the lines indented deeper than it are its
    children. An item is a value here: its children lists are filled in by `Parse` and never
    change afterwards. The regular expressions are matchers supplied by the caller. */
module XRepoItems {
  import opened Wrappers
  import opened Strings
  import ToolColas

  datatype Kind = Root | Package | Key | Property | Value | Invalid

  /** An item: children without a key in the unnamed list, the others in the named dictionary,
      kept as its entries in the order they were added. */
  datatype Item = Item(kind: Kind, key: Option<string>, value: Option<string>,
                       unnamed: seq<Item>, named: seq<(string, Item)>)

  const MinimumIndent: nat := 4

  /** The number of leading spaces. */
  function GetIndent(line: string): (n: nat)
    ensures n <= |line| && (forall k :: 0 <= k < n ==> line[k] == ' ') && (n < |line| ==> line[n] != ' ')
    decreases |line|
  {
    if |line| == 0 || line[0] != ' ' then 0 else 1 + GetIndent(line[1..])
  }

  /** `TrimStart()`: the text after its leading white space. */
  function TrimStart(s: string): (r: string)
    ensures |r| <= |s| && r == s[|s| - |r|..]
    ensures |r| > 0 ==> !IsWhiteSpace(r[0])
    decreases |s|
  {
    if |s| > 0 && IsWhiteSpace(s[0]) then TrimStart(s[1..]) else s
  }

  predicate IsItemLine(line: string) {
    !AllWhiteSpace(line) && StartsWith(line, "    ")
    && (StartsWith(TrimStart(line), "require") || StartsWith(TrimStart(line), "->"))
  }

  predicate IsWithinCurrentItem(line: string, indent: nat) {
    !IsItemLine(line) || GetIndent(line) > indent
  }

  // ---- Classification of an item line ----------------------------------------------------

  /** A successful match: the named groups that took part in it, with their text. */
  datatype Match = Match(groups: map<string, string>)

  /** The first match of a pattern in a line, if any. */
  type Matcher = string -> Option<Match>

  /** `\srequire\((?<KEY>[a-z].*)\)\:`, `\s->\s(?<KEY>[a-z]\w*)\:$` and
      `\s->\s(?:(?<KEY>[a-z]\w*)\:\s)?(?<VALUE>.+)$`, case-insensitive. */
  datatype Patterns = Patterns(packKey: Matcher, keyOnly: Matcher, propWithValue: Matcher)

  /** `line.Parse(pattern, options)(name)`: null without a match; otherwise the group's `Value`,
      which .NET gives as the empty text for a group that took no part in the match. */
  function Capture(m: Option<Match>, name: string): (r: Option<string>)
    ensures r.None? <==> m.None?
    ensures m.Some? && name !in m.value.groups ==> r == Some("")
    ensures m.Some? && name in m.value.groups ==> r == Some(m.value.groups[name])
  {
    if m.None? then None else Some(if name in m.value.groups then m.value.groups[name] else "")
  }

  /** The group's text when the group took part in a match, null otherwise. */
  function Participating(m: Option<Match>, name: string): (r: Option<string>)
    ensures r.Some? <==> m.Some? && name in m.value.groups
  {
    if m.Some? && name in m.value.groups then Some(m.value.groups[name]) else None
  }

  datatype Header = Header(kind: Kind, key: Option<string>, value: Option<string>)

  /** Kind, key and value of a line from its three captures: a package, a bare key, a
      property (key and value), a bare value, or invalid, in that order of precedence. */
  function HeaderOf(packKey: Option<string>, keyOnly: Option<string>, propKey: Option<string>,
                    propValue: Option<string>): (h: Header)
    ensures h.kind == Package <==> packKey.Some?
    ensures h.kind == Key <==> packKey.None? && keyOnly.Some?
    ensures h.kind == Property <==> packKey.None? && keyOnly.None? && propKey.Some? && propValue.Some?
    ensures h.kind == Value <==> packKey.None? && keyOnly.None? && propKey.None? && propValue.Some?
    ensures h.kind == Invalid <==> packKey.None? && keyOnly.None? && propValue.None?
    ensures h.key == match h.kind
                     case Package => packKey
                     case Key => keyOnly
                     case Property => propKey
                     case _ => None
    ensures h.value == if h.kind == Property || h.kind == Value then propValue else None
  {
    var kind := if packKey.Some? then Package
      else if keyOnly.Some? then Key
      else if propKey.Some? && propValue.Some? then Property
      else if propValue.Some? then Value
      else Invalid;
    var key := match kind
      case Package => packKey
      case Key => keyOnly
      case Property => propKey
      case _ => None;
    Header(kind, key, if kind == Property || kind == Value then propValue else None)
  }

  /** The classification as written: every capture read through `Parse`, so an absent `KEY`
      group of a matching property pattern reads as the empty text. */
  function ClassifyAsWritten(line: string, pats: Patterns): Header {
    var prop := pats.propWithValue(line);
    HeaderOf(Capture(pats.packKey(line), "KEY"), Capture(pats.keyOnly(line), "KEY"),
             Capture(prop, "KEY"), Capture(prop, "VALUE"))
  }

  /** The classification with a group that took no part in the match read as null. */
  function Classify(line: string, pats: Patterns): Header {
    var prop := pats.propWithValue(line);
    HeaderOf(Participating(pats.packKey(line), "KEY"), Participating(pats.keyOnly(line), "KEY"),
             Participating(prop, "KEY"), Participating(prop, "VALUE"))
  }

  // ---- Children --------------------------------------------------------------------------

  datatype Children = Children(unnamed: seq<Item>, named: seq<(string, Item)>)

  ghost function Keys(named: seq<(string, Item)>): set<string> {
    set k | 0 <= k < |named| :: named[k].0
  }

  function HasKey(named: seq<(string, Item)>, key: string): (b: bool)
    ensures b <==> key in Keys(named)
    decreases |named|
  {
    if |named| == 0 then false
    else
      assert Keys(named) == {named[0].0} + Keys(named[1..]) by {
        forall x | x in Keys(named) ensures x in {named[0].0} + Keys(named[1..]) {
          var k :| 0 <= k < |named| && named[k].0 == x;
          if k > 0 { assert named[1..][k - 1] == named[k]; }
        }
        forall x | x in Keys(named[1..]) ensures x in Keys(named) {
          var k :| 0 <= k < |named[1..]| && named[1..][k].0 == x;
          assert named[k + 1] == named[1..][k];
        }
      }
      named[0].0 == key || HasKey(named[1..], key)
  }

  const DuplicateKey := Exception("ArgumentException", "An item with the same key has already been added.")

  /** `_unnamedItems.Add(item)` for a child without a key, `_namedItems.Add(key, item)`
      otherwise; adding a key twice throws. */
  function AddChild(c: Children, child: Item): (r: Result<Children>)
    ensures child.key.None? ==> r == Ok(Children(c.unnamed + [child], c.named))
    ensures child.key.Some? && child.key.value in Keys(c.named) ==> r == Result.Err(DuplicateKey)
    ensures child.key.Some? && child.key.value !in Keys(c.named) ==>
      r == Ok(Children(c.unnamed, c.named + [(child.key.value, child)]))
  {
    if child.key.None? then Ok(Children(c.unnamed + [child], c.named))
    else if HasKey(c.named, child.key.value) then Result.Err(DuplicateKey)
    else Ok(Children(c.unnamed, c.named + [(child.key.value, child)]))
  }

  // ---- Parsing ---------------------------------------------------------------------------

  /** An item and the index of the first line after it (the `ref int i` on return). */
  datatype Parsed = Parsed(item: Item, next: nat)

  datatype Looped = Looped(children: Children, next: nat)

  /** `Parse(ref infoOutput, ref i)`, with the loop testing the line it is about to read: the
      item of line `i` with every following line that lies within it. */
  function ParseSpec(lines: seq<string>, i: nat, pats: Patterns): (r: Result<Parsed>)
    requires i < |lines|
    ensures r.Ok? ==> i < r.value.next <= |lines|
    decreases |lines| - i, 0
  {
    var h := Classify(lines[i], pats);
    var l :- LoopSpec(lines, i + 1, GetIndent(lines[i]), pats, Children([], []));
    Ok(Parsed(Item(h.kind, h.key, h.value, l.children.unnamed, l.children.named), l.next))
  }

  /** The child loop of `Parse` from line `j` on, with the children `acc` gathered so far. */
  function LoopSpec(lines: seq<string>, j: nat, indent: nat, pats: Patterns, acc: Children): (r: Result<Looped>)
    requires j <= |lines|
    ensures r.Ok? ==> j <= r.value.next <= |lines|
    decreases |lines| - j, 1
  {
    if j < |lines| && IsWithinCurrentItem(lines[j], indent) then
      if !IsItemLine(lines[j]) then LoopSpec(lines, j + 1, indent, pats, acc)
      else
        var p :- ParseSpec(lines, j, pats);
        var acc' :- AddChild(acc, p.item);
        LoopSpec(lines, p.next, indent, pats, acc')
    else Ok(Looped(acc, j))
  }

  /** `XRepoItem.Parse(ref infoOutput, ref i)`: reads the item of line `i`, then its children,
      recursively, until a line that opens an item no deeper than it. */
  method Parse(lines: seq<string>, i: nat, pats: Patterns) returns (r: Result<Parsed>)
    requires i < |lines|
    ensures r == ParseSpec(lines, i, pats)
    decreases |lines| - i
  {
    var line := lines[i];
    var indent := GetIndent(line);
    var h := Classify(line, pats);
    var children := Children([], []);
    var j := i + 1;
    while j < |lines| && IsWithinCurrentItem(lines[j], indent)
      invariant i < j <= |lines|
      invariant LoopSpec(lines, j, indent, pats, children) == LoopSpec(lines, i + 1, indent, pats, Children([], []))
      decreases |lines| - j
    {
      if !IsItemLine(lines[j]) {
        j := j + 1;
        continue;
      }
      var p := Parse(lines, j, pats);
      if p.Err? {
        return Result.Err(p.error);
      }
      var added := AddChild(children, p.value.item);
      if added.Err? {
        return Result.Err(added.error);
      }
      children := added.value;
      j := p.value.next;
    }
    r := Ok(Parsed(Item(h.kind, h.key, h.value, children.unnamed, children.named), j));
  }

  /** `Parse(ref infoOutput, ref i)` as written: the loop tests `line`, which on entry is the
      item's own line. */
  method ParseAsWritten(lines: seq<string>, i: nat, pats: Patterns) returns (r: Result<Parsed>)
    requires i < |lines|
    ensures r.Ok? ==> i < r.value.next <= |lines|
    ensures IsItemLine(lines[i]) ==>
      var h := ClassifyAsWritten(lines[i], pats);
      r == Ok(Parsed(Item(h.kind, h.key, h.value, [], []), i + 1))
    decreases |lines| - i
  {
    var line := lines[i];
    var indent := GetIndent(line);
    var h := ClassifyAsWritten(line, pats);
    var children := Children([], []);
    var j := i + 1;
    while j < |lines| && IsWithinCurrentItem(line, indent)
      invariant i < j <= |lines|
      invariant IsItemLine(lines[i]) ==> j == i + 1 && line == lines[i] && children == Children([], [])
      decreases |lines| - j
    {
      line := lines[j];
      if !IsItemLine(line) {
        j := j + 1;
        continue;
      }
      // a child opened by an item line is a leaf and cannot fail
      var p := ParseAsWritten(lines, j, pats);
      var added := AddChild(children, p.value.item);
      if added.Err? {
        return Result.Err(added.error);
      }
      children := added.value;
      j := p.value.next;
    }
    r := Ok(Parsed(Item(h.kind, h.key, h.value, children.unnamed, children.named), j));
  }

  /** The loop of the root parse from line `j` on: it tests the line it read last (`line`). */
  function RootLoop(lines: seq<string>, j: nat, line: string, pats: Patterns, acc: Children): (r: Result<Children>)
    requires j <= |lines|
    decreases |lines| - j
  {
    if j < |lines| && IsWithinCurrentItem(line, MinimumIndent) then
      if !IsItemLine(lines[j]) then RootLoop(lines, j + 1, lines[j], pats, acc)
      else
        var p :- ParseSpec(lines, j, pats);
        var acc' :- AddChild(acc, p.item);
        RootLoop(lines, p.next, lines[j], pats, acc')
    else Ok(acc)
  }

  /** The standard-output lines of a tool's output, in order. */
  function InfoOutput(toolOutput: seq<ToolColas.Output>): seq<string> {
    ToolColas.PipedLines(toolOutput, false)
  }

  /** `XRepoItem.Parse(toolOutput)`: a root item over the standard-output lines. */
  method ParseRoot(toolOutput: seq<ToolColas.Output>, pats: Patterns) returns (r: Result<Item>)
    ensures r.Ok? ==> r.value.kind == Root && r.value.key.None? && r.value.value.None?
    ensures r.Err? <==> RootLoop(InfoOutput(toolOutput), 0, "", pats, Children([], [])).Err?
    ensures r.Ok? ==> var c := RootLoop(InfoOutput(toolOutput), 0, "", pats, Children([], [])).value;
      r.value.unnamed == c.unnamed && r.value.named == c.named
  {
    var lines := InfoOutput(toolOutput);
    var children := Children([], []);
    var i := 0;
    var line := "";
    while i < |lines| && IsWithinCurrentItem(line, MinimumIndent)
      invariant i <= |lines|
      invariant RootLoop(lines, i, line, pats, children) == RootLoop(lines, 0, "", pats, Children([], []))
      decreases |lines| - i
    {
      line := lines[i];
      if !IsItemLine(line) {
        i := i + 1;
        continue;
      }
      var p := Parse(lines, i, pats);
      if p.Err? {
        return Result.Err(p.error);
      }
      var added := AddChild(children, p.value.item);
      if added.Err? {
        return Result.Err(added.error);
      }
      children := added.value;
      i := p.value.next;
    }
    r := Ok(Item(Root, None, None, children.unnamed, children.named));
  }

  // ---- Access ----------------------------------------------------------------------------

  function Values(named: seq<(string, Item)>): (r: seq<Item>)
    ensures |r| == |named| && forall k :: 0 <= k < |named| ==> r[k] == named[k].1
  {
    seq(|named|, k requires 0 <= k < |named| => named[k].1)
  }

  /** `GetEnumerator()`: the unnamed children, then the named ones in the order they were
      added. */
  function Enumerate(item: Item): (r: seq<Item>)
    ensures |r| == |item.unnamed| + |item.named|
    ensures r[..|item.unnamed|] == item.unnamed
    ensures forall k :: 0 <= k < |item.named| ==> r[|item.unnamed| + k] == item.named[k].1
  {
    item.unnamed + Values(item.named)
  }

  /** `this[int i]`: the unnamed child at `i`, null out of range. */
  function ChildAt(item: Item, i: int): (r: Option<Item>)
    ensures r.Some? <==> 0 <= i < |item.unnamed|
    ensures r.Some? ==> r.value == item.unnamed[i]
  {
    if 0 <= i < |item.unnamed| then Some(item.unnamed[i]) else None
  }

  /** `this[string i]`: the named child under `key`, null if absent. */
  function ChildNamed(item: Item, key: string): (r: Option<Item>)
    decreases |item.named|
  {
    if |item.named| == 0 then None
    else if item.named[0].0 == key then Some(item.named[0].1)
    else ChildNamed(item.(named := item.named[1..]), key)
  }

  // ---- Properties ------------------------------------------------------------------------

  /** The indexer by key finds exactly the keys that were added, and the entry added under the
      key (keys are unique, so the first entry is the only one). */
  lemma {:induction false} ChildNamedFinds(item: Item, key: string)
    ensures ChildNamed(item, key).Some? <==> key in Keys(item.named)
    ensures ChildNamed(item, key).Some? ==>
      exists k :: 0 <= k < |item.named| && item.named[k] == (key, ChildNamed(item, key).value)
    decreases |item.named|
  {
    if |item.named| > 0 {
      var rest := item.(named := item.named[1..]);
      ChildNamedFinds(rest, key);
      assert Keys(item.named) == {item.named[0].0} + Keys(rest.named) by {
        forall x | x in Keys(item.named) ensures x in {item.named[0].0} + Keys(rest.named) {
          var k :| 0 <= k < |item.named| && item.named[k].0 == x;
          if k > 0 { assert rest.named[k - 1] == item.named[k]; }
        }
        forall x | x in Keys(rest.named) ensures x in Keys(item.named) {
          var k :| 0 <= k < |rest.named| && rest.named[k].0 == x;
          assert item.named[k + 1] == rest.named[k];
        }
      }
      if item.named[0].0 != key && ChildNamed(rest, key).Some? {
        var k :| 0 <= k < |rest.named| && rest.named[k] == (key, ChildNamed(rest, key).value);
        assert item.named[k + 1] == rest.named[k];
      }
    }
  }

  /** The lines a child loop consumes all lie within the item, and it stops at the end or at a
      line that opens an item no deeper than the item. */
  lemma {:induction false} LoopSpecSpan(lines: seq<string>, j: nat, indent: nat, pats: Patterns, acc: Children)
    requires j <= |lines| && LoopSpec(lines, j, indent, pats, acc).Ok?
    ensures var n := LoopSpec(lines, j, indent, pats, acc).value.next;
      (forall k :: j <= k < n ==> IsWithinCurrentItem(lines[k], indent))
      && (n == |lines| || !IsWithinCurrentItem(lines[n], indent))
    decreases |lines| - j, 1
  {
    if j < |lines| && IsWithinCurrentItem(lines[j], indent) {
      if !IsItemLine(lines[j]) {
        LoopSpecSpan(lines, j + 1, indent, pats, acc);
      } else {
        var p := ParseSpec(lines, j, pats).value;
        ParseSpecSpan(lines, j, pats);
        var acc' := AddChild(acc, p.item).value;
        assert LoopSpec(lines, j, indent, pats, acc) == LoopSpec(lines, p.next, indent, pats, acc');
        LoopSpecSpan(lines, p.next, indent, pats, acc');
        WithinDeeper(lines, j, p.next, indent);
      }
    }
  }

  /** Lines within an item that is itself within the current item are within the current item. */
  lemma WithinDeeper(lines: seq<string>, j: nat, n: nat, indent: nat)
    requires j < n <= |lines| && IsWithinCurrentItem(lines[j], indent) && IsItemLine(lines[j])
    requires forall k :: j < k < n ==> IsWithinCurrentItem(lines[k], GetIndent(lines[j]))
    ensures forall k :: j <= k < n ==> IsWithinCurrentItem(lines[k], indent)
  {
  }

  /** An item spans its block: every line after its own, up to the next one it returns, is a
      non-item line or an item line indented deeper than it; the line it stops at, if any, opens
      an item no deeper than it. */
  lemma {:induction false} ParseSpecSpan(lines: seq<string>, i: nat, pats: Patterns)
    requires i < |lines| && ParseSpec(lines, i, pats).Ok?
    ensures var n := ParseSpec(lines, i, pats).value.next;
      (forall k :: i < k < n ==> IsWithinCurrentItem(lines[k], GetIndent(lines[i])))
      && (n == |lines| || !IsWithinCurrentItem(lines[n], GetIndent(lines[i])))
    decreases |lines| - i, 0
  {
    LoopSpecSpan(lines, i + 1, GetIndent(lines[i]), pats, Children([], []));
  }

  /** A child loop never drops a child it has gathered. */
  lemma {:induction false} LoopSpecKeeps(lines: seq<string>, j: nat, indent: nat, pats: Patterns, acc: Children)
    requires j <= |lines| && LoopSpec(lines, j, indent, pats, acc).Ok?
    ensures var c := LoopSpec(lines, j, indent, pats, acc).value.children;
      |c.unnamed| + |c.named| >= |acc.unnamed| + |acc.named|
    decreases |lines| - j
  {
    if j < |lines| && IsWithinCurrentItem(lines[j], indent) {
      if !IsItemLine(lines[j]) {
        LoopSpecKeeps(lines, j + 1, indent, pats, acc);
      } else {
        var p := ParseSpec(lines, j, pats).value;
        var acc' := AddChild(acc, p.item).value;
        LoopSpecKeeps(lines, p.next, indent, pats, acc');
      }
    }
  }

  /** An item line followed by a deeper item line gets a child. */
  lemma NextDeeperLineIsChild(lines: seq<string>, i: nat, pats: Patterns)
    requires i + 1 < |lines| && IsItemLine(lines[i + 1]) && GetIndent(lines[i + 1]) > GetIndent(lines[i])
    requires ParseSpec(lines, i, pats).Ok?
    ensures var item := ParseSpec(lines, i, pats).value.item; |item.unnamed| + |item.named| > 0
  {
    var indent := GetIndent(lines[i]);
    var p := ParseSpec(lines, i + 1, pats).value;
    var acc' := AddChild(Children([], []), p.item).value;
    LoopSpecKeeps(lines, p.next, indent, pats, acc');
  }

  /** The discrepancy of the parse as written: the same lines give the corrected parse a child,
      while the parse as written returns a leaf and resumes at the very next line. */
  method ParseAsWrittenDropsChildren(lines: seq<string>, i: nat, pats: Patterns)
    returns (written: Result<Parsed>, corrected: Result<Parsed>)
    requires i + 1 < |lines| && IsItemLine(lines[i]) && IsItemLine(lines[i + 1])
    requires GetIndent(lines[i + 1]) > GetIndent(lines[i])
    requires ParseSpec(lines, i, pats).Ok?
    ensures written.Ok? && written.value.item.unnamed == [] && written.value.item.named == []
    ensures written.Ok? && written.value.next == i + 1
    ensures corrected.Ok? && |corrected.value.item.unnamed| + |corrected.value.item.named| > 0
  {
    written := ParseAsWritten(lines, i, pats);
    NextDeeperLineIsChild(lines, i, pats);
    corrected := Parse(lines, i, pats);
  }

  /** As written, a line that matches only the property pattern's value is a `Property` with the
      empty key, so the `Value` kind never occurs. */
  lemma ClassifyAsWrittenNeverValue(line: string, pats: Patterns)
    ensures ClassifyAsWritten(line, pats).kind != Value
    ensures var prop := pats.propWithValue(line);
      pats.packKey(line).None? && pats.keyOnly(line).None? && prop.Some? && "KEY" !in prop.value.groups
      ==> ClassifyAsWritten(line, pats).kind == Property && ClassifyAsWritten(line, pats).key == Some("")
  {
  }

  /** With absent groups read as null, a value-only line is a `Value` without a key, and the
      classification otherwise agrees with the one as written. */
  lemma ClassifyValueLines(line: string, pats: Patterns)
    requires pats.packKey(line).None? && pats.keyOnly(line).None?
    requires pats.propWithValue(line).Some? && "VALUE" in pats.propWithValue(line).value.groups
    ensures "KEY" !in pats.propWithValue(line).value.groups ==>
      Classify(line, pats) == Header(Value, None, Some(pats.propWithValue(line).value.groups["VALUE"]))
    ensures "KEY" in pats.propWithValue(line).value.groups ==> Classify(line, pats) == ClassifyAsWritten(line, pats)
  {
  }

  /** Two value-only children of one item: as written both carry the empty key and the second
      addition throws; with absent groups read as null both land in the unnamed list. */
  lemma TwoValueChildren(first: Item, second: Item)
    requires first.key == Some("") && second.key == Some("")
    ensures AddChild(AddChild(Children([], []), first).value, second).Err?
    ensures var f := first.(kind := Value, key := None);
            var s := second.(kind := Value, key := None);
      AddChild(AddChild(Children([], []), f).value, s) == Ok(Children([f, s], []))
  {
    assert Keys([("", first)]) == {""} by {
      assert [("", first)][0].0 == "";
    }
    var f := first.(kind := Value, key := None);
    var s := second.(kind := Value, key := None);
    assert AddChild(Children([], []), f).value == Children([f], []);
    assert [f] + [s] == [f, s];
  }

  /** The root parse takes the lines up to the first item line: when that line is indented by
      exactly the minimum, the root holds that one item with its block and stops there. */
  lemma {:induction false} RootTakesFirstItem(lines: seq<string>, j: nat, line: string, pats: Patterns, f: nat)
    requires j <= f < |lines| && IsItemLine(lines[f]) && GetIndent(lines[f]) == MinimumIndent
    requires forall k :: j <= k < f ==> !IsItemLine(lines[k])
    requires !IsItemLine(line)
    requires ParseSpec(lines, f, pats).Ok?
    ensures RootLoop(lines, j, line, pats, Children([], [])) == AddChild(Children([], []), ParseSpec(lines, f, pats).value.item)
    decreases f - j
  {
    if j < f {
      RootTakesFirstItem(lines, j + 1, lines[j], pats, f);
    } else {
      var p := ParseSpec(lines, f, pats).value;
      var added := AddChild(Children([], []), p.item);
      if added.Ok? {
        assert !IsWithinCurrentItem(lines[f], MinimumIndent);
        assert RootLoop(lines, p.next, lines[f], pats, added.value) == Ok(added.value);
      }
    }
  }
}
