/** The suffix renaming of folder composition (`ProcessSuffix` in `FolderComposition.cs`): a
    marker such as `_Origin` after one of the lead characters `_`, `.` and `:` becomes the
    importing project's suffix, in names and in file contents. */
module SuffixRenaming {
  import opened Strings

  /** `ImportFolderSuffixes(To, From = "Origin")` */
  datatype Suffixes = Suffixes(to: string, from: string)

  /** The implicit conversion from a bare string: it sets `To`. */
  function SuffixesFrom(to: string): (r: Suffixes)
    ensures r.to == to && r.from == "Origin"
  {
    Suffixes(to, "Origin")
  }

  const DefaultLeads := "_.:"

  /** The suffix renaming: for each lead character in turn, every `lead + From` becomes
      `lead + To`, ignoring case. */
  function ProcessSuffixWith(target: string, suffixes: Suffixes, leads: string): string
    decreases |leads|
  {
    if |leads| == 0 then target
    else ProcessSuffixWith(ReplaceIgnoreCase(target, [leads[0]] + suffixes.from, [leads[0]] + suffixes.to),
                           suffixes, leads[1..])
  }

  /** `ProcessSuffix`, the loop over the leads. */
  method ProcessSuffix(target: string, suffixes: Suffixes, leads: string) returns (result: string)
    ensures result == ProcessSuffixWith(target, suffixes, leads)
  {
    result := target;
    for k := 0 to |leads|
      invariant ProcessSuffixWith(result, suffixes, leads[k..]) == ProcessSuffixWith(target, suffixes, leads)
    {
      assert leads[k..][0] == leads[k] && leads[k..][1..] == leads[k + 1..];
      result := ReplaceIgnoreCase(result, [leads[k]] + suffixes.from, [leads[k]] + suffixes.to);
    }
  }

  /** Where no lead is followed by `From`, the renaming changes nothing. */
  lemma {:induction false} ProcessSuffixUnchanged(target: string, suffixes: Suffixes, leads: string)
    requires forall k :: 0 <= k < |leads| ==> !ContainsIgnoreCase(target, [leads[k]] + suffixes.from)
    ensures ProcessSuffixWith(target, suffixes, leads) == target
    decreases |leads|
  {
    if |leads| > 0 {
      ReplaceIgnoreCaseWithoutOccurrence(target, [leads[0]] + suffixes.from, [leads[0]] + suffixes.to);
      assert forall k :: 0 <= k < |leads[1..]| ==> leads[1..][k] == leads[k + 1];
      ProcessSuffixUnchanged(target, suffixes, leads[1..]);
    }
  }
}
