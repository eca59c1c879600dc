/** `NugetSource.CombineFrom` of `IPublishNugets.cs`: every NuGet source paired with an API key,
    the keys handed out round-robin. */
module PublishNugets {
  import opened Wrappers

  datatype NugetSource = NugetSource(source: string, apiKey: string)

  /** The key source `i` is published with: `apiKeys[i % apiKeys.Length]`. */
  function KeyFor(apiKeys: seq<string>, i: nat): (k: string)
    requires |apiKeys| > 0
    ensures k in apiKeys
  {
    apiKeys[i % |apiKeys|]
  }

  /** The pairing `CombineFrom` yields: every source, in order, each with its round-robin key. */
  function Combined(sources: seq<string>, apiKeys: seq<string>): (r: seq<NugetSource>)
    requires |sources| == 0 || |apiKeys| > 0
    ensures |r| == |sources|
    ensures forall i :: 0 <= i < |r| ==> r[i].source == sources[i] && r[i].apiKey in apiKeys
  {
    seq(|sources|, i requires 0 <= i < |sources| => NugetSource(sources[i], KeyFor(apiKeys, i)))
  }

  const DivideByZero := Exception("DivideByZeroException", "Attempted to divide by zero.")

  /** `NugetSource.CombineFrom(sources, apiKeys)`: the `for` loop of the iterator, run to the end.
      With sources but no keys the first `%` throws. */
  method CombineFrom(sources: seq<string>, apiKeys: seq<string>) returns (r: Result<seq<NugetSource>>)
    ensures r.Err? <==> |sources| > 0 && |apiKeys| == 0
    ensures r.Err? ==> r.error == DivideByZero
    ensures r.Ok? ==> r.value == Combined(sources, apiKeys)
  {
    var yielded: seq<NugetSource> := [];
    for i := 0 to |sources|
      invariant |yielded| == i
      invariant i > 0 ==> |apiKeys| > 0
      invariant i > 0 ==> yielded == Combined(sources[..i], apiKeys)
    {
      if |apiKeys| == 0 {
        return Result.Err(DivideByZero);
      }
      yielded := yielded + [NugetSource(sources[i], apiKeys[i % |apiKeys|])];
      assert yielded == Combined(sources[..i + 1], apiKeys);
    }
    assert sources[..|sources|] == sources;
    r := Ok(yielded);
  }

  // ---- Properties ------------------------------------------------------------------------

  /** With at least as many sources as keys, every key is used, the first time for the source
      at its own index. */
  lemma EveryKeyUsed(sources: seq<string>, apiKeys: seq<string>)
    requires 0 < |apiKeys| <= |sources|
    ensures forall k :: 0 <= k < |apiKeys| ==> Combined(sources, apiKeys)[k] == NugetSource(sources[k], apiKeys[k])
  {
    forall k | 0 <= k < |apiKeys|
      ensures Combined(sources, apiKeys)[k] == NugetSource(sources[k], apiKeys[k])
    {
      ModOfSmaller(k, |apiKeys|);
    }
  }

  /** Sources `apiKeys.Length` apart share their key. */
  lemma KeysRepeat(sources: seq<string>, apiKeys: seq<string>, i: nat)
    requires |apiKeys| > 0 && i + |apiKeys| < |sources|
    ensures Combined(sources, apiKeys)[i].apiKey == Combined(sources, apiKeys)[i + |apiKeys|].apiKey
  {
    ModOfShifted(i, |apiKeys|);
  }

  lemma ModOfSmaller(k: nat, n: nat)
    requires k < n
    ensures k % n == k
  {
  }

  lemma ModOfShifted(i: nat, n: nat)
    requires n > 0
    ensures (i + n) % n == i % n
  {
    ModUnique(i + n, n, i / n + 1, i % n);
  }

  /** Division by `n` leaves one remainder: the `r` of any `a == q * n + r` with `0 <= r < n`. */
  lemma ModUnique(a: int, n: int, q: int, r: int)
    requires n > 0 && 0 <= r < n && a == q * n + r
    ensures a % n == r
  {
    var d := q - a / n;
    assert d * n == a % n - r;
  }
}
