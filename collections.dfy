/** LINQ's `DistinctBy` and `Union`, the two deduplicating list operations the code uses. */
module Collections {
  /** LINQ `DistinctBy`: walks the list once and keeps an element when its key was not seen. */
  function DistinctFrom<T>(xs: seq<T>, key: T -> string, seen: set<string>): seq<T>
    decreases |xs|
  {
    if |xs| == 0 then []
    else if key(xs[0]) in seen then DistinctFrom(xs[1..], key, seen)
    else [xs[0]] + DistinctFrom(xs[1..], key, seen + {key(xs[0])})
  }

  function DistinctBy<T>(xs: seq<T>, key: T -> string): seq<T> {
    DistinctFrom(xs, key, {})
  }

  /** `xs[i]` is the first element of `xs` with its key. */
  predicate FirstWithKey<T>(xs: seq<T>, key: T -> string, i: nat)
    requires i < |xs|
  {
    forall j :: 0 <= j < i ==> key(xs[j]) != key(xs[i])
  }

  /** No kept element has a key from `seen`. */
  predicate KeysFresh<T>(r: seq<T>, key: T -> string, seen: set<string>) {
    forall i :: 0 <= i < |r| ==> key(r[i]) !in seen
  }

  /** The kept elements have pairwise different keys. */
  predicate KeysDistinct<T>(r: seq<T>, key: T -> string) {
    forall i, j :: 0 <= i < j < |r| ==> key(r[i]) != key(r[j])
  }

  /** The kept elements have pairwise different keys, none already seen, and each is an element
      of the input. */
  lemma {:induction false} DistinctFromKeys<T>(xs: seq<T>, key: T -> string, seen: set<string>)
    ensures KeysFresh(DistinctFrom(xs, key, seen), key, seen)
    ensures KeysDistinct(DistinctFrom(xs, key, seen), key)
    ensures forall x :: x in DistinctFrom(xs, key, seen) ==> x in xs
    decreases |xs|
  {
    if |xs| > 0 {
      var r := DistinctFrom(xs, key, seen);
      if key(xs[0]) in seen {
        assert r == DistinctFrom(xs[1..], key, seen);
        DistinctFromKeys(xs[1..], key, seen);
      } else {
        var seen' := seen + {key(xs[0])};
        var rest := DistinctFrom(xs[1..], key, seen');
        assert r == [xs[0]] + rest;
        DistinctFromKeys(xs[1..], key, seen');
        assert KeysFresh(r, key, seen) by {
          forall i | 0 < i < |r| ensures key(r[i]) !in seen {
            assert r[i] == rest[i - 1];
          }
        }
        assert KeysDistinct(r, key) by {
          forall i, j | 0 <= i < j < |r| ensures key(r[i]) != key(r[j]) {
            assert r[j] == rest[j - 1];
            if i > 0 {
              assert r[i] == rest[i - 1];
            }
          }
        }
      }
    }
  }

  /** Every first occurrence of a key not yet seen is kept. */
  lemma {:induction false} DistinctFromFirstKept<T>(xs: seq<T>, key: T -> string, seen: set<string>, i: nat)
    requires i < |xs| && key(xs[i]) !in seen && FirstWithKey(xs, key, i)
    ensures xs[i] in DistinctFrom(xs, key, seen)
    decreases |xs|
  {
    if i > 0 {
      assert key(xs[0]) != key(xs[i]);
      assert FirstWithKey(xs[1..], key, i - 1) by {
        forall j | 0 <= j < i - 1 ensures key(xs[1..][j]) != key(xs[1..][i - 1]) {
          assert xs[1..][j] == xs[j + 1];
        }
      }
      if key(xs[0]) in seen {
        DistinctFromFirstKept(xs[1..], key, seen, i - 1);
      } else {
        DistinctFromFirstKept(xs[1..], key, seen + {key(xs[0])}, i - 1);
      }
    }
  }

  /** `DistinctBy` keeps exactly one element per key: the first. */
  lemma DistinctByKeepsFirst<T>(xs: seq<T>, key: T -> string)
    ensures KeysDistinct(DistinctBy(xs, key), key)
    ensures forall x :: x in DistinctBy(xs, key) ==> x in xs
    ensures forall i :: 0 <= i < |xs| && FirstWithKey(xs, key, i) ==> xs[i] in DistinctBy(xs, key)
  {
    assert DistinctBy(xs, key) == DistinctFrom(xs, key, {});
    DistinctFromKeys(xs, key, {});
    forall i | 0 <= i < |xs| && FirstWithKey(xs, key, i) ensures xs[i] in DistinctBy(xs, key) {
      DistinctFromFirstKept(xs, key, {}, i);
    }
  }

  /** The keys of a list's elements. */
  ghost function KeySet<T>(xs: seq<T>, key: T -> string): set<string> {
    set x | x in xs :: key(x)
  }

  /** Deduplicating a list extended by one element: the element is kept exactly when its key
      is new. */
  lemma {:induction false} DistinctFromSnoc<T>(xs: seq<T>, y: T, key: T -> string, seen: set<string>)
    ensures DistinctFrom(xs + [y], key, seen)
            == DistinctFrom(xs, key, seen) + (if key(y) in seen + KeySet(xs, key) then [] else [y])
    decreases |xs|
  {
    if |xs| == 0 {
      assert xs + [y] == [y];
      assert [y][1..] == [];
    } else {
      assert (xs + [y])[1..] == xs[1..] + [y];
      assert KeySet(xs, key) == {key(xs[0])} + KeySet(xs[1..], key) by {
        assert forall x :: x in xs <==> x == xs[0] || x in xs[1..] by {
          assert xs == [xs[0]] + xs[1..];
        }
      }
      if key(xs[0]) in seen {
        DistinctFromSnoc(xs[1..], y, key, seen);
      } else {
        DistinctFromSnoc(xs[1..], y, key, seen + {key(xs[0])});
      }
    }
  }

  function Identity(s: string): string {
    s
  }

  /** LINQ `a.Union(b)` on strings: the distinct strings of `a` then of `b`, first occurrences
      kept. */
  function Union(a: seq<string>, b: seq<string>): seq<string> {
    DistinctBy(a + b, Identity)
  }

  /** Adding one string with `Union` appends it unless it is already present. */
  lemma UnionOne(xs: seq<string>, p: string)
    ensures p in xs ==> Union(xs, [p]) == DistinctBy(xs, Identity)
    ensures p !in xs ==> Union(xs, [p]) == DistinctBy(xs, Identity) + [p]
  {
    DistinctFromSnoc(xs, p, Identity, {});
    assert p in xs <==> p in KeySet(xs, Identity) by {
      if p in xs {
        assert Identity(p) == p;
      }
    }
  }
}
