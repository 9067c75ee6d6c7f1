/** Accumulating rows into a dictionary keyed by an integer and reading the
    dictionary back in ascending key order: the `Record<number, …>`,
    `forEach` and `Object.values` pattern of the dashboard and collections
    pages (JavaScript enumerates integer-like keys in ascending order). */
module Grouping {

  /** The keys that occur in `xs`. */
  function Keys<T>(xs: seq<T>, key: T -> int): set<int>
  {
    if xs == [] then {} else Keys(xs[..|xs| - 1], key) + {key(xs[|xs| - 1])}
  }

  /** Sum of `val` over the rows with key `k`. */
  function KeySum<T>(xs: seq<T>, key: T -> int, val: T -> int, k: int): int
  {
    if xs == [] then 0
    else KeySum(xs[..|xs| - 1], key, val, k) + (if key(xs[|xs| - 1]) == k then val(xs[|xs| - 1]) else 0)
  }

  /** Number of rows with key `k`. */
  function KeyCount<T>(xs: seq<T>, key: T -> int, k: int): nat
  {
    if xs == [] then 0
    else KeyCount(xs[..|xs| - 1], key, k) + (if key(xs[|xs| - 1]) == k then 1 else 0)
  }

  /** The rows with key `k`, in input order. */
  function KeyRows<T>(xs: seq<T>, key: T -> int, k: int): seq<T>
  {
    if xs == [] then []
    else KeyRows(xs[..|xs| - 1], key, k) + (if key(xs[|xs| - 1]) == k then [xs[|xs| - 1]] else [])
  }

  /** A key occurs exactly when some row carries it. */
  lemma {:induction false} KeysOccur<T>(xs: seq<T>, key: T -> int, k: int)
    ensures k in Keys(xs, key) <==> exists i :: 0 <= i < |xs| && key(xs[i]) == k
  {
    if xs != [] {
      var n := |xs|;
      KeysOccur(xs[..n - 1], key, k);
      if k in Keys(xs[..n - 1], key) {
        var i :| 0 <= i < n - 1 && key(xs[..n - 1][i]) == k;
        assert key(xs[i]) == k;
      }
      if i :| 0 <= i < n && key(xs[i]) == k {
        if i < n - 1 {
          assert key(xs[..n - 1][i]) == k;
        }
      }
    }
  }

  /** A key that does not occur has no rows, sum or count. */
  lemma {:induction false} KeyAbsent<T>(xs: seq<T>, key: T -> int, val: T -> int, k: int)
    requires k !in Keys(xs, key)
    ensures KeySum(xs, key, val, k) == 0 && KeyCount(xs, key, k) == 0 && KeyRows(xs, key, k) == []
  {
    if xs != [] {
      KeyAbsent(xs[..|xs| - 1], key, val, k);
    }
  }

  /** Every row lands in the rows of its own key and of no other. */
  lemma {:induction false} KeyRowsMembers<T>(xs: seq<T>, key: T -> int, k: int)
    ensures forall x :: x in KeyRows(xs, key, k) <==> x in xs && key(x) == k
  {
    if xs != [] {
      var n := |xs|;
      KeyRowsMembers(xs[..n - 1], key, k);
      assert xs == xs[..n - 1] + [xs[n - 1]];
    }
  }

  /** The rows of a key number as many as its count. */
  lemma {:induction false} KeyRowsCount<T>(xs: seq<T>, key: T -> int, k: int)
    ensures |KeyRows(xs, key, k)| == KeyCount(xs, key, k)
  {
    if xs != [] {
      KeyRowsCount(xs[..|xs| - 1], key, k);
    }
  }

  /** One more row adds its key. */
  lemma PrefixKeys<T>(xs: seq<T>, i: nat, key: T -> int)
    requires i < |xs|
    ensures Keys(xs[..i + 1], key) == Keys(xs[..i], key) + {key(xs[i])}
  {
    assert xs[..i + 1][..i] == xs[..i];
  }

  /** One more row adds its value to its key's sum and one to its count. */
  lemma PrefixSum<T>(xs: seq<T>, i: nat, key: T -> int, val: T -> int, k: int)
    requires i < |xs|
    ensures KeySum(xs[..i + 1], key, val, k) == KeySum(xs[..i], key, val, k) + (if key(xs[i]) == k then val(xs[i]) else 0)
    ensures KeyCount(xs[..i + 1], key, k) == KeyCount(xs[..i], key, k) + (if key(xs[i]) == k then 1 else 0)
  {
    assert xs[..i + 1][..i] == xs[..i];
  }

  lemma DistinctAppend(s: seq<int>, x: int)
    requires Distinct(s) && x !in s
    ensures Distinct(s + [x])
  {
  }

  predicate Distinct(s: seq<int>)
  {
    forall i, j :: 0 <= i < j < |s| ==> s[i] != s[j]
  }

  predicate Increasing(s: seq<int>)
  {
    forall i, j :: 0 <= i < j < |s| ==> s[i] < s[j]
  }

  /** `d` put into its place in an increasing list. */
  function InsertSorted(xs: seq<int>, d: int): (r: seq<int>)
    requires Increasing(xs) && d !in xs
    ensures Increasing(r) && |r| == |xs| + 1
    ensures forall k :: k in r <==> k in xs || k == d
  {
    if xs == [] || d < xs[0] then [d] + xs
    else
      assert forall k :: k in xs[1..] ==> k in xs;
      var rest := InsertSorted(xs[1..], d);
      assert forall i :: 0 <= i < |rest| ==> xs[0] < rest[i] by {
        forall i | 0 <= i < |rest|
          ensures xs[0] < rest[i]
        {
          assert rest[i] in rest;
          if rest[i] != d {
            var j :| 0 <= j < |xs[1..]| && xs[1..][j] == rest[i];
            assert xs[j + 1] == rest[i];
          }
        }
      }
      [xs[0]] + rest
  }

  /** The keys of a dictionary in ascending order. */
  method SortKeys(order: seq<int>) returns (sorted: seq<int>)
    requires Distinct(order)
    ensures Increasing(sorted) && |sorted| == |order|
    ensures forall k :: k in sorted <==> k in order
  {
    sorted := [];
    for j := 0 to |order|
      invariant Increasing(sorted) && |sorted| == j
      invariant forall k :: k in sorted <==> k in order[..j]
    {
      assert order[j] !in order[..j];
      assert order[..j + 1] == order[..j] + [order[j]];
      sorted := InsertSorted(sorted, order[j]);
    }
    assert order[..|order|] == order;
  }

  /** A list without repeats has as many elements as the set it enumerates. */
  lemma {:induction false} DistinctCard(s: seq<int>, keys: set<int>)
    requires Distinct(s)
    requires forall k :: k in s <==> k in keys
    ensures |s| == |keys|
  {
    if s != [] {
      var n := |s|;
      var x := s[n - 1];
      var init := s[..n - 1];
      assert forall i :: 0 <= i < |init| ==> init[i] != x;
      assert s == init + [x];
      assert x in keys;
      assert forall k :: k in init <==> k in keys - {x};
      DistinctCard(init, keys - {x});
    } else {
      assert forall k :: k !in keys;
      assert keys == {};
    }
  }
}
