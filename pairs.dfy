/** The `forEachPair` list extension: the action is applied to `(s[i], s[j])` for
    every `0 <= i < j < |s|`, with `i` in the outer loop and `j` in the inner one.
    The action itself is a callback with effects on the caller's state; here the
    visits are returned in order, and each caller folds its action over them. */
module Pairs {

  /** The index pairs of the inner loop for outer index `i`: `(i, i+1) .. (i, n-1)`. */
  function Row(i: nat, n: nat): (r: seq<(int, int)>)
    requires i < n
    ensures |r| == n - i - 1
    ensures forall k :: 0 <= k < |r| ==> r[k] == (i, i + 1 + k)
  {
    seq(n - i - 1, k => (i as int, i + 1 + k))
  }

  /** The index pairs visited by the first `i` rounds of the outer loop. */
  function RowsBefore(i: nat, n: nat): seq<(int, int)>
    requires i <= n
  {
    if i == 0 then [] else RowsBefore(i - 1, n) + Row(i - 1, n)
  }

  /** Every index pair visited over a list of length `n`, in visiting order. */
  function PairIndices(n: nat): seq<(int, int)> {
    RowsBefore(n, n)
  }

  ghost predicate LexLess(a: (int, int), b: (int, int)) {
    a.0 < b.0 || (a.0 == b.0 && a.1 < b.1)
  }

  /** The element pairs visited over `s`, in visiting order. */
  function VisitedPairs<T>(s: seq<T>): (r: seq<(T, T)>)
    ensures |r| == |PairIndices(|s|)|
  {
    var p := PairIndices(|s|);
    RowsBeforeInRange(|s|, |s|);
    seq(|p|, k requires 0 <= k < |p| => (s[p[k].0], s[p[k].1]))
  }

  /** The nested loops of `forEachPair`; `pairs` is the sequence of arguments the
      action receives, `indices` says where each argument comes from. */
  method ForEachPair<T>(s: seq<T>) returns (indices: seq<(int, int)>, pairs: seq<(T, T)>)
    ensures indices == PairIndices(|s|)
    ensures pairs == VisitedPairs(s)
  {
    var n := |s|;
    indices, pairs := [], [];
    for i := 0 to n
      invariant indices == RowsBefore(i, n)
      invariant |pairs| == |indices|
      invariant forall k :: 0 <= k < |indices| ==>
                  0 <= indices[k].0 < n && 0 <= indices[k].1 < n && pairs[k] == (s[indices[k].0], s[indices[k].1])
    {
      for j := i + 1 to n
        invariant indices == RowsBefore(i, n) + Row(i, n)[..j - i - 1]
        invariant |pairs| == |indices|
        invariant forall k :: 0 <= k < |indices| ==>
                    0 <= indices[k].0 < n && 0 <= indices[k].1 < n && pairs[k] == (s[indices[k].0], s[indices[k].1])
      {
        assert Row(i, n)[..j - i] == Row(i, n)[..j - i - 1] + [(i, j)];
        indices := indices + [(i, j)];
        pairs := pairs + [(s[i], s[j])];
      }
      assert Row(i, n)[..n - i - 1] == Row(i, n);
    }
  }

  // ---------------------------------------------------------------------------
  // Properties of the visiting order

  lemma {:induction false} RowsBeforeInRange(i: nat, n: nat)
    requires i <= n
    ensures forall k :: 0 <= k < |RowsBefore(i, n)| ==>
              0 <= RowsBefore(i, n)[k].0 < RowsBefore(i, n)[k].1 < n && RowsBefore(i, n)[k].0 < i
  {
    if i > 0 {
      RowsBeforeInRange(i - 1, n);
    }
  }

  lemma {:induction false} RowsBeforeSorted(i: nat, n: nat)
    requires i <= n
    ensures forall k1, k2 :: 0 <= k1 < k2 < |RowsBefore(i, n)| ==>
              LexLess(RowsBefore(i, n)[k1], RowsBefore(i, n)[k2])
  {
    if i > 0 {
      RowsBeforeSorted(i - 1, n);
      RowsBeforeInRange(i - 1, n);
      var prefix, row := RowsBefore(i - 1, n), Row(i - 1, n);
      assert RowsBefore(i, n) == prefix + row;
      forall k1, k2 | 0 <= k1 < k2 < |prefix + row|
        ensures LexLess((prefix + row)[k1], (prefix + row)[k2])
      {
        if k2 < |prefix| {
          assert LexLess(prefix[k1], prefix[k2]);
        } else if k1 < |prefix| {
          assert prefix[k1].0 < i - 1;
        }
      }
    }
  }

  lemma {:induction false} RowsBeforeComplete(i: nat, n: nat)
    requires i <= n
    ensures forall p, q :: 0 <= p < q < n && p < i ==> (p, q) in RowsBefore(i, n)
  {
    if i > 0 {
      RowsBeforeComplete(i - 1, n);
      var prefix, row := RowsBefore(i - 1, n), Row(i - 1, n);
      forall p, q | 0 <= p < q < n && p < i
        ensures (p, q) in prefix + row
      {
        if p == i - 1 {
          assert row[q - i] == (p, q);
        } else {
          assert (p, q) in prefix;
        }
      }
    }
  }

  lemma {:induction false} RowsBeforeLength(i: nat, n: nat)
    requires i <= n
    ensures 2 * |RowsBefore(i, n)| == i * (2 * n - i - 1)
  {
    if i > 0 {
      RowsBeforeLength(i - 1, n);
      assert (i - 1) * (2 * n - (i - 1) - 1) + 2 * (n - (i - 1) - 1) == i * (2 * n - i - 1);
    }
  }

  /** `forEachPair` over a list of length `n` visits exactly the index pairs
      `i < j < n`, each once, in lexicographic order: `n * (n - 1) / 2` visits, and
      never one that pairs an element with itself. */
  lemma PairIndicesExactlyOnce(n: nat)
    ensures forall k :: 0 <= k < |PairIndices(n)| ==> 0 <= PairIndices(n)[k].0 < PairIndices(n)[k].1 < n
    ensures forall k1, k2 :: 0 <= k1 < k2 < |PairIndices(n)| ==> LexLess(PairIndices(n)[k1], PairIndices(n)[k2])
    ensures forall k1, k2 :: 0 <= k1 < k2 < |PairIndices(n)| ==> PairIndices(n)[k1] != PairIndices(n)[k2]
    ensures forall i, j :: 0 <= i < j < n ==> (i, j) in PairIndices(n)
    ensures 2 * |PairIndices(n)| == n * (n - 1)
  {
    RowsBeforeInRange(n, n);
    RowsBeforeSorted(n, n);
    RowsBeforeComplete(n, n);
    RowsBeforeLength(n, n);
  }

  /** The `k`-th visit passes the two elements at the `k`-th index pair. */
  lemma PairsAt<T>(s: seq<T>, k: int)
    requires 0 <= k < |VisitedPairs(s)|
    ensures 0 <= PairIndices(|s|)[k].0 < PairIndices(|s|)[k].1 < |s|
    ensures VisitedPairs(s)[k] == (s[PairIndices(|s|)[k].0], s[PairIndices(|s|)[k].1])
  {
    RowsBeforeInRange(|s|, |s|);
  }

  /** Every pair of positions `i < j` of `s` is visited. */
  lemma PairsComplete<T>(s: seq<T>, i: int, j: int)
    requires 0 <= i < j < |s|
    ensures (s[i], s[j]) in VisitedPairs(s)
  {
    RowsBeforeComplete(|s|, |s|);
    RowsBeforeInRange(|s|, |s|);
    var p := PairIndices(|s|);
    assert (i, j) in p;
    var k :| 0 <= k < |p| && p[k] == (i, j);
    assert VisitedPairs(s)[k] == (s[i], s[j]);
  }

  /** Both elements of every visited pair come from the list. */
  lemma VisitedPairsMembers<T>(s: seq<T>)
    ensures forall x, y :: (x, y) in VisitedPairs(s) ==> x in s && y in s
  {
    forall x, y | (x, y) in VisitedPairs(s)
      ensures x in s && y in s
    {
      var k :| 0 <= k < |VisitedPairs(s)| && VisitedPairs(s)[k] == (x, y);
      PairsAt(s, k);
    }
  }
}
