/**
 * Working with the flat cluster labels that scipy's `fcluster` or sklearn's
 * `DBSCAN` assign (taken here as given): `labels == c` masks, counts, and
 * `np.unique(labels)`.
 */
module Clusters {

  function Count(labels: seq<int>, c: int): (n: nat)
    ensures n <= |labels|
  {
    if |labels| == 0 then 0
    else Count(labels[..|labels| - 1], c) + (if labels[|labels| - 1] == c then 1 else 0)
  }

  /** `xs[labels == c]`: the elements whose label is `c`, in order. */
  function Members<T>(xs: seq<T>, labels: seq<int>, c: int): (m: seq<T>)
    requires |xs| == |labels|
    ensures |m| == Count(labels, c)
    ensures forall e :: e in m ==> e in xs
  {
    if |xs| == 0 then []
    else
      var rest := Members(xs[..|xs| - 1], labels[..|labels| - 1], c);
      assert forall e :: e in rest ==> e in xs by {
        forall e | e in rest
          ensures e in xs
        {
          assert e in xs[..|xs| - 1];
        }
      }
      rest + (if labels[|labels| - 1] == c then [xs[|xs| - 1]] else [])
  }

  /** Every element labelled `c` is among the members of cluster `c`. */
  lemma {:induction false} MembersContain<T>(xs: seq<T>, labels: seq<int>, i: nat)
    requires |xs| == |labels| && i < |xs|
    ensures xs[i] in Members(xs, labels, labels[i])
  {
    if i < |xs| - 1 {
      MembersContain(xs[..|xs| - 1], labels[..|labels| - 1], i);
    }
  }

  lemma {:induction false} CountZero(labels: seq<int>, c: int)
    ensures Count(labels, c) == 0 <==> forall i :: 0 <= i < |labels| ==> labels[i] != c
  {
    if |labels| > 0 {
      CountZero(labels[..|labels| - 1], c);
    }
  }

  function MinLabel(labels: seq<int>): (m: int)
    requires |labels| > 0
    ensures forall i :: 0 <= i < |labels| ==> m <= labels[i]
  {
    if |labels| == 1 then labels[0]
    else
      var r := MinLabel(labels[..|labels| - 1]);
      if labels[|labels| - 1] < r then labels[|labels| - 1] else r
  }

  function MaxLabel(labels: seq<int>): (m: int)
    requires |labels| > 0
    ensures forall i :: 0 <= i < |labels| ==> labels[i] <= m
  {
    if |labels| == 1 then labels[0]
    else
      var r := MaxLabel(labels[..|labels| - 1]);
      if labels[|labels| - 1] > r then labels[|labels| - 1] else r
  }

  /** The labels in `[lo, hi)` that occur, ascending. */
  function PresentBetween(labels: seq<int>, lo: int, hi: int): (r: seq<int>)
    decreases hi - lo
    ensures forall i :: 0 <= i < |r| ==> lo <= r[i] < hi && Count(labels, r[i]) > 0
    ensures forall i, j :: 0 <= i < j < |r| ==> r[i] < r[j]
    ensures forall c :: lo <= c < hi && Count(labels, c) > 0 ==> c in r
  {
    if hi <= lo then []
    else (if Count(labels, lo) > 0 then [lo] else []) + PresentBetween(labels, lo + 1, hi)
  }

  /** `np.unique(labels)`: every label that occurs, ascending, once. */
  function Unique(labels: seq<int>): (r: seq<int>)
    ensures forall i :: 0 <= i < |r| ==> Count(labels, r[i]) > 0
    ensures forall i, j :: 0 <= i < j < |r| ==> r[i] < r[j]
    ensures forall i :: 0 <= i < |labels| ==> labels[i] in r
  {
    if |labels| == 0 then []
    else
      var r := PresentBetween(labels, MinLabel(labels), MaxLabel(labels) + 1);
      assert forall i :: 0 <= i < |labels| ==> labels[i] in r by {
        forall i | 0 <= i < |labels|
          ensures labels[i] in r
        {
          CountZero(labels, labels[i]);
        }
      }
      r
  }

  /** The present labels whose count reaches `minSize`, ascending. */
  function LargeClusters(labels: seq<int>, minSize: int): (r: seq<int>)
    ensures forall i :: 0 <= i < |r| ==> Count(labels, r[i]) > 0 && Count(labels, r[i]) >= minSize
    ensures forall i, j :: 0 <= i < j < |r| ==> r[i] < r[j]
    ensures forall i :: 0 <= i < |labels| && Count(labels, labels[i]) >= minSize ==> labels[i] in r
  {
    FilterLargeProperties(labels, Unique(labels), minSize);
    FilterLarge(labels, Unique(labels), minSize)
  }

  /** The labels of `ids` whose count reaches `minSize`, in the order of `ids`. */
  function FilterLarge(labels: seq<int>, ids: seq<int>, minSize: int): seq<int> {
    if |ids| == 0 then []
    else (if Count(labels, ids[0]) >= minSize then [ids[0]] else []) + FilterLarge(labels, ids[1..], minSize)
  }

  /** Filtering keeps exactly the large labels of `ids`, ascending when `ids` is. */
  lemma {:induction false} FilterLargeProperties(labels: seq<int>, ids: seq<int>, minSize: int)
    requires forall i, j :: 0 <= i < j < |ids| ==> ids[i] < ids[j]
    ensures forall i :: 0 <= i < |FilterLarge(labels, ids, minSize)| ==>
      FilterLarge(labels, ids, minSize)[i] in ids && Count(labels, FilterLarge(labels, ids, minSize)[i]) >= minSize
    ensures forall i, j :: 0 <= i < j < |FilterLarge(labels, ids, minSize)| ==>
      FilterLarge(labels, ids, minSize)[i] < FilterLarge(labels, ids, minSize)[j]
    ensures forall c :: c in ids && Count(labels, c) >= minSize ==> c in FilterLarge(labels, ids, minSize)
  {
    if |ids| > 0 {
      var tail := ids[1..];
      FilterLargeProperties(labels, tail, minSize);
      var rest := FilterLarge(labels, tail, minSize);
      var head: seq<int> := if Count(labels, ids[0]) >= minSize then [ids[0]] else [];
      var r := FilterLarge(labels, ids, minSize);
      assert r == head + rest;
      forall i | 0 <= i < |rest|
        ensures ids[0] < rest[i] && rest[i] in ids
      {
        var k :| 0 <= k < |tail| && tail[k] == rest[i];
        assert ids[k + 1] == rest[i];
      }
      forall c | c in ids && Count(labels, c) >= minSize
        ensures c in r
      {
        if c != ids[0] {
          assert c in tail;
          assert c in rest;
        }
      }
    }
  }
}
