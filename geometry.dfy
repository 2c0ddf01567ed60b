/**
 * Points in space, squared Euclidean distances and the nearest-atom query
 * that the KD-tree answers. Distances are compared against thresholds as
 * squared distances, so no square root is ever taken.
 */
module Geometry {

  datatype Point = Point(x: real, y: real, z: real)

  function Add(a: Point, b: Point): Point {
    Point(a.x + b.x, a.y + b.y, a.z + b.z)
  }

  function Scale(t: real, a: Point): Point {
    Point(t * a.x, t * a.y, t * a.z)
  }

  /** The point reached from `p` after walking `t` units along `dir`. */
  function Along(p: Point, t: real, dir: Point): Point {
    Add(p, Scale(t, dir))
  }

  function Sq(v: real): (r: real)
    ensures r >= 0.0
  {
    v * v
  }

  /** Square of the Euclidean distance between two points. */
  function SqDist(a: Point, b: Point): (r: real)
    ensures r >= 0.0
  {
    Sq(a.x - b.x) + Sq(a.y - b.y) + Sq(a.z - b.z)
  }

  lemma SqDistSymmetric(a: Point, b: Point)
    ensures SqDist(a, b) == SqDist(b, a)
  {
  }

  /** "distance < t" for a distance whose square is `sq`. */
  predicate Within(sq: real, t: real) {
    t > 0.0 && sq < t * t
  }

  /** "distance > t" for a distance whose square is `sq`. */
  predicate Beyond(sq: real, t: real) {
    t < 0.0 || sq > t * t
  }

  /** `Within` and `Beyond` are exactly the comparisons of the distance itself. */
  lemma SquaredComparisons(d: real, t: real)
    requires d >= 0.0
    ensures Within(d * d, t) <==> d < t
    ensures Beyond(d * d, t) <==> d > t
  {
    if 0.0 <= t {
      if d < t {
        assert d * d <= d * t < t * t;
      } else {
        assert t * t <= t * d <= d * d;
      }
      if d > t {
        assert t * t <= t * d < d * d;
      } else {
        assert d * d <= d * t <= t * t;
      }
    }
  }

  /**
   * Squared distance from `p` to the nearest of `atoms`: what the KD-tree
   * query returns (squared).
   */
  function NearestSq(atoms: seq<Point>, p: Point): (r: real)
    requires |atoms| > 0
    ensures r >= 0.0
    ensures forall i :: 0 <= i < |atoms| ==> r <= SqDist(atoms[i], p)
    ensures exists i :: 0 <= i < |atoms| && r == SqDist(atoms[i], p)
  {
    if |atoms| == 1 then SqDist(atoms[0], p)
    else
      var rest := NearestSq(atoms[..|atoms| - 1], p);
      var last := SqDist(atoms[|atoms| - 1], p);
      if last < rest then last else rest
  }

  /** Some atom lies strictly closer than `t` to `p`. */
  predicate AnyWithin(atoms: seq<Point>, p: Point, t: real) {
    exists i :: 0 <= i < |atoms| && Within(SqDist(atoms[i], p), t)
  }

  /** The nearest atom is closer than `t` exactly when some atom is. */
  lemma NearestWithin(atoms: seq<Point>, p: Point, t: real)
    requires |atoms| > 0
    ensures Within(NearestSq(atoms, p), t) <==> AnyWithin(atoms, p, t)
  {
    var r := NearestSq(atoms, p);
    if Within(r, t) {
      var i :| 0 <= i < |atoms| && r == SqDist(atoms[i], p);
      assert Within(SqDist(atoms[i], p), t);
    }
  }

  /**
   * The explicit loop of finder.py that scans every surface atom for the
   * smallest distance to a grid point, starting from infinity.
   */
  method NearestSqLoop(atoms: seq<Point>, p: Point) returns (r: real)
    requires |atoms| > 0
    ensures r == NearestSq(atoms, p)
  {
    r := SqDist(atoms[0], p);
    var i := 1;
    while i < |atoms|
      invariant 1 <= i <= |atoms|
      invariant r == NearestSq(atoms[..i], p)
    {
      assert atoms[..i + 1][..i] == atoms[..i];
      var d := SqDist(atoms[i], p);
      if d < r {
        r := d;
      }
      i := i + 1;
    }
    assert atoms[..i] == atoms;
  }

  function SumPoints(ps: seq<Point>): Point {
    if |ps| == 0 then Point(0.0, 0.0, 0.0)
    else Add(SumPoints(ps[..|ps| - 1]), ps[|ps| - 1])
  }

  /** Component-wise mean of a non-empty point set (`np.mean(..., axis=0)`). */
  function Mean(ps: seq<Point>): (c: Point)
    requires |ps| > 0
  {
    Scale(1.0 / (|ps| as real), SumPoints(ps))
  }

  function SumReals(s: seq<real>): real {
    if |s| == 0 then 0.0 else SumReals(s[..|s| - 1]) + s[|s| - 1]
  }

  function MeanReals(s: seq<real>): real
    requires |s| > 0
  {
    SumReals(s) / (|s| as real)
  }

  /** A mean lies between the smallest and the largest value. */
  lemma {:induction false} SumBounds(s: seq<real>, lo: real, hi: real)
    requires forall i :: 0 <= i < |s| ==> lo <= s[i] <= hi
    ensures (|s| as real) * lo <= SumReals(s) <= (|s| as real) * hi
  {
    if |s| > 0 {
      SumBounds(s[..|s| - 1], lo, hi);
    }
  }

  lemma MeanBounds(s: seq<real>, lo: real, hi: real)
    requires |s| > 0
    requires forall i :: 0 <= i < |s| ==> lo <= s[i] <= hi
    ensures lo <= MeanReals(s) <= hi
  {
    SumBounds(s, lo, hi);
    var n := |s| as real;
    assert n * lo <= SumReals(s) <= n * hi;
    assert SumReals(s) / n >= lo;
    assert SumReals(s) / n <= hi;
  }

  lemma {:induction false} SumAbove(s: seq<real>, lo: real)
    requires |s| > 0
    requires forall i :: 0 <= i < |s| ==> s[i] > lo
    ensures SumReals(s) > (|s| as real) * lo
  {
    if |s| > 1 {
      SumAbove(s[..|s| - 1], lo);
    }
  }

  /** The mean of values that all exceed `lo` exceeds `lo`. */
  lemma MeanAbove(s: seq<real>, lo: real)
    requires |s| > 0
    requires forall i :: 0 <= i < |s| ==> s[i] > lo
    ensures MeanReals(s) > lo
  {
    SumAbove(s, lo);
    var n := |s| as real;
    assert SumReals(s) / n > lo;
  }
}
