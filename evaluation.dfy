/**
 * The evaluation helpers of Analysis.py: set-based precision, recall and
 * F1 of a predicted residue list against the known one, the voxel grids
 * laid over the two sites with their Jaccard index and volume
 * similarity, and the bounded protein-complexity sum.
 */
module Evaluation {
  import opened Wrappers
  import opened Geometry
  import opened Protein
  import opened Structure
  import opened Analysis

  // ---------------------------------------------------------------- precision, recall and F1

  /** `set(...)` of a list of `(chain, number)` pairs. */
  function ToSet<T(!new)>(s: seq<T>): (r: set<T>)
    ensures forall x :: x in r <==> x in s
  {
    set x | x in s
  }

  /** True positives, false positives and false negatives. */
  datatype Counts = Counts(tp: nat, fp: nat, fn: nat)

  function Classify(known: seq<ResidueId>, predicted: seq<ResidueId>): (c: Counts)
    ensures c.tp + c.fp == |ToSet(predicted)|
    ensures c.tp + c.fn == |ToSet(known)|
  {
    var k := ToSet(known);
    var p := ToSet(predicted);
    SplitCard(k, p);
    SplitCard(p, k);
    Counts(|k * p|, |p - k|, |k - p|)
  }

  /** A set is split by another into the shared part and the rest. */
  lemma SplitCard<T(!new)>(a: set<T>, b: set<T>)
    ensures |a| == |a * b| + |a - b| && |a| == |b * a| + |a - b|
  {
    assert a == (a * b) + (a - b);
    assert (a * b) * (a - b) == {};
    assert a * b == b * a;
  }

  /** `a / b`, or 0 when the denominator is 0. */
  function Ratio(a: nat, b: nat): (r: real)
    ensures b == 0 ==> r == 0.0
    ensures a <= b ==> 0.0 <= r <= 1.0
    ensures b > 0 ==> r * (b as real) == a as real
  {
    if b > 0 then a as real / b as real else 0.0
  }

  function Precision(c: Counts): real {
    Ratio(c.tp, c.tp + c.fp)
  }

  function Recall(c: Counts): real {
    Ratio(c.tp, c.tp + c.fn)
  }

  /** The harmonic mean of precision and recall, 0 when both are 0. */
  function F1(precision: real, recall: real): real {
    if precision + recall > 0.0 then 2.0 * precision * recall / (precision + recall) else 0.0
  }

  datatype Quality = Quality(precision: real, recall: real, f1: real)

  /** Precision, recall and F1 of a prediction, each in [0, 1]. */
  function QualityOf(known: seq<ResidueId>, predicted: seq<ResidueId>): (m: Quality)
    ensures 0.0 <= m.precision <= 1.0 && 0.0 <= m.recall <= 1.0 && 0.0 <= m.f1 <= 1.0
    ensures m.f1 == Ratio(2 * Classify(known, predicted).tp,
                          2 * Classify(known, predicted).tp + Classify(known, predicted).fp + Classify(known, predicted).fn)
  {
    var c := Classify(known, predicted);
    F1Reference(c);
    Quality(Precision(c), Recall(c), F1(Precision(c), Recall(c)))
  }

  /** The harmonic mean of the two ratios is the "2TP / (2TP + FP + FN)" form. */
  lemma F1Reference(c: Counts)
    ensures F1(Precision(c), Recall(c)) == Ratio(2 * c.tp, 2 * c.tp + c.fp + c.fn)
  {
    if c.tp > 0 {
      var t, a, b := c.tp as real, (c.tp + c.fp) as real, (c.tp + c.fn) as real;
      assert Precision(c) == t / a && Recall(c) == t / b;
      PositiveShares(t, a, b);
      HarmonicOfRatios(t, a, b);
      assert (2 * c.tp) as real == 2.0 * t && (2 * c.tp + c.fp + c.fn) as real == a + b;
    } else {
      assert Precision(c) == 0.0 && Recall(c) == 0.0;
    }
  }

  lemma PositiveShares(t: real, a: real, b: real)
    requires t > 0.0 && a > 0.0 && b > 0.0
    ensures t / a + t / b > 0.0
  {
    assert (t / a) * a == t;
    assert (t / b) * b == t;
  }

  lemma HarmonicOfRatios(t: real, a: real, b: real)
    requires t > 0.0 && a > 0.0 && b > 0.0
    ensures 2.0 * (t / a) * (t / b) / (t / a + t / b) == 2.0 * t / (a + b)
  {
    var p := t / a;
    var r := t / b;
    assert p * a == t && r * b == t;
    assert (p + r) * (a * b) == t * (a + b);
    assert 2.0 * p * r * (a * b) == 2.0 * t * t;
    var f := 2.0 * p * r / (p + r);
    assert f * (p + r) == 2.0 * p * r;
    assert f * t * (a + b) == 2.0 * t * t by {
      assert f * (p + r) * (a * b) == 2.0 * p * r * (a * b);
    }
    assert f * (a + b) == 2.0 * t;
  }

  lemma RatioOne(a: nat, b: nat)
    requires a <= b
    ensures Ratio(a, b) == 1.0 <==> a == b && b > 0
  {
  }

  lemma EmptyDifference<T>(a: set<T>, b: set<T>)
    ensures |a - b| == 0 <==> a <= b
  {
    if !(a <= b) {
      var x :| x in a && x !in b;
      assert x in a - b;
    }
  }

  /** Precision is 1 exactly when something is predicted and every predicted residue is known. */
  lemma PrecisionPerfect(known: seq<ResidueId>, predicted: seq<ResidueId>)
    ensures QualityOf(known, predicted).precision == 1.0 <==> |predicted| > 0 && ToSet(predicted) <= ToSet(known)
  {
    var c := Classify(known, predicted);
    RatioOne(c.tp, c.tp + c.fp);
    EmptyDifference(ToSet(predicted), ToSet(known));
    NonEmptySet(predicted);
  }

  /** Recall is 1 exactly when some residue is known and every known residue is predicted. */
  lemma RecallPerfect(known: seq<ResidueId>, predicted: seq<ResidueId>)
    ensures QualityOf(known, predicted).recall == 1.0 <==> |known| > 0 && ToSet(known) <= ToSet(predicted)
  {
    var c := Classify(known, predicted);
    RatioOne(c.tp, c.tp + c.fn);
    EmptyDifference(ToSet(known), ToSet(predicted));
    NonEmptySet(known);
  }

  /** F1 is 1 exactly when the two residue sets agree and are not empty. */
  lemma F1Perfect(known: seq<ResidueId>, predicted: seq<ResidueId>)
    ensures QualityOf(known, predicted).f1 == 1.0 <==> |known| > 0 && ToSet(known) == ToSet(predicted)
  {
    var c := Classify(known, predicted);
    var k := ToSet(known);
    var p := ToSet(predicted);
    RatioOne(2 * c.tp, 2 * c.tp + c.fp + c.fn);
    EmptyDifference(k, p);
    EmptyDifference(p, k);
    NonEmptySet(known);
  }

  lemma NonEmptySet<T(!new)>(s: seq<T>)
    ensures |ToSet(s)| > 0 <==> |s| > 0
  {
    if |s| > 0 {
      assert s[0] in ToSet(s);
    }
  }

  /** Exchanging the known and predicted lists exchanges precision and recall and keeps F1. */
  lemma QualitySwap(known: seq<ResidueId>, predicted: seq<ResidueId>)
    ensures QualityOf(predicted, known).precision == QualityOf(known, predicted).recall
    ensures QualityOf(predicted, known).recall == QualityOf(known, predicted).precision
    ensures QualityOf(predicted, known).f1 == QualityOf(known, predicted).f1
  {
    var k := ToSet(known);
    var p := ToSet(predicted);
    assert k * p == p * k;
  }

  // ---------------------------------------------------------------- voxel grids

  /** The grid spacing and the neighbourhood radius, both in grid units of 1 A. */
  const GridSpacing: real := 1.0
  const Radius: real := 1.5
  /** How far the loops step along each axis: `int(radius)`. */
  const Reach: int := 1

  /** `int` truncates towards zero, which for the positive radius is its floor. */
  lemma ReachIsTruncatedRadius()
    ensures Radius > 0.0 && Reach == Radius.Floor
  {
  }

  datatype Voxel = Voxel(x: int, y: int, z: int)

  /** `np.round`: to the nearest integer, ties to the even one. */
  function RoundHalfEven(v: real): (n: int)
    ensures n as real - 0.5 <= v <= n as real + 0.5
    ensures v == n as real - 0.5 || v == n as real + 0.5 ==> n % 2 == 0
  {
    var f := v.Floor;
    var d := v - f as real;
    if d < 0.5 then f
    else if d > 0.5 then f + 1
    else if f % 2 == 0 then f
    else f + 1
  }

  /** Those two properties single out the rounded value. */
  lemma RoundHalfEvenUnique(v: real, m: int)
    requires m as real - 0.5 <= v <= m as real + 0.5
    requires v == m as real - 0.5 || v == m as real + 0.5 ==> m % 2 == 0
    ensures m == RoundHalfEven(v)
  {
  }

  /** The voxel an atom falls in. */
  function VoxelOf(c: Point): Voxel {
    Voxel(RoundHalfEven(c.x / GridSpacing), RoundHalfEven(c.y / GridSpacing), RoundHalfEven(c.z / GridSpacing))
  }

  /** The test on an offset inside the triple loop. */
  predicate InBall(dx: int, dy: int, dz: int) {
    (dx * dx + dy * dy + dz * dz) as real <= Radius * Radius
  }

  /** The voxels the loop over `dz` adds while `dz` runs below `hi`. */
  function Column(g: Voxel, dx: int, dy: int, hi: int): set<Voxel>
    decreases hi + Reach
  {
    if hi <= -Reach then {}
    else Column(g, dx, dy, hi - 1) + if InBall(dx, dy, hi - 1) then {Voxel(g.x + dx, g.y + dy, g.z + hi - 1)} else {}
  }

  /** The voxels the loops over `dy` and `dz` add while `dy` runs below `hi`. */
  function Plane(g: Voxel, dx: int, hi: int): set<Voxel>
    decreases hi + Reach
  {
    if hi <= -Reach then {} else Plane(g, dx, hi - 1) + Column(g, dx, hi - 1, Reach + 1)
  }

  /** The voxels the triple loop adds while `dx` runs below `hi`. */
  function BallPart(g: Voxel, hi: int): set<Voxel>
    decreases hi + Reach
  {
    if hi <= -Reach then {} else BallPart(g, hi - 1) + Plane(g, hi - 1, Reach + 1)
  }

  /** The neighbourhood the triple loop adds around the voxel `g`. */
  function Ball(g: Voxel): set<Voxel> {
    BallPart(g, Reach + 1)
  }

  /** `v` is offset from `g` by a step the triple loop takes and keeps. */
  predicate Near(g: Voxel, v: Voxel) {
    && -Reach <= v.x - g.x <= Reach && -Reach <= v.y - g.y <= Reach && -Reach <= v.z - g.z <= Reach
    && InBall(v.x - g.x, v.y - g.y, v.z - g.z)
  }

  lemma {:induction false} ColumnMembers(g: Voxel, dx: int, dy: int, hi: int, v: Voxel)
    requires hi <= Reach + 1
    ensures v in Column(g, dx, dy, hi) <==>
      v.x == g.x + dx && v.y == g.y + dy && -Reach <= v.z - g.z < hi && InBall(dx, dy, v.z - g.z)
    decreases hi + Reach
  {
    if hi > -Reach {
      ColumnMembers(g, dx, dy, hi - 1, v);
    }
  }

  lemma {:induction false} PlaneMembers(g: Voxel, dx: int, hi: int, v: Voxel)
    requires hi <= Reach + 1
    ensures v in Plane(g, dx, hi) <==> v.x == g.x + dx && -Reach <= v.y - g.y < hi && Near(g, v)
    decreases hi + Reach
  {
    if hi > -Reach {
      PlaneMembers(g, dx, hi - 1, v);
      ColumnMembers(g, dx, hi - 1, Reach + 1, v);
      if v.x == g.x + dx && v.y == g.y + hi - 1 {
        assert InBall(dx, hi - 1, v.z - g.z) == InBall(v.x - g.x, v.y - g.y, v.z - g.z);
      }
    }
  }

  lemma {:induction false} BallPartMembers(g: Voxel, hi: int, v: Voxel)
    requires hi <= Reach + 1
    ensures v in BallPart(g, hi) <==> -Reach <= v.x - g.x < hi && Near(g, v)
    decreases hi + Reach
  {
    if hi > -Reach {
      BallPartMembers(g, hi - 1, v);
      PlaneMembers(g, hi - 1, Reach + 1, v);
    }
  }

  /** The neighbourhood is exactly the voxels near the centre. */
  lemma BallMembers(g: Voxel, v: Voxel)
    ensures v in Ball(g) <==> Near(g, v)
  {
    BallPartMembers(g, Reach + 1, v);
  }

  /**
   * With radius 1.5 an offset is kept unless all three of its steps are
   * non-zero: the centre, the 6 face neighbours and the 12 edge
   * neighbours, but none of the 8 corners.
   */
  lemma NearShape(g: Voxel, v: Voxel)
    ensures Near(g, v) <==>
      && -1 <= v.x - g.x <= 1 && -1 <= v.y - g.y <= 1 && -1 <= v.z - g.z <= 1
      && (v.x == g.x || v.y == g.y || v.z == g.z)
  {
    var dx, dy, dz := v.x - g.x, v.y - g.y, v.z - g.z;
    if -1 <= dx <= 1 && -1 <= dy <= 1 && -1 <= dz <= 1 {
      assert dx * dx <= 1 && dy * dy <= 1 && dz * dz <= 1;
      assert dx * dx == 1 <==> dx != 0;
      assert dy * dy == 1 <==> dy != 0;
      assert dz * dz == 1 <==> dz != 0;
    }
  }

  /** How many steps the loop over `dz` keeps while `dz` runs below `hi`. */
  function DzCount(dx: int, dy: int, hi: int): nat
    decreases hi + Reach
  {
    if hi <= -Reach then 0 else DzCount(dx, dy, hi - 1) + if InBall(dx, dy, hi - 1) then 1 else 0
  }

  function DyCount(dx: int, hi: int): nat
    decreases hi + Reach
  {
    if hi <= -Reach then 0 else DyCount(dx, hi - 1) + DzCount(dx, hi - 1, Reach + 1)
  }

  function DxCount(hi: int): nat
    decreases hi + Reach
  {
    if hi <= -Reach then 0 else DxCount(hi - 1) + DyCount(hi - 1, Reach + 1)
  }

  lemma {:induction false} ColumnSize(g: Voxel, dx: int, dy: int, hi: int)
    requires hi <= Reach + 1
    ensures |Column(g, dx, dy, hi)| == DzCount(dx, dy, hi)
    decreases hi + Reach
  {
    if hi > -Reach {
      var prev := Column(g, dx, dy, hi - 1);
      ColumnSize(g, dx, dy, hi - 1);
      if InBall(dx, dy, hi - 1) {
        var v := Voxel(g.x + dx, g.y + dy, g.z + hi - 1);
        ColumnMembers(g, dx, dy, hi - 1, v);
        assert v !in prev;
        AddNewElement(prev, v);
      }
    }
  }

  lemma AddNewElement<T>(s: set<T>, x: T)
    requires x !in s
    ensures |s + {x}| == |s| + 1
  {
    assert s * {x} == {};
  }

  lemma DisjointUnion<T>(a: set<T>, b: set<T>)
    requires forall x :: x in b ==> x !in a
    ensures |a + b| == |a| + |b|
  {
    assert a * b == {};
  }

  lemma {:induction false} PlaneSize(g: Voxel, dx: int, hi: int)
    requires hi <= Reach + 1
    ensures |Plane(g, dx, hi)| == DyCount(dx, hi)
    decreases hi + Reach
  {
    if hi > -Reach {
      PlaneSize(g, dx, hi - 1);
      ColumnSize(g, dx, hi - 1, Reach + 1);
      var c := Column(g, dx, hi - 1, Reach + 1);
      var prev := Plane(g, dx, hi - 1);
      forall v | v in c
        ensures v !in prev
      {
        ColumnMembers(g, dx, hi - 1, Reach + 1, v);
        PlaneMembers(g, dx, hi - 1, v);
      }
      DisjointUnion(prev, c);
    }
  }

  lemma {:induction false} BallPartSize(g: Voxel, hi: int)
    requires hi <= Reach + 1
    ensures |BallPart(g, hi)| == DxCount(hi)
    decreases hi + Reach
  {
    if hi > -Reach {
      BallPartSize(g, hi - 1);
      PlaneSize(g, hi - 1, Reach + 1);
      var p := Plane(g, hi - 1, Reach + 1);
      var prev := BallPart(g, hi - 1);
      forall v | v in p
        ensures v !in prev
      {
        PlaneMembers(g, hi - 1, Reach + 1, v);
        BallPartMembers(g, hi - 1, v);
      }
      DisjointUnion(prev, p);
    }
  }

  /** Along `dz` the loop keeps one step when `dx` and `dy` are both non-zero, and three otherwise. */
  lemma ColumnCount(dx: int, dy: int)
    requires -1 <= dx <= 1 && -1 <= dy <= 1
    ensures DzCount(dx, dy, Reach + 1) == if dx != 0 && dy != 0 then 1 else 3
  {
    assert Reach == 1;
    assert dx * dx <= 1 && dy * dy <= 1;
    assert dx * dx == 1 <==> dx != 0;
    assert dy * dy == 1 <==> dy != 0;
    assert DzCount(dx, dy, 0) == if InBall(dx, dy, -1) then 1 else 0;
    assert DzCount(dx, dy, 1) == DzCount(dx, dy, 0) + if InBall(dx, dy, 0) then 1 else 0;
  }

  lemma PlaneCount(dx: int)
    requires -1 <= dx <= 1
    ensures DyCount(dx, Reach + 1) == if dx != 0 then 5 else 9
  {
    assert Reach == 1;
    ColumnCount(dx, -1);
    ColumnCount(dx, 0);
    ColumnCount(dx, 1);
    assert DyCount(dx, 0) == DzCount(dx, -1, Reach + 1);
    assert DyCount(dx, 1) == DyCount(dx, 0) + DzCount(dx, 0, Reach + 1);
  }

  /** Every atom adds exactly 19 voxels: 5 + 9 + 5 over the three values of `dx`. */
  lemma BallSize(g: Voxel)
    ensures |Ball(g)| == 19
  {
    assert Reach == 1;
    BallPartSize(g, Reach + 1);
    PlaneCount(-1);
    PlaneCount(0);
    PlaneCount(1);
    assert DxCount(0) == DyCount(-1, Reach + 1);
    assert DxCount(1) == DxCount(0) + DyCount(0, Reach + 1);
  }

  /** The innermost loop, over `dz`. */
  method AddColumn(grid: set<Voxel>, g: Voxel, dx: int, dy: int) returns (next: set<Voxel>)
    ensures next == grid + Column(g, dx, dy, Reach + 1)
  {
    next := grid;
    for dz := -Reach to Reach + 1
      invariant next == grid + Column(g, dx, dy, dz)
    {
      if (dx * dx + dy * dy + dz * dz) as real <= Radius * Radius {
        next := next + {Voxel(g.x + dx, g.y + dy, g.z + dz)};
      }
    }
  }

  /** The loop over `dy`. */
  method AddPlane(grid: set<Voxel>, g: Voxel, dx: int) returns (next: set<Voxel>)
    ensures next == grid + Plane(g, dx, Reach + 1)
  {
    next := grid;
    for dy := -Reach to Reach + 1
      invariant next == grid + Plane(g, dx, dy)
    {
      next := AddColumn(next, g, dx, dy);
    }
  }

  /** One atom of a site: its voxel and the voxels around it. */
  method AddAtom(grid: set<Voxel>, c: Point) returns (next: set<Voxel>)
    ensures next == grid + Ball(VoxelOf(c))
  {
    var g := VoxelOf(c);
    next := grid + {g};
    for dx := -Reach to Reach + 1
      invariant next == grid + {g} + BallPart(g, dx)
    {
      next := AddPlane(next, g, dx);
    }
    CentreInBall(g);
  }

  lemma CentreInBall(g: Voxel)
    ensures g in Ball(g)
  {
    BallMembers(g, g);
  }

  // ---------------------------------------------------------------- the grid of a site, Jaccard and volume similarity

  /** The voxels one atom marks: the neighbourhood of the voxel its centre rounds to. */
  function Hood(a: Atom): set<Voxel> {
    Ball(VoxelOf(a.coord))
  }

  /** The grid of a site: the neighbourhood of every one of its atoms. */
  function GridOf(atoms: seq<Atom>): set<Voxel> {
    if |atoms| == 0 then {} else GridOf(atoms[..|atoms| - 1]) + Hood(atoms[|atoms| - 1])
  }

  /** The loop over a site's atoms. */
  method BuildGrid(atoms: seq<Atom>) returns (grid: set<Voxel>)
    ensures grid == GridOf(atoms)
  {
    grid := {};
    for i := 0 to |atoms|
      invariant grid == GridOf(atoms[..i])
    {
      assert atoms[..i + 1][..i] == atoms[..i];
      grid := AddAtom(grid, atoms[i].coord);
    }
    assert atoms[..|atoms|] == atoms;
  }

  /** Some atom of the site has the voxel in its neighbourhood. */
  predicate Covered(atoms: seq<Atom>, v: Voxel) {
    exists i :: 0 <= i < |atoms| && v in Hood(atoms[i])
  }

  /** Every voxel of a site's grid is in the neighbourhood of one of the site's atoms. */
  lemma {:induction false} GridCovers(atoms: seq<Atom>, v: Voxel)
    requires v in GridOf(atoms)
    ensures Covered(atoms, v)
  {
    var n := |atoms| - 1;
    if v in Hood(atoms[n]) {
      assert 0 <= n < |atoms| && v in Hood(atoms[n]);
    } else {
      var init := atoms[..n];
      GridCovers(init, v);
      var i :| 0 <= i < n && v in Hood(init[i]);
      assert init[i] == atoms[i];
    }
  }

  /** Every voxel in the neighbourhood of one of a site's atoms is in the site's grid. */
  lemma {:induction false} CoveredInGrid(atoms: seq<Atom>, v: Voxel, i: int)
    requires 0 <= i < |atoms| && v in Hood(atoms[i])
    ensures v in GridOf(atoms)
  {
    var n := |atoms| - 1;
    if i < n {
      var init := atoms[..n];
      assert init[i] == atoms[i];
      CoveredInGrid(init, v, i);
    }
  }

  /** So a voxel is in a site's grid exactly when it is in the neighbourhood of one of the site's atoms. */
  lemma GridCovered(atoms: seq<Atom>, v: Voxel)
    ensures v in GridOf(atoms) <==> Covered(atoms, v)
  {
    if v in GridOf(atoms) {
      GridCovers(atoms, v);
    }
    if Covered(atoms, v) {
      var i :| 0 <= i < |atoms| && v in Hood(atoms[i]);
      CoveredInGrid(atoms, v, i);
    }
  }

  /** Hence a voxel is in a site's grid exactly when it is near the voxel of one of the site's atoms. */
  lemma GridMembers(atoms: seq<Atom>, v: Voxel)
    ensures v in GridOf(atoms) <==> exists i :: 0 <= i < |atoms| && Near(VoxelOf(atoms[i].coord), v)
  {
    GridCovered(atoms, v);
    forall i | 0 <= i < |atoms|
      ensures v in Hood(atoms[i]) <==> Near(VoxelOf(atoms[i].coord), v)
    {
      BallMembers(VoxelOf(atoms[i].coord), v);
    }
  }

  lemma SubsetCard<T>(a: set<T>, b: set<T>)
    requires a <= b
    ensures |b| == |a| + |b - a|
  {
    assert b == a + (b - a);
    assert a * (b - a) == {};
  }

  /** A site with an atom covers at least one whole neighbourhood: 19 voxels. */
  lemma GridSize(atoms: seq<Atom>)
    requires |atoms| > 0
    ensures |GridOf(atoms)| >= 19
  {
    var g := VoxelOf(atoms[|atoms| - 1].coord);
    BallSize(g);
    SubsetCard(Ball(g), GridOf(atoms));
  }

  /** Intersection over union, 0 for two empty grids. */
  function Jaccard(a: set<Voxel>, b: set<Voxel>): (r: real)
    ensures 0.0 <= r <= 1.0
  {
    SubsetCard(a * b, a + b);
    Ratio(|a * b|, |a + b|)
  }

  lemma JaccardSymmetric(a: set<Voxel>, b: set<Voxel>)
    ensures Jaccard(a, b) == Jaccard(b, a)
  {
    assert a * b == b * a && a + b == b + a;
  }

  /** The overlap is complete exactly when the grids are the same and not empty. */
  lemma JaccardOne(a: set<Voxel>, b: set<Voxel>)
    ensures Jaccard(a, b) == 1.0 <==> a == b && a != {}
  {
    SubsetCard(a * b, a + b);
    RatioOne(|a * b|, |a + b|);
    EmptyDifference(a + b, a * b);
    if a == b && a != {} {
      assert a * b == a + b;
    }
  }

  /** The overlap is nothing exactly when the grids share no voxel. */
  lemma JaccardZero(a: set<Voxel>, b: set<Voxel>)
    ensures Jaccard(a, b) == 0.0 <==> a * b == {}
  {
    SubsetCard(a * b, a + b);
    if a * b != {} {
      var v :| v in a * b;
      assert |a * b| > 0;
    }
  }

  function Min(a: real, b: real): real {
    if a <= b then a else b
  }

  function Max(a: real, b: real): real {
    if a >= b then a else b
  }

  /** A grid's volume: its voxel count times the volume of one voxel. */
  function Volume(grid: set<Voxel>): real {
    |grid| as real * (GridSpacing * GridSpacing * GridSpacing)
  }

  /** The smaller volume over the larger; the larger must not be 0. */
  function VolumeSimilarity(a: set<Voxel>, b: set<Voxel>): (r: real)
    requires |a| > 0 || |b| > 0
    ensures 0.0 <= r <= 1.0
    ensures r > 0.0 <==> |a| > 0 && |b| > 0
    ensures r == 1.0 <==> |a| == |b|
  {
    var va, vb := Volume(a), Volume(b);
    RatioOfVolumes(va, vb);
    Min(va, vb) / Max(va, vb)
  }

  lemma RatioOfVolumes(va: real, vb: real)
    requires va >= 0.0 && vb >= 0.0 && (va > 0.0 || vb > 0.0)
    ensures 0.0 <= Min(va, vb) / Max(va, vb) <= 1.0
    ensures Min(va, vb) / Max(va, vb) > 0.0 <==> va > 0.0 && vb > 0.0
    ensures Min(va, vb) / Max(va, vb) == 1.0 <==> va == vb
  {
    RatioFacts(Min(va, vb), Max(va, vb));
  }

  /** A ratio of a non-negative number to a larger positive one. */
  lemma RatioFacts(lo: real, hi: real)
    requires 0.0 <= lo <= hi && hi > 0.0
    ensures 0.0 <= lo / hi <= 1.0
    ensures lo / hi > 0.0 <==> lo > 0.0
    ensures lo / hi == 1.0 <==> lo == hi
  {
    QuotientFacts(lo, hi);
    var q := lo / hi;
    if lo == hi {
      assert (q - 1.0) * hi == 0.0;
    }
    if lo == 0.0 {
      assert q * hi == 0.0;
    }
  }

  lemma VolumeSimilaritySymmetric(a: set<Voxel>, b: set<Voxel>)
    requires |a| > 0 || |b| > 0
    ensures VolumeSimilarity(a, b) == VolumeSimilarity(b, a)
  {
  }

  /** The two spatial measures the evaluation reports. */
  datatype Spatial = Spatial(overlap: real, volumeSimilarity: real)

  /** Only computed when both sites have an atom; then both measures lie in their ranges. */
  function SpatialOf(known: seq<Atom>, predicted: seq<Atom>): (r: Option<Spatial>)
    ensures r.Some? <==> |known| > 0 && |predicted| > 0
    ensures r.Some? ==> 0.0 <= r.value.overlap <= 1.0 && 0.0 < r.value.volumeSimilarity <= 1.0
  {
    if |known| > 0 && |predicted| > 0 then
      GridSize(known);
      GridSize(predicted);
      Some(Spatial(Jaccard(GridOf(known), GridOf(predicted)), VolumeSimilarity(GridOf(known), GridOf(predicted))))
    else None
  }

  /** The grid-building part of the spatial metrics. */
  method SpatialMetrics(known: seq<Atom>, predicted: seq<Atom>) returns (r: Option<Spatial>)
    ensures r == SpatialOf(known, predicted)
  {
    if |known| > 0 && |predicted| > 0 {
      var knownGrid := BuildGrid(known);
      var predictedGrid := BuildGrid(predicted);
      GridSize(known);
      GridSize(predicted);
      r := Some(Spatial(Jaccard(knownGrid, predictedGrid), VolumeSimilarity(knownGrid, predictedGrid)));
    } else {
      r := None;
    }
  }

  // ---------------------------------------------------------------- the residue map and the atoms of a site

  function IdOf(r: Residue): ResidueId {
    ResidueId(r.chain, r.num)
  }

  /**
   * `residue_map`: the standard residues by chain and number. A later
   * residue with the same chain and number replaces an earlier one.
   */
  function ResidueMap(rs: seq<Residue>): map<ResidueId, Residue> {
    if |rs| == 0 then map[]
    else
      var r := rs[|rs| - 1];
      var m := ResidueMap(rs[..|rs| - 1]);
      if r.name in StandardNames then m[IdOf(r) := r] else m
  }

  method BuildResidueMap(rs: seq<Residue>) returns (m: map<ResidueId, Residue>)
    ensures m == ResidueMap(rs)
  {
    m := map[];
    for i := 0 to |rs|
      invariant m == ResidueMap(rs[..i])
    {
      assert rs[..i + 1][..i] == rs[..i];
      if rs[i].name in StandardNames {
        m := m[IdOf(rs[i]) := rs[i]];
      }
    }
    assert rs[..|rs|] == rs;
  }

  /** `rs[i]` is a standard residue and no later standard residue has its chain and number. */
  predicate LastOfKey(rs: seq<Residue>, i: int)
    requires 0 <= i < |rs|
  {
    && rs[i].name in StandardNames
    && forall j :: i < j < |rs| && rs[j].name in StandardNames ==> IdOf(rs[j]) != IdOf(rs[i])
  }

  /** The map's keys are exactly the chains and numbers of the standard residues. */
  lemma {:induction false} ResidueMapKeys(rs: seq<Residue>, id: ResidueId)
    ensures id in ResidueMap(rs) <==> exists i :: 0 <= i < |rs| && rs[i].name in StandardNames && IdOf(rs[i]) == id
  {
    if |rs| > 0 {
      var n := |rs| - 1;
      var init := rs[..n];
      ResidueMapKeys(init, id);
      if id in ResidueMap(init) {
        var i :| 0 <= i < n && init[i].name in StandardNames && IdOf(init[i]) == id;
        assert init[i] == rs[i];
      }
      if exists i :: 0 <= i < |rs| && rs[i].name in StandardNames && IdOf(rs[i]) == id {
        var i :| 0 <= i < |rs| && rs[i].name in StandardNames && IdOf(rs[i]) == id;
        if i < n {
          assert init[i] == rs[i];
        }
      }
    }
  }

  /** The last standard residue with a chain and number is the one the map keeps. */
  lemma {:induction false} ResidueMapLastWins(rs: seq<Residue>, i: int)
    requires 0 <= i < |rs| && LastOfKey(rs, i)
    ensures IdOf(rs[i]) in ResidueMap(rs) && ResidueMap(rs)[IdOf(rs[i])] == rs[i]
  {
    var n := |rs| - 1;
    if i < n {
      var init := rs[..n];
      assert init[i] == rs[i];
      assert LastOfKey(init, i) by {
        forall j | i < j < n && init[j].name in StandardNames
          ensures IdOf(init[j]) != IdOf(init[i])
        {
          assert init[j] == rs[j];
        }
      }
      ResidueMapLastWins(init, i);
    }
  }

  /** The mapped residues of a list of chains and numbers, in list order; the unmapped are skipped. */
  function SiteResidues(ids: seq<ResidueId>, m: map<ResidueId, Residue>): seq<Residue> {
    if |ids| == 0 then []
    else
      var id := ids[|ids| - 1];
      SiteResidues(ids[..|ids| - 1], m) + (if id in m then [m[id]] else [])
  }

  lemma {:induction false} SiteResiduesMembers(ids: seq<ResidueId>, m: map<ResidueId, Residue>, r: Residue)
    ensures r in SiteResidues(ids, m) <==> exists i :: 0 <= i < |ids| && ids[i] in m && m[ids[i]] == r
  {
    if |ids| > 0 {
      var n := |ids| - 1;
      var init := ids[..n];
      SiteResiduesMembers(init, m, r);
      if r in SiteResidues(init, m) {
        var i :| 0 <= i < n && init[i] in m && m[init[i]] == r;
        assert init[i] == ids[i];
      }
      if exists i :: 0 <= i < |ids| && ids[i] in m && m[ids[i]] == r {
        var i :| 0 <= i < |ids| && ids[i] in m && m[ids[i]] == r;
        if i < n {
          assert init[i] == ids[i];
        }
      }
    }
  }

  /** The atoms of a site that the grids are laid over: those of its mapped residues but H and HA. */
  function SiteAtoms(ids: seq<ResidueId>, m: map<ResidueId, Residue>): seq<Atom> {
    NonHydrogenAtoms(SiteResidues(ids, m))
  }

  /** An atom is a site atom exactly when it is no hydrogen and belongs to the mapped residue of one of the ids. */
  lemma SiteAtomsMembers(ids: seq<ResidueId>, m: map<ResidueId, Residue>, a: Atom)
    ensures a in SiteAtoms(ids, m) <==>
      !IsHydrogenName(a.name) && exists i :: 0 <= i < |ids| && ids[i] in m && a in m[ids[i]].atoms
  {
    NonHydrogenAtomsMembers(SiteResidues(ids, m));
    if a in SiteAtoms(ids, m) {
      var r :| r in SiteResidues(ids, m) && a in r.atoms;
      SiteResiduesMembers(ids, m, r);
    }
    if exists i :: 0 <= i < |ids| && ids[i] in m && a in m[ids[i]].atoms {
      var i :| 0 <= i < |ids| && ids[i] in m && a in m[ids[i]].atoms;
      SiteResiduesMembers(ids, m, m[ids[i]]);
    }
  }

  /** The two nested loops that collect a site's atoms. */
  method CollectSiteAtoms(ids: seq<ResidueId>, m: map<ResidueId, Residue>) returns (atoms: seq<Atom>)
    ensures atoms == SiteAtoms(ids, m)
  {
    atoms := [];
    for i := 0 to |ids|
      invariant atoms == SiteAtoms(ids[..i], m)
    {
      assert ids[..i + 1][..i] == ids[..i];
      if ids[i] in m {
        var r := m[ids[i]];
        var before := SiteResidues(ids[..i], m);
        assert SiteResidues(ids[..i + 1], m) == before + [r];
        assert (before + [r])[..|before|] == before;
        assert SiteAtoms(ids[..i + 1], m) == atoms + NonHydrogen(r.atoms);
        ghost var start := atoms;
        for j := 0 to |r.atoms|
          invariant atoms == start + NonHydrogen(r.atoms[..j])
        {
          assert r.atoms[..j + 1][..j] == r.atoms[..j];
          if !IsHydrogenName(r.atoms[j].name) {
            atoms := atoms + [r.atoms[j]];
          }
        }
        assert r.atoms[..|r.atoms|] == r.atoms;
      } else {
        assert SiteResidues(ids[..i + 1], m) == SiteResidues(ids[..i], m);
      }
    }
    assert ids[..|ids|] == ids;
  }

  // ---------------------------------------------------------------- the complexity score

  /** A quantity normalised by a typical value and capped at 1. */
  function Factor(x: real, typical: real): (f: real)
    requires x >= 0.0 && typical > 0.0
    ensures 0.0 <= f <= 1.0
    ensures f == 1.0 <==> x >= typical
    ensures x < typical ==> f * typical == x
  {
    QuotientFacts(x, typical);
    Min(1.0, x / typical)
  }

  lemma QuotientFacts(x: real, t: real)
    requires x >= 0.0 && t > 0.0
    ensures (x / t) * t == x
    ensures x / t >= 0.0
    ensures x / t >= 1.0 <==> x >= t
  {
    var q := x / t;
    assert q * t == x by {
      assert t != 0.0;
    }
    if q >= 1.0 {
      assert q * t >= 1.0 * t;
    } else {
      assert q * t < 1.0 * t;
    }
  }

  /** How many residues carry one of the 20 standard names. */
  function StandardCount(rs: seq<Residue>): (n: nat)
    ensures n <= |rs|
  {
    if |rs| == 0 then 0
    else StandardCount(rs[..|rs| - 1]) + (if rs[|rs| - 1].name in StandardNames then 1 else 0)
  }

  function ChainIds(rs: seq<Residue>): set<string> {
    set r | r in rs :: r.chain
  }

  /** Larger proteins are more complex: 500 standard residues count as fully complex. */
  function SizeFactor(rs: seq<Residue>): (f: real)
    ensures 0.0 <= f <= 1.0
  {
    Factor(StandardCount(rs) as real, 500.0)
  }

  /** More chains, more complex: 4 chains count as fully complex. */
  function ChainFactor(rs: seq<Residue>): (f: real)
    ensures 0.0 <= f <= 1.0
  {
    Factor(|ChainIds(rs)| as real, 4.0)
  }

  /**
   * The spread of the alpha-carbon B-factors, normalised by 30; `caStd` is
   * their standard deviation, or None when there is no alpha carbon, in
   * which case the term is not added.
   */
  function SpreadFactor(caStd: Option<real>): (f: real)
    requires caStd.Some? ==> caStd.value >= 0.0
    ensures 0.0 <= f <= 1.0
    ensures caStd.None? ==> f == 0.0
  {
    match caStd
    case None => 0.0
    case Some(std) => Factor(std, 30.0)
  }

  /** The number of points closer than 10 to `c`. */
  function CountNear(points: seq<Point>, c: Point): (n: nat)
    ensures n <= |points|
  {
    if |points| == 0 then 0
    else CountNear(points[..|points| - 1], c) + (if Within(SqDist(points[|points| - 1], c), 10.0) then 1 else 0)
  }

  /** An atom of the structure is among the atoms near itself. */
  lemma {:induction false} CountNearSelf(points: seq<Point>, i: int)
    requires 0 <= i < |points|
    ensures CountNear(points, points[i]) >= 1
  {
    var n := |points| - 1;
    if i < n {
      assert points[..n][i] == points[i];
      CountNearSelf(points[..n], i);
    } else {
      assert SqDist(points[i], points[i]) == 0.0;
    }
  }

  /** Burial of each site atom: the atoms near it, normalised by 300. */
  function Burials(site: seq<Atom>, points: seq<Point>): (b: seq<real>)
    ensures |b| == |site|
    ensures forall i :: 0 <= i < |b| ==> 0.0 <= b[i] <= 1.0
  {
    if |site| == 0 then []
    else Burials(site[..|site| - 1], points) + [Factor(CountNear(points, site[|site| - 1].coord) as real, 300.0)]
  }

  /** The mean burial of the known site's atoms, all of them, hydrogens included; 0 for a site with no atom. */
  function BurialFactor(rs: seq<Residue>, m: map<ResidueId, Residue>, known: seq<ResidueId>): (f: real)
    ensures 0.0 <= f <= 1.0
    ensures AllAtoms(SiteResidues(known, m)) == [] ==> f == 0.0
  {
    var site := AllAtoms(SiteResidues(known, m));
    if |known| > 0 && |site| > 0 then
      var b := Burials(site, Coords(AllAtoms(rs)));
      MeanBounds(b, 0.0, 1.0);
      MeanReals(b)
    else 0.0
  }

  /** Four terms of weight 0.25, capped at 1 and scaled to 10. */
  function Complexity(rs: seq<Residue>, m: map<ResidueId, Residue>, known: seq<ResidueId>, caStd: Option<real>): (c: real)
    requires caStd.Some? ==> caStd.value >= 0.0
    ensures 0.0 <= c <= 10.0
  {
    var sum := 0.25 * SizeFactor(rs) + 0.25 * ChainFactor(rs) + 0.25 * SpreadFactor(caStd) + 0.25 * BurialFactor(rs, m, known);
    Min(1.0, sum) * 10.0
  }

  /** The cap at 1 never binds: the score is 2.5 times the sum of the four factors. */
  lemma ClampNeverBinds(rs: seq<Residue>, m: map<ResidueId, Residue>, known: seq<ResidueId>, caStd: Option<real>)
    requires caStd.Some? ==> caStd.value >= 0.0
    ensures Complexity(rs, m, known, caStd) == 2.5 * (SizeFactor(rs) + ChainFactor(rs) + SpreadFactor(caStd) + BurialFactor(rs, m, known))
  {
  }

  /** The score is 10 exactly when every factor is saturated. */
  lemma ComplexityTop(rs: seq<Residue>, m: map<ResidueId, Residue>, known: seq<ResidueId>, caStd: Option<real>)
    requires caStd.Some? ==> caStd.value >= 0.0
    ensures Complexity(rs, m, known, caStd) == 10.0 <==>
      && StandardCount(rs) >= 500 && |ChainIds(rs)| >= 4
      && caStd.Some? && caStd.value >= 30.0 && BurialFactor(rs, m, known) == 1.0
  {
    ClampNeverBinds(rs, m, known, caStd);
  }

  // ---------------------------------------------------------------- the remaining spatial measures and the record

  /** The squared distance between the centres of the two sites. */
  function CentreSqDistance(known: seq<Atom>, predicted: seq<Atom>): (d: real)
    requires |known| > 0 && |predicted| > 0
    ensures d >= 0.0
    ensures known == predicted ==> d == 0.0
  {
    SqDist(Mean(Coords(known)), Mean(Coords(predicted)))
  }

  /** `get_surface_atoms` is called with its default threshold. */
  const DefaultSurfaceThreshold: real := 0.2

  /**
   * The squared depth of the predicted pocket: the squared distance from
   * its centre to the nearest surface atom, None without surface atoms.
   */
  function PocketDepthSq(s: Protein.Structure, predicted: seq<Atom>): (r: Option<real>)
    requires DsspValid(s) && |predicted| > 0
    ensures r.Some? <==> |SurfaceAtoms(s, DefaultSurfaceThreshold)| > 0
    ensures r.Some? ==> r.value >= 0.0 && forall a :: a in SurfaceAtoms(s, DefaultSurfaceThreshold) ==>
      r.value <= SqDist(a.coord, Mean(Coords(predicted)))
  {
    var surface := SurfaceAtoms(s, DefaultSurfaceThreshold);
    if |surface| > 0 then Some(NearestSq(Coords(surface), Mean(Coords(predicted)))) else None
  }

  /** An atom whose name starts with N, O or S. */
  predicate Polar(a: Atom) {
    |a.name| > 0 && a.name[0] in {'N', 'O', 'S'}
  }

  function PolarCount(atoms: seq<Atom>): (n: nat)
    ensures n <= |atoms|
    ensures n == 0 <==> forall i :: 0 <= i < |atoms| ==> !Polar(atoms[i])
  {
    if |atoms| == 0 then 0
    else PolarCount(atoms[..|atoms| - 1]) + (if Polar(atoms[|atoms| - 1]) then 1 else 0)
  }

  /** The share of polar atoms among the predicted site's atoms. */
  function Polarity(atoms: seq<Atom>): (r: real)
    ensures 0.0 <= r <= 1.0
    ensures r == 0.0 <==> forall i :: 0 <= i < |atoms| ==> !Polar(atoms[i])
  {
    if |atoms| > 0 then Ratio(PolarCount(atoms), |atoms|) else 0.0
  }

  /** The measures taken on the structure once both sites have an atom. */
  datatype Measured = Measured(
    complexity: real,
    overlap: real,
    centreSqDistance: real,
    volumeSimilarity: real,
    pocketDepthSq: Option<real>,
    polarity: real)

  /**
   * The part of `calculate_metrics` inside the test that both sites have an
   * atom besides hydrogens: None when one of them has none.
   */
  function Measure(s: Protein.Structure, known: seq<ResidueId>, predicted: seq<ResidueId>, caStd: Option<real>): (r: Option<Measured>)
    requires DsspValid(s)
    requires caStd.Some? ==> caStd.value >= 0.0
    ensures r.Some? <==>
      |SiteAtoms(known, ResidueMap(s.residues))| > 0 && |SiteAtoms(predicted, ResidueMap(s.residues))| > 0
    ensures r.Some? ==>
      && 0.0 <= r.value.complexity <= 10.0
      && 0.0 <= r.value.overlap <= 1.0
      && r.value.centreSqDistance >= 0.0
      && 0.0 < r.value.volumeSimilarity <= 1.0
      && 0.0 <= r.value.polarity <= 1.0
  {
    var m := ResidueMap(s.residues);
    var knownAtoms := SiteAtoms(known, m);
    var predictedAtoms := SiteAtoms(predicted, m);
    match SpatialOf(knownAtoms, predictedAtoms)
    case None => None
    case Some(spatial) =>
      Some(Measured(Complexity(s.residues, m, known, caStd), spatial.overlap,
                    CentreSqDistance(knownAtoms, predictedAtoms), spatial.volumeSimilarity,
                    PocketDepthSq(s, predictedAtoms), Polarity(predictedAtoms)))
  }

  /** What the evaluation reports for one protein; the spatial measures are None when they are not computed. */
  datatype Metrics = Metrics(
    complexity: Option<real>,
    quality: Quality,
    overlap: Option<real>,
    centreSqDistance: Option<real>,
    volumeSimilarity: Option<real>,
    pocketDepthSq: Option<real>,
    polarity: Option<real>,
    numPredictions: nat,
    scores: ScoreFields)

  /**
   * `calculate_metrics`: the residue measures always; the spatial ones and
   * the complexity only when the structure is there and both sites have an
   * atom besides hydrogens.
   */
  function CalculateMetrics(known: seq<ResidueId>, predicted: seq<ResidueId>, scores: ScoreFields,
                            structure: Option<Protein.Structure>, caStd: Option<real>): (r: Metrics)
    requires structure.Some? ==> DsspValid(structure.value)
    requires caStd.Some? ==> caStd.value >= 0.0
    ensures r.quality == QualityOf(known, predicted)
    ensures r.numPredictions == |predicted| && r.scores == scores
    ensures r.overlap.Some? <==>
      && structure.Some?
      && |SiteAtoms(known, ResidueMap(structure.value.residues))| > 0
      && |SiteAtoms(predicted, ResidueMap(structure.value.residues))| > 0
    ensures r.complexity.Some? == r.overlap.Some? == r.volumeSimilarity.Some? == r.centreSqDistance.Some? == r.polarity.Some?
    ensures r.overlap.Some? ==> 0.0 <= r.overlap.value <= 1.0 && 0.0 < r.volumeSimilarity.value <= 1.0
    ensures r.complexity.Some? ==> 0.0 <= r.complexity.value <= 10.0
    ensures r.polarity.Some? ==> 0.0 <= r.polarity.value <= 1.0
    ensures r.pocketDepthSq.Some? ==> r.overlap.Some?
  {
    var quality := QualityOf(known, predicted);
    var measured := if structure.Some? then Measure(structure.value, known, predicted, caStd) else None;
    match measured
    case None => Metrics(None, quality, None, None, None, None, None, |predicted|, scores)
    case Some(x) =>
      Metrics(Some(x.complexity), quality, Some(x.overlap), Some(x.centreSqDistance), Some(x.volumeSimilarity),
              x.pocketDepthSq, Some(x.polarity), |predicted|, scores)
  }
}
