/**
 * `get_cavities` (structure.py): sampled lattice points that sit in a
 * pocket-sized gap between atoms, or next to a bound ligand, and that are
 * boxed in by protein along all six axis rays; these points are then
 * grouped by single-linkage clustering (labels given) into cavities.
 */
module Cavities {
  import opened Geometry
  import opened Grid
  import opened Clusters
  import opened Protein

  /** A cavity: the mean of its points, how many there are, and the points. */
  datatype Cavity = Cavity(center: Point, size: nat, points: seq<Point>)

  const Padding: real := 10.0
  const SampleCap: nat := 10000
  /** Upper end (exclusive) of the "pocket-sized gap" window, in A. */
  const GapLimit: real := 4.0
  const HeteroReach: real := 4.0
  /** Ray steps t = 1, ..., 9 (`np.arange(1.0, 10.0, 1.0)`). */
  const RaySteps: int := 9

  const Axes: seq<Point> := [
    Point(1.0, 0.0, 0.0), Point(-1.0, 0.0, 0.0),
    Point(0.0, 1.0, 0.0), Point(0.0, -1.0, 0.0),
    Point(0.0, 0.0, 1.0), Point(0.0, 0.0, -1.0)
  ]

  // ---------------------------------------------------------------- ligand atoms

  /** The selection as written: an atom counts when its NAME does not start with 'H'. */
  predicate HeteroByNameAsWritten(a: Atom) {
    !(|a.name| > 0 && a.name[0] == 'H')
  }

  function SelectAsWritten(atoms: seq<Atom>): (r: seq<Atom>)
    ensures forall a :: a in r <==> a in atoms && HeteroByNameAsWritten(a)
  {
    if |atoms| == 0 then []
    else
      var last := atoms[|atoms| - 1];
      assert atoms == atoms[..|atoms| - 1] + [last];
      SelectAsWritten(atoms[..|atoms| - 1]) + (if HeteroByNameAsWritten(last) then [last] else [])
  }

  /** The intended selection: atoms read from HETATM records. */
  function HeteroAtoms(atoms: seq<Atom>): (r: seq<Atom>)
    ensures forall a :: a in r <==> a in atoms && a.hetero
  {
    if |atoms| == 0 then []
    else
      var last := atoms[|atoms| - 1];
      assert atoms == atoms[..|atoms| - 1] + [last];
      HeteroAtoms(atoms[..|atoms| - 1]) + (if last.hetero then [last] else [])
  }

  /**
   * The written selection takes the alpha carbon of an ordinary amino acid
   * for a ligand atom: a protein without any ligand still gets "ligand"
   * coordinates, and every lattice point within 4 A of such an atom passes
   * the candidate test.
   */
  lemma HeteroSelectionDiffers(p: Point)
    ensures SelectAsWritten([Atom("CA", p, false)]) == [Atom("CA", p, false)]
    ensures HeteroAtoms([Atom("CA", p, false)]) == []
  {
    var a := Atom("CA", p, false);
    assert [a][..0] == [];
  }

  /**
   * Which atoms `get_cavities` takes for ligand atoms: the name-based test
   * as written, or the hetero flag it evidently means.
   */
  datatype LigandRule = NameAsWritten | HeteroFlag

  function Ligands(atoms: seq<Atom>, rule: LigandRule): (r: seq<Atom>)
    ensures forall a :: a in r <==>
      a in atoms && (if rule == NameAsWritten then HeteroByNameAsWritten(a) else a.hetero)
  {
    match rule
    case NameAsWritten => SelectAsWritten(atoms)
    case HeteroFlag => HeteroAtoms(atoms)
  }

  // ---------------------------------------------------------------- point tests

  function RayPoint(p: Point, t: int, dir: Point): Point {
    Along(p, t as real, dir)
  }

  /** The ray step `t` lands nearer than `probe` to some atom. */
  predicate HitAt(atoms: seq<Point>, p: Point, dir: Point, t: int, probe: real)
    requires |atoms| > 0
  {
    Within(NearestSq(atoms, RayPoint(p, t, dir)), probe)
  }

  predicate RayHits(atoms: seq<Point>, p: Point, dir: Point, probe: real)
    requires |atoms| > 0
  {
    exists t :: 1 <= t <= RaySteps && HitAt(atoms, p, dir, t, probe)
  }

  /** Protein is met, within nine unit steps, along each of the six axis rays. */
  predicate Enclosed(atoms: seq<Point>, p: Point, probe: real)
    requires |atoms| > 0
  {
    forall d :: 0 <= d < |Axes| ==> RayHits(atoms, p, Axes[d], probe)
  }

  /** Nearest atom strictly farther than the probe radius and strictly nearer than 4 A. */
  predicate InGap(atoms: seq<Point>, p: Point, probe: real)
    requires |atoms| > 0
  {
    Beyond(NearestSq(atoms, p), probe) && Within(NearestSq(atoms, p), GapLimit)
  }

  predicate NearHetero(hetero: seq<Point>, p: Point) {
    |hetero| > 0 && Within(NearestSq(hetero, p), HeteroReach)
  }

  predicate Candidate(atoms: seq<Point>, hetero: seq<Point>, p: Point, probe: real)
    requires |atoms| > 0
  {
    InGap(atoms, p, probe) || NearHetero(hetero, p)
  }

  /**
   * What one lattice point adds to the cavity points: once through the
   * candidate test, and once more through the repeated gap test.
   */
  function Contribution(atoms: seq<Point>, hetero: seq<Point>, p: Point, probe: real): seq<Point>
    requires |atoms| > 0
  {
    var enclosed := Enclosed(atoms, p, probe);
    (if Candidate(atoms, hetero, p, probe) && enclosed then [p] else [])
      + (if InGap(atoms, p, probe) && enclosed then [p] else [])
  }

  /** The gap test in terms of distances to the atoms themselves. */
  lemma InGapMeaning(atoms: seq<Point>, p: Point, probe: real)
    requires |atoms| > 0 && probe >= 0.0
    ensures InGap(atoms, p, probe) <==>
      AnyWithin(atoms, p, GapLimit) && forall i :: 0 <= i < |atoms| ==> Beyond(SqDist(atoms[i], p), probe)
  {
    NearestWithin(atoms, p, GapLimit);
    var r := NearestSq(atoms, p);
    if Beyond(r, probe) {
      forall i | 0 <= i < |atoms|
        ensures Beyond(SqDist(atoms[i], p), probe)
      {
        assert r <= SqDist(atoms[i], p);
      }
    }
  }

  /** A point in a gap and boxed in is recorded twice; one that only touches a ligand, once. */
  lemma ContributionCounts(atoms: seq<Point>, hetero: seq<Point>, p: Point, probe: real)
    requires |atoms| > 0
    ensures |Contribution(atoms, hetero, p, probe)| ==
      if !Enclosed(atoms, p, probe) then 0
      else if InGap(atoms, p, probe) then 2
      else if NearHetero(hetero, p) then 1
      else 0
    ensures forall q :: q in Contribution(atoms, hetero, p, probe) ==> q == p
  {
  }

  method IsEnclosed(atoms: seq<Point>, p: Point, probe: real) returns (enclosed: bool)
    requires |atoms| > 0
    ensures enclosed == Enclosed(atoms, p, probe)
  {
    enclosed := true;
    var d := 0;
    while d < |Axes| && enclosed
      invariant 0 <= d <= |Axes|
      invariant enclosed == forall e :: 0 <= e < d ==> RayHits(atoms, p, Axes[e], probe)
    {
      var hit := false;
      var t := 1;
      while t <= RaySteps && !hit
        invariant 1 <= t <= RaySteps + 1
        invariant hit ==> RayHits(atoms, p, Axes[d], probe)
        invariant !hit ==> forall u :: 1 <= u < t ==> !HitAt(atoms, p, Axes[d], u, probe)
      {
        var dist := NearestSqLoop(atoms, RayPoint(p, t, Axes[d]));
        if Within(dist, probe) {
          assert HitAt(atoms, p, Axes[d], t, probe);
          hit := true;
        }
        t := t + 1;
      }
      if !hit {
        enclosed := false;
      }
      d := d + 1;
    }
    if !enclosed {
      var e :| 0 <= e < d && !RayHits(atoms, p, Axes[e], probe);
    }
  }

  // ---------------------------------------------------------------- scan

  /** The cavity points gathered from the sampled lattice indices, in sampling order. */
  function CavityPoints(atoms: seq<Point>, hetero: seq<Point>, probe: real, g: Grid, samples: seq<nat>): seq<Point>
    requires |atoms| > 0
    requires forall s :: 0 <= s < |samples| ==> samples[s] < Size(g)
  {
    if |samples| == 0 then []
    else
      var idx := samples[|samples| - 1];
      DecomposeInGrid(g, idx);
      CavityPoints(atoms, hetero, probe, g, samples[..|samples| - 1])
        + Contribution(atoms, hetero, PointAt(g, Decompose(g, idx)), probe)
  }

  /** Every cavity point is a sampled lattice point that is boxed in and passes the candidate test. */
  lemma {:induction false} CavityPointsSound(atoms: seq<Point>, hetero: seq<Point>, probe: real, g: Grid, samples: seq<nat>)
    requires |atoms| > 0
    requires forall s :: 0 <= s < |samples| ==> samples[s] < Size(g)
    ensures forall q :: q in CavityPoints(atoms, hetero, probe, g, samples) ==>
      Enclosed(atoms, q, probe) && Candidate(atoms, hetero, q, probe) &&
      exists s :: 0 <= s < |samples| && g.ny * g.nz > 0 && q == PointAt(g, Decompose(g, samples[s]))
  {
    if |samples| > 0 {
      var n := |samples| - 1;
      CavityPointsSound(atoms, hetero, probe, g, samples[..n]);
      DecomposeInGrid(g, samples[n]);
      var p := PointAt(g, Decompose(g, samples[n]));
      ContributionCounts(atoms, hetero, p, probe);
      forall q | q in CavityPoints(atoms, hetero, probe, g, samples)
        ensures exists s :: 0 <= s < |samples| && g.ny * g.nz > 0 && q == PointAt(g, Decompose(g, samples[s]))
      {
        if q in CavityPoints(atoms, hetero, probe, g, samples[..n]) {
          var s :| 0 <= s < n && g.ny * g.nz > 0 && q == PointAt(g, Decompose(g, samples[..n][s]));
          assert samples[..n][s] == samples[s];
        } else {
          assert q == p;
        }
      }
    }
  }

  /** A sampled point that lies in a gap and is boxed in is recorded (twice, by the repeated test). */
  lemma {:induction false} CavityPointsComplete(atoms: seq<Point>, hetero: seq<Point>, probe: real, g: Grid, samples: seq<nat>, s: nat)
    requires |atoms| > 0
    requires forall k :: 0 <= k < |samples| ==> samples[k] < Size(g)
    requires s < |samples|
    requires g.ny * g.nz > 0
    requires Enclosed(atoms, PointAt(g, Decompose(g, samples[s])), probe)
    requires Candidate(atoms, hetero, PointAt(g, Decompose(g, samples[s])), probe)
    ensures PointAt(g, Decompose(g, samples[s])) in CavityPoints(atoms, hetero, probe, g, samples)
  {
    var n := |samples| - 1;
    if s < n {
      CavityPointsComplete(atoms, hetero, probe, g, samples[..n], s);
    } else {
      var p := PointAt(g, Decompose(g, samples[s]));
      assert p in Contribution(atoms, hetero, p, probe);
    }
  }

  method CollectCavityPoints(atoms: seq<Point>, hetero: seq<Point>, probe: real, g: Grid, samples: seq<nat>)
    returns (points: seq<Point>)
    requires |atoms| > 0
    requires forall s :: 0 <= s < |samples| ==> samples[s] < Size(g)
    ensures points == CavityPoints(atoms, hetero, probe, g, samples)
  {
    points := [];
    var s := 0;
    while s < |samples|
      invariant 0 <= s <= |samples|
      invariant points == CavityPoints(atoms, hetero, probe, g, samples[..s])
    {
      assert samples[..s + 1][..s] == samples[..s];
      var idx := samples[s];
      DecomposeInGrid(g, idx);
      // the lattice-bounds guard never fires for an index below the lattice size
      var c := Decompose(g, idx);
      var point := PointAt(g, c);
      var dist := NearestSqLoop(atoms, point);
      var inGap := Beyond(dist, probe) && Within(dist, GapLimit);
      var candidate := inGap;
      if |hetero| > 0 && !candidate {
        var heteroDist := NearestSqLoop(hetero, point);
        if Within(heteroDist, HeteroReach) {
          candidate := true;
        }
      }
      if candidate {
        var enclosed := IsEnclosed(atoms, point, probe);
        if enclosed {
          points := points + [point];
        }
      }
      if inGap {
        var enclosed := IsEnclosed(atoms, point, probe);
        if enclosed {
          points := points + [point];
        }
      }
      s := s + 1;
    }
    assert samples[..s] == samples;
  }

  // ---------------------------------------------------------------- clusters

  function CavityOf(points: seq<Point>, labels: seq<int>, c: int): Cavity
    requires |points| == |labels| && Count(labels, c) > 0
  {
    var m := Members(points, labels, c);
    Cavity(Mean(m), |m|, m)
  }

  lemma CavityOfProperties(points: seq<Point>, labels: seq<int>, c: int, minSize: int)
    requires |points| == |labels| && Count(labels, c) > 0 && Count(labels, c) >= minSize
    ensures var cav := CavityOf(points, labels, c);
      cav.size == |cav.points| && cav.size >= minSize && cav.size > 0 && cav.center == Mean(cav.points)
      && forall q :: q in cav.points ==> q in points
  {
  }

  /** One cavity per listed cluster label, in the order listed. */
  function CavitiesFor(points: seq<Point>, labels: seq<int>, ids: seq<int>): (r: seq<Cavity>)
    requires |points| == |labels|
    requires forall i :: 0 <= i < |ids| ==> Count(labels, ids[i]) > 0
    ensures |r| == |ids|
    ensures forall i :: 0 <= i < |ids| ==> r[i] == CavityOf(points, labels, ids[i])
  {
    if |ids| == 0 then []
    else CavitiesFor(points, labels, ids[..|ids| - 1]) + [CavityOf(points, labels, ids[|ids| - 1])]
  }

  /**
   * One cavity per cluster (ascending label) with at least `minSize`
   * points; nothing unless there are at least two points to cluster.
   */
  function ClusterCavities(points: seq<Point>, labels: seq<int>, minSize: int): seq<Cavity>
    requires |points| == |labels|
  {
    if |points| <= 1 then [] else CavitiesFor(points, labels, LargeClusters(labels, minSize))
  }

  /**
   * Every cavity is a large enough cluster centred on its mean; every point
   * whose cluster is large enough belongs to some cavity.
   */
  lemma ClusterCavitiesProperties(points: seq<Point>, labels: seq<int>, minSize: int)
    requires |points| == |labels|
    ensures forall c :: c in ClusterCavities(points, labels, minSize) ==>
      c.size == |c.points| && c.size >= minSize && c.size > 0 && c.center == Mean(c.points)
      && forall q :: q in c.points ==> q in points
    ensures |points| > 1 ==> forall i :: 0 <= i < |points| && Count(labels, labels[i]) >= minSize ==>
      exists c :: c in ClusterCavities(points, labels, minSize) && points[i] in c.points
    ensures |points| <= 1 ==> ClusterCavities(points, labels, minSize) == []
  {
    if |points| > 1 {
      var ids := LargeClusters(labels, minSize);
      var r := ClusterCavities(points, labels, minSize);
      forall c | c in r
        ensures c.size == |c.points| && c.size >= minSize && c.size > 0 && c.center == Mean(c.points)
          && forall q :: q in c.points ==> q in points
      {
        var k :| 0 <= k < |r| && r[k] == c;
        CavityOfProperties(points, labels, ids[k], minSize);
      }
      forall i | 0 <= i < |points| && Count(labels, labels[i]) >= minSize
        ensures exists c :: c in r && points[i] in c.points
      {
        var k :| 0 <= k < |ids| && ids[k] == labels[i];
        MembersContain(points, labels, i);
        assert r[k] == CavityOf(points, labels, labels[i]);
      }
    }
  }

  lemma CavitiesForStep(points: seq<Point>, labels: seq<int>, ids: seq<int>, i: nat)
    requires |points| == |labels| && i < |ids|
    requires forall k :: 0 <= k < |ids| ==> Count(labels, ids[k]) > 0
    ensures CavitiesFor(points, labels, ids[..i + 1]) == CavitiesFor(points, labels, ids[..i]) + [CavityOf(points, labels, ids[i])]
  {
    assert ids[..i + 1][..i] == ids[..i];
  }

  method ClusterCavitiesLoop(points: seq<Point>, labels: seq<int>, minSize: int) returns (cavities: seq<Cavity>)
    requires |points| == |labels|
    ensures cavities == ClusterCavities(points, labels, minSize)
  {
    if |points| <= 1 {
      return [];
    }
    var ids := LargeClusters(labels, minSize);
    cavities := [];
    var i := 0;
    while i < |ids|
      invariant 0 <= i <= |ids|
      invariant cavities == CavitiesFor(points, labels, ids[..i])
    {
      CavitiesForStep(points, labels, ids, i);
      cavities := cavities + [CavityOf(points, labels, ids[i])];
      i := i + 1;
    }
    assert ids[..i] == ids;
  }

  // ---------------------------------------------------------------- get_cavities

  /** The lattice `get_cavities` samples: 10 A around the atoms, at the given spacing. */
  function CavityGrid(s: Structure, spacing: real): (g: Grid)
    requires |AllAtoms(s.residues)| > 0 && spacing > 0.0
    ensures Size(g) > 0
  {
    GridAround(Coords(AllAtoms(s.residues)), Padding, spacing)
  }

  /** The ligand coordinates consulted by the candidate test (none when that test is switched off). */
  function LigandCoords(s: Structure, detectFilled: bool, rule: LigandRule): seq<Point> {
    if detectFilled then Coords(Ligands(AllAtoms(s.residues), rule)) else []
  }

  /**
   * With the selection as written, every lattice point closer than 4 A to
   * an atom whose name does not start with 'H' passes the candidate test,
   * whether or not the structure holds any ligand.
   */
  lemma CandidateAsWritten(s: Structure, p: Point, probe: real, k: nat)
    requires k < |AllAtoms(s.residues)|
    requires HeteroByNameAsWritten(AllAtoms(s.residues)[k])
    requires Within(SqDist(AllAtoms(s.residues)[k].coord, p), HeteroReach)
    ensures Candidate(Coords(AllAtoms(s.residues)), LigandCoords(s, true, NameAsWritten), p, probe)
  {
    var a := AllAtoms(s.residues)[k];
    var lig := Ligands(AllAtoms(s.residues), NameAsWritten);
    assert a in lig;
    var j :| 0 <= j < |lig| && lig[j] == a;
    var hs := LigandCoords(s, true, NameAsWritten);
    assert hs[j] == a.coord;
    NearestWithin(hs, p, HeteroReach);
  }

  lemma {:induction false} NoHeteroSelected(atoms: seq<Atom>)
    requires forall a :: a in atoms ==> !a.hetero
    ensures HeteroAtoms(atoms) == []
  {
    if |atoms| > 0 {
      var init := atoms[..|atoms| - 1];
      assert forall a :: a in init ==> a in atoms;
      NoHeteroSelected(init);
      assert atoms[|atoms| - 1] in atoms;
    }
  }

  /** With the hetero flag, a structure without HETATM records passes only the gap test. */
  lemma CandidateByFlag(s: Structure, p: Point, probe: real)
    requires |AllAtoms(s.residues)| > 0
    requires forall a :: a in AllAtoms(s.residues) ==> !a.hetero
    ensures Candidate(Coords(AllAtoms(s.residues)), LigandCoords(s, true, HeteroFlag), p, probe)
            <==> InGap(Coords(AllAtoms(s.residues)), p, probe)
  {
    NoHeteroSelected(AllAtoms(s.residues));
  }

  /** The cavity points of one `get_cavities` call: the sampled lattice points the scan records. */
  function CavityScan(s: Structure, probe: real, spacing: real, detectFilled: bool, rule: LigandRule,
                      samples: seq<nat>): seq<Point>
    requires |AllAtoms(s.residues)| > 0 && spacing > 0.0
    requires ValidSample(samples, SampleCap, Size(CavityGrid(s, spacing)))
  {
    CavityPoints(Coords(AllAtoms(s.residues)), LigandCoords(s, detectFilled, rule), probe, CavityGrid(s, spacing), samples)
  }

  /**
   * What `get_cavities` returns: `samples` is the random draw of lattice
   * indices and `single` the single-linkage flat clustering at 3 A (one
   * label per point).
   */
  function CavitiesFound(s: Structure, probe: real, spacing: real, minSize: int, detectFilled: bool, rule: LigandRule,
                         samples: seq<nat>, single: seq<Point> -> seq<int>): seq<Cavity>
    requires |AllAtoms(s.residues)| > 0 && spacing > 0.0
    requires ValidSample(samples, SampleCap, Size(CavityGrid(s, spacing)))
    requires forall pts :: |single(pts)| == |pts|
  {
    var pts := CavityScan(s, probe, spacing, detectFilled, rule, samples);
    ClusterCavities(pts, single(pts), minSize)
  }

  /**
   * Every cavity `get_cavities` reports is a cluster of at least
   * `minSize` sampled lattice points, centred on their mean, each of them
   * boxed in on all six axes and passing the candidate test.
   */
  lemma CavitiesFoundSound(s: Structure, probe: real, spacing: real, minSize: int, detectFilled: bool, rule: LigandRule,
                           samples: seq<nat>, single: seq<Point> -> seq<int>)
    requires |AllAtoms(s.residues)| > 0 && spacing > 0.0
    requires ValidSample(samples, SampleCap, Size(CavityGrid(s, spacing)))
    requires forall pts :: |single(pts)| == |pts|
    ensures forall c :: c in CavitiesFound(s, probe, spacing, minSize, detectFilled, rule, samples, single) ==>
      c.size == |c.points| && c.size >= minSize && c.size > 0 && c.center == Mean(c.points)
      && forall q :: q in c.points ==>
        Enclosed(Coords(AllAtoms(s.residues)), q, probe)
        && Candidate(Coords(AllAtoms(s.residues)), LigandCoords(s, detectFilled, rule), q, probe)
  {
    var pts := CavityScan(s, probe, spacing, detectFilled, rule, samples);
    ClusterCavitiesProperties(pts, single(pts), minSize);
    CavityPointsSound(Coords(AllAtoms(s.residues)), LigandCoords(s, detectFilled, rule), probe, CavityGrid(s, spacing), samples);
  }

  method GetCavities(s: Structure, probe: real, spacing: real, minSize: int, detectFilled: bool, rule: LigandRule,
                     samples: seq<nat>, single: seq<Point> -> seq<int>)
    returns (cavities: seq<Cavity>)
    requires |AllAtoms(s.residues)| > 0 && spacing > 0.0
    requires ValidSample(samples, SampleCap, Size(CavityGrid(s, spacing)))
    requires forall pts :: |single(pts)| == |pts|
    ensures cavities == CavitiesFound(s, probe, spacing, minSize, detectFilled, rule, samples, single)
  {
    var atoms := Coords(AllAtoms(s.residues));
    var hetero := LigandCoords(s, detectFilled, rule);
    var g := CavityGrid(s, spacing);
    var points := CollectCavityPoints(atoms, hetero, probe, g, samples);
    cavities := ClusterCavitiesLoop(points, single(points), minSize);
  }
}
