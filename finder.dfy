/**
 * The pocket detectors of `ConsensusPocketFinder` (finder.py): the
 * geometric detector with its two fall-backs (a larger probe, then
 * concave surface patches) and the energy detector, which scores sampled
 * lattice points near the surface by hydrophobicity and charge and
 * groups the favourable ones.
 */
module Finder {
  import opened Geometry
  import opened Grid
  import opened Clusters
  import opened Protein
  import opened Structure
  import opened Scores
  import opened Cavities
  import opened Consensus

  // ---------------------------------------------------------------- concavity

  /** `_is_concave` casts this many random rays. */
  const NumDirections: nat := 20
  /** A ray step hits protein when it lands nearer than 2 A to an atom. */
  const HitRadius: real := 2.0

  /** How many of the rays meet protein within nine unit steps. */
  function HitCount(atoms: seq<Point>, p: Point, dirs: seq<Point>): (n: nat)
    requires |atoms| > 0
    ensures n <= |dirs|
  {
    if |dirs| == 0 then 0
    else
      HitCount(atoms, p, dirs[..|dirs| - 1])
        + (if RayHits(atoms, p, dirs[|dirs| - 1], HitRadius) then 1 else 0)
  }

  /** `hit_count >= num_directions * 0.7`. */
  predicate Concave(atoms: seq<Point>, p: Point, dirs: seq<Point>)
    requires |atoms| > 0
  {
    HitCount(atoms, p, dirs) as real >= NumDirections as real * 0.7
  }

  /** The 70% rule on twenty rays: at least fourteen of them hit. */
  lemma ConcaveMeaning(atoms: seq<Point>, p: Point, dirs: seq<Point>)
    requires |atoms| > 0
    ensures Concave(atoms, p, dirs) <==> HitCount(atoms, p, dirs) >= 14
  {
  }

  /** When every ray hits, every ray is counted. */
  lemma {:induction false} HitCountAllHit(atoms: seq<Point>, p: Point, dirs: seq<Point>)
    requires |atoms| > 0
    requires forall d :: 0 <= d < |dirs| ==> RayHits(atoms, p, dirs[d], HitRadius)
    ensures HitCount(atoms, p, dirs) == |dirs|
  {
    if |dirs| > 0 {
      var n := |dirs| - 1;
      assert forall d :: 0 <= d < n ==> dirs[..n][d] == dirs[d];
      HitCountAllHit(atoms, p, dirs[..n]);
    }
  }

  /** When no ray hits, the count is zero. */
  lemma {:induction false} HitCountNoneHit(atoms: seq<Point>, p: Point, dirs: seq<Point>)
    requires |atoms| > 0
    requires forall d :: 0 <= d < |dirs| ==> !RayHits(atoms, p, dirs[d], HitRadius)
    ensures HitCount(atoms, p, dirs) == 0
  {
    if |dirs| > 0 {
      var n := |dirs| - 1;
      assert forall d :: 0 <= d < n ==> dirs[..n][d] == dirs[d];
      HitCountNoneHit(atoms, p, dirs[..n]);
    }
  }

  /** A ray that misses keeps the count below the number of rays. */
  lemma {:induction false} HitCountMiss(atoms: seq<Point>, p: Point, dirs: seq<Point>, d: nat)
    requires |atoms| > 0 && d < |dirs|
    requires !RayHits(atoms, p, dirs[d], HitRadius)
    ensures HitCount(atoms, p, dirs) < |dirs|
  {
    var n := |dirs| - 1;
    if d < n {
      assert dirs[..n][d] == dirs[d];
      HitCountMiss(atoms, p, dirs[..n], d);
    }
  }

  /** A ray that hits makes the count positive. */
  lemma {:induction false} HitCountHit(atoms: seq<Point>, p: Point, dirs: seq<Point>, d: nat)
    requires |atoms| > 0 && d < |dirs|
    requires RayHits(atoms, p, dirs[d], HitRadius)
    ensures HitCount(atoms, p, dirs) > 0
  {
    var n := |dirs| - 1;
    if d < n {
      assert dirs[..n][d] == dirs[d];
      HitCountHit(atoms, p, dirs[..n], d);
    }
  }

  lemma HitCountStep(atoms: seq<Point>, p: Point, dirs: seq<Point>, i: nat)
    requires |atoms| > 0 && i < |dirs|
    ensures HitCount(atoms, p, dirs[..i + 1]) ==
      HitCount(atoms, p, dirs[..i]) + (if RayHits(atoms, p, dirs[i], HitRadius) then 1 else 0)
  {
    assert dirs[..i + 1][..i] == dirs[..i];
  }

  method IsConcave(atoms: seq<Point>, p: Point, dirs: seq<Point>) returns (concave: bool)
    requires |atoms| > 0
    ensures concave == Concave(atoms, p, dirs)
  {
    var hitCount := 0;
    var d := 0;
    while d < |dirs|
      invariant 0 <= d <= |dirs|
      invariant hitCount == HitCount(atoms, p, dirs[..d])
    {
      var hit := false;
      var t := 1;
      while t <= RaySteps && !hit
        invariant 1 <= t <= RaySteps + 1
        invariant hit ==> RayHits(atoms, p, dirs[d], HitRadius)
        invariant !hit ==> forall u :: 1 <= u < t ==> !HitAt(atoms, p, dirs[d], u, HitRadius)
      {
        var dist := NearestSqLoop(atoms, RayPoint(p, t, dirs[d]));
        if Within(dist, HitRadius) {
          assert HitAt(atoms, p, dirs[d], t, HitRadius);
          hit := true;
        }
        t := t + 1;
      }
      HitCountStep(atoms, p, dirs, d);
      if hit {
        hitCount := hitCount + 1;
      }
      d := d + 1;
    }
    assert dirs[..d] == dirs;
    concave := hitCount as real >= NumDirections as real * 0.7;
  }

  // ---------------------------------------------------------------- surface pockets

  /** `_find_surface_pockets` reads residues more exposed than 15%. */
  const SurfaceThreshold: real := 0.15
  /** More than this many surface atoms are needed before clustering. */
  const MinSurfaceAtoms: nat := 5
  /** DBSCAN's label for noise points. */
  const Noise: int := -1

  function ModelCoords(s: Protein.Structure): seq<Point> {
    Coords(AllAtoms(s.residues))
  }

  function SurfaceCoords(s: Protein.Structure): seq<Point>
    requires DsspValid(s)
  {
    Coords(SurfaceAtoms(s, SurfaceThreshold))
  }

  /** A DBSCAN cluster (not noise) whose mean is concave for the rays drawn for it. */
  predicate ConcaveCluster(atoms: seq<Point>, coords: seq<Point>, labels: seq<int>, rays: int -> seq<Point>, c: int)
    requires |atoms| > 0 && |coords| == |labels|
  {
    c != Noise && Count(labels, c) > 0 && Concave(atoms, CavityOf(coords, labels, c).center, rays(c))
  }

  /** The surface pockets for the listed labels, in the order listed. */
  function SurfaceCavitiesFor(atoms: seq<Point>, coords: seq<Point>, labels: seq<int>, ids: seq<int>,
                              rays: int -> seq<Point>): seq<Cavity>
    requires |atoms| > 0 && |coords| == |labels|
    requires forall i :: 0 <= i < |ids| ==> Count(labels, ids[i]) > 0
  {
    if |ids| == 0 then []
    else
      var c := ids[|ids| - 1];
      SurfaceCavitiesFor(atoms, coords, labels, ids[..|ids| - 1], rays)
        + (if ConcaveCluster(atoms, coords, labels, rays, c) then [CavityOf(coords, labels, c)] else [])
  }

  /** A pocket is listed exactly when it is the cavity of a listed concave cluster. */
  lemma {:induction false} SurfaceCavitiesForMembers(atoms: seq<Point>, coords: seq<Point>, labels: seq<int>,
                                                     ids: seq<int>, rays: int -> seq<Point>)
    requires |atoms| > 0 && |coords| == |labels|
    requires forall i :: 0 <= i < |ids| ==> Count(labels, ids[i]) > 0
    ensures forall c :: c in ids && ConcaveCluster(atoms, coords, labels, rays, c) ==>
      CavityOf(coords, labels, c) in SurfaceCavitiesFor(atoms, coords, labels, ids, rays)
    ensures forall cav :: cav in SurfaceCavitiesFor(atoms, coords, labels, ids, rays) ==>
      exists c :: c in ids && ConcaveCluster(atoms, coords, labels, rays, c) && cav == CavityOf(coords, labels, c)
  {
    if |ids| > 0 {
      var n := |ids| - 1;
      SurfaceCavitiesForMembers(atoms, coords, labels, ids[..n], rays);
      assert ids == ids[..n] + [ids[n]];
    }
  }

  /**
   * `_find_surface_pockets`: `dbscan` is DBSCAN (eps 3.5, five samples)
   * over the surface coordinates, one label per point, and `rays(c)` the
   * random unit directions drawn when cluster `c` is examined for concavity.
   * Labels are visited in ascending order.
   */
  function SurfacePockets(s: Protein.Structure, dbscan: seq<Point> -> seq<int>, rays: int -> seq<Point>): seq<Cavity>
    requires DsspValid(s)
    requires forall pts :: |dbscan(pts)| == |pts|
  {
    var coords := SurfaceCoords(s);
    if |coords| <= MinSurfaceAtoms then []
    else
      SurfaceAtomsInModel(s, SurfaceThreshold);
      SurfaceCavitiesFor(ModelCoords(s), coords, dbscan(coords), Unique(dbscan(coords)), rays)
  }

  /** `cav` is the cavity of a concave DBSCAN cluster of the surface atoms. */
  predicate FromConcaveCluster(s: Protein.Structure, dbscan: seq<Point> -> seq<int>, rays: int -> seq<Point>, cav: Cavity)
    requires DsspValid(s)
    requires forall pts :: |dbscan(pts)| == |pts|
    requires |ModelCoords(s)| > 0
  {
    exists c :: c in dbscan(SurfaceCoords(s))
      && ConcaveCluster(ModelCoords(s), SurfaceCoords(s), dbscan(SurfaceCoords(s)), rays, c)
      && cav == CavityOf(SurfaceCoords(s), dbscan(SurfaceCoords(s)), c)
  }

  /** One surface pocket: a concave cluster's cavity, centred on the mean of its surface atoms. */
  lemma SurfacePocketSound(s: Protein.Structure, dbscan: seq<Point> -> seq<int>, rays: int -> seq<Point>, cav: Cavity)
    requires DsspValid(s)
    requires forall pts :: |dbscan(pts)| == |pts|
    requires cav in SurfacePockets(s, dbscan, rays)
    ensures cav.size == |cav.points| && cav.size > 0 && cav.center == Mean(cav.points)
    ensures forall q :: q in cav.points ==> q in SurfaceCoords(s)
    ensures |ModelCoords(s)| > 0 && FromConcaveCluster(s, dbscan, rays, cav)
  {
    var coords := SurfaceCoords(s);
    SurfaceAtomsInModel(s, SurfaceThreshold);
    var labels := dbscan(coords);
    var ids := Unique(labels);
    SurfaceCavitiesForMembers(ModelCoords(s), coords, labels, ids, rays);
    var c :| c in ids && ConcaveCluster(ModelCoords(s), coords, labels, rays, c) && cav == CavityOf(coords, labels, c);
    CavityOfProperties(coords, labels, c, 1);
    CountZero(labels, c);
    assert c in labels;
  }

  /**
   * With at most five surface atoms nothing is found. Otherwise the pockets
   * are exactly the clusters (noise excluded) whose mean passes the
   * concavity test, each centred on the mean of its surface atoms.
   */
  lemma SurfacePocketsProperties(s: Protein.Structure, dbscan: seq<Point> -> seq<int>, rays: int -> seq<Point>)
    requires DsspValid(s)
    requires forall pts :: |dbscan(pts)| == |pts|
    ensures |SurfaceCoords(s)| <= MinSurfaceAtoms ==> SurfacePockets(s, dbscan, rays) == []
    ensures forall cav :: cav in SurfacePockets(s, dbscan, rays) ==>
      cav.size == |cav.points| && cav.size > 0 && cav.center == Mean(cav.points)
      && (forall q :: q in cav.points ==> q in SurfaceCoords(s))
      && |ModelCoords(s)| > 0 && FromConcaveCluster(s, dbscan, rays, cav)
    ensures |SurfaceCoords(s)| > MinSurfaceAtoms ==> |ModelCoords(s)| > 0
    ensures |SurfaceCoords(s)| > MinSurfaceAtoms ==>
      forall i :: 0 <= i < |SurfaceCoords(s)| && ConcaveCluster(ModelCoords(s), SurfaceCoords(s), dbscan(SurfaceCoords(s)), rays, dbscan(SurfaceCoords(s))[i]) ==>
        CavityOf(SurfaceCoords(s), dbscan(SurfaceCoords(s)), dbscan(SurfaceCoords(s))[i]) in SurfacePockets(s, dbscan, rays)
  {
    forall cav | cav in SurfacePockets(s, dbscan, rays)
      ensures cav.size == |cav.points| && cav.size > 0 && cav.center == Mean(cav.points)
        && (forall q :: q in cav.points ==> q in SurfaceCoords(s))
        && |ModelCoords(s)| > 0 && FromConcaveCluster(s, dbscan, rays, cav)
    {
      SurfacePocketSound(s, dbscan, rays, cav);
    }
    var coords := SurfaceCoords(s);
    if |coords| > MinSurfaceAtoms {
      SurfaceAtomsInModel(s, SurfaceThreshold);
      var labels := dbscan(coords);
      SurfaceCavitiesForMembers(ModelCoords(s), coords, labels, Unique(labels), rays);
    }
  }

  /** The loop's step: the pocket found for label `ids[i]`, if any, goes after those already found. */
  lemma SurfaceCavitiesForStep(atoms: seq<Point>, coords: seq<Point>, labels: seq<int>, ids: seq<int>,
                               rays: int -> seq<Point>, i: nat, cavities: seq<Cavity>, found: seq<Cavity>)
    requires |atoms| > 0 && |coords| == |labels| && i < |ids|
    requires forall k :: 0 <= k < |ids| ==> Count(labels, ids[k]) > 0
    requires cavities == SurfaceCavitiesFor(atoms, coords, labels, ids[..i], rays)
    requires found == if ConcaveCluster(atoms, coords, labels, rays, ids[i]) then [CavityOf(coords, labels, ids[i])] else []
    ensures cavities + found == SurfaceCavitiesFor(atoms, coords, labels, ids[..i + 1], rays)
  {
    assert ids[..i + 1][..i] == ids[..i];
  }

  /** The loop body for label `c`: its cluster's pocket when the label is not noise and its mean is concave. */
  method ConcavePocket(atoms: seq<Point>, coords: seq<Point>, labels: seq<int>, rays: int -> seq<Point>, c: int)
    returns (found: seq<Cavity>)
    requires |atoms| > 0 && |coords| == |labels| && Count(labels, c) > 0
    ensures found == if ConcaveCluster(atoms, coords, labels, rays, c) then [CavityOf(coords, labels, c)] else []
  {
    found := [];
    if c != Noise {
      var members := Members(coords, labels, c);
      var center := Mean(members);
      var concave := IsConcave(atoms, center, rays(c));
      if concave {
        found := [Cavity(center, |members|, members)];
      }
    }
  }

  method FindSurfacePockets(s: Protein.Structure, dbscan: seq<Point> -> seq<int>, rays: int -> seq<Point>)
    returns (cavities: seq<Cavity>)
    requires DsspValid(s)
    requires forall pts :: |dbscan(pts)| == |pts|
    ensures cavities == SurfacePockets(s, dbscan, rays)
  {
    var surface := GetSurfaceAtoms(s, SurfaceThreshold);
    if |surface| <= MinSurfaceAtoms {
      return [];
    }
    SurfaceAtomsInModel(s, SurfaceThreshold);
    var coords := Coords(surface);
    var labels := dbscan(coords);
    cavities := ConcavePockets(ModelCoords(s), coords, labels, Unique(labels), rays);
  }

  /** The loop over the cluster labels, in the order listed. */
  method ConcavePockets(atoms: seq<Point>, coords: seq<Point>, labels: seq<int>, ids: seq<int>, rays: int -> seq<Point>)
    returns (cavities: seq<Cavity>)
    requires |atoms| > 0 && |coords| == |labels|
    requires forall k :: 0 <= k < |ids| ==> Count(labels, ids[k]) > 0
    ensures cavities == SurfaceCavitiesFor(atoms, coords, labels, ids, rays)
  {
    cavities := [];
    var i := 0;
    while i < |ids|
      invariant 0 <= i <= |ids|
      invariant cavities == SurfaceCavitiesFor(atoms, coords, labels, ids[..i], rays)
    {
      var found := ConcavePocket(atoms, coords, labels, rays, ids[i]);
      SurfaceCavitiesForStep(atoms, coords, labels, ids, rays, i, cavities, found);
      cavities := cavities + found;
      i := i + 1;
    }
    assert ids[..i] == ids;
  }

  // ---------------------------------------------------------------- geometric detector

  /** The second attempt: a larger probe and smaller clusters. */
  const WideProbe: real := 1.8
  const WideMinSize: int := 3
  /** `get_cavities` is called with its default lattice spacing and ligand test. */
  const CavitySpacing: real := 1.0

  /**
   * `find_pockets_geometric`: cavities for the given probe and minimum
   * size; if there are none, cavities for a 1.8 A probe and clusters of
   * three; if there are still none, concave surface patches. `first` and
   * `second` are the lattice samples drawn by the two `get_cavities` calls.
   */
  function GeometricPockets(s: Protein.Structure, probe: real, minSize: int, rule: LigandRule, first: seq<nat>, second: seq<nat>,
                            single: seq<Point> -> seq<int>, dbscan: seq<Point> -> seq<int>,
                            rays: int -> seq<Point>): seq<Cavity>
    requires |AllAtoms(s.residues)| > 0 && DsspValid(s)
    requires ValidSample(first, SampleCap, Size(CavityGrid(s, CavitySpacing)))
    requires ValidSample(second, SampleCap, Size(CavityGrid(s, CavitySpacing)))
    requires forall pts :: |single(pts)| == |pts|
    requires forall pts :: |dbscan(pts)| == |pts|
  {
    var cavities := CavitiesFound(s, probe, CavitySpacing, minSize, true, rule, first, single);
    if |cavities| > 0 then cavities
    else
      var wider := CavitiesFound(s, WideProbe, CavitySpacing, WideMinSize, true, rule, second, single);
      if |wider| > 0 then wider else SurfacePockets(s, dbscan, rays)
  }

  /** A lattice point that one `get_cavities` attempt with this probe may record. */
  predicate CavityPoint(s: Protein.Structure, rule: LigandRule, probe: real, q: Point)
    requires |AllAtoms(s.residues)| > 0
  {
    Enclosed(ModelCoords(s), q, probe) && Candidate(ModelCoords(s), LigandCoords(s, true, rule), q, probe)
  }

  /** One geometric pocket: centred on the mean of its points, each from one of the three attempts. */
  lemma GeometricPocketSound(s: Protein.Structure, probe: real, minSize: int, rule: LigandRule, first: seq<nat>, second: seq<nat>,
                             single: seq<Point> -> seq<int>, dbscan: seq<Point> -> seq<int>,
                             rays: int -> seq<Point>, cav: Cavity)
    requires |AllAtoms(s.residues)| > 0 && DsspValid(s)
    requires ValidSample(first, SampleCap, Size(CavityGrid(s, CavitySpacing)))
    requires ValidSample(second, SampleCap, Size(CavityGrid(s, CavitySpacing)))
    requires forall pts :: |single(pts)| == |pts|
    requires forall pts :: |dbscan(pts)| == |pts|
    requires cav in GeometricPockets(s, probe, minSize, rule, first, second, single, dbscan, rays)
    ensures cav.size == |cav.points| && cav.size > 0 && cav.center == Mean(cav.points)
    ensures forall q :: q in cav.points ==>
      CavityPoint(s, rule, probe, q) || CavityPoint(s, rule, WideProbe, q) || q in SurfaceCoords(s)
  {
    var found := CavitiesFound(s, probe, CavitySpacing, minSize, true, rule, first, single);
    var wider := CavitiesFound(s, WideProbe, CavitySpacing, WideMinSize, true, rule, second, single);
    if |found| > 0 {
      CavitiesFoundSound(s, probe, CavitySpacing, minSize, true, rule, first, single);
      assert cav in found;
    } else if |wider| > 0 {
      CavitiesFoundSound(s, WideProbe, CavitySpacing, WideMinSize, true, rule, second, single);
      assert cav in wider;
    } else {
      SurfacePocketSound(s, dbscan, rays, cav);
    }
  }

  /**
   * Every geometric pocket is centred on the mean of its points, and each
   * point is either a boxed-in candidate point for one of the two probes
   * or a surface atom.
   */
  lemma GeometricPocketsSound(s: Protein.Structure, probe: real, minSize: int, rule: LigandRule, first: seq<nat>, second: seq<nat>,
                              single: seq<Point> -> seq<int>, dbscan: seq<Point> -> seq<int>,
                              rays: int -> seq<Point>)
    requires |AllAtoms(s.residues)| > 0 && DsspValid(s)
    requires ValidSample(first, SampleCap, Size(CavityGrid(s, CavitySpacing)))
    requires ValidSample(second, SampleCap, Size(CavityGrid(s, CavitySpacing)))
    requires forall pts :: |single(pts)| == |pts|
    requires forall pts :: |dbscan(pts)| == |pts|
    ensures forall cav :: cav in GeometricPockets(s, probe, minSize, rule, first, second, single, dbscan, rays) ==>
      cav.size == |cav.points| && cav.size > 0 && cav.center == Mean(cav.points)
      && forall q :: q in cav.points ==>
        CavityPoint(s, rule, probe, q) || CavityPoint(s, rule, WideProbe, q) || q in SurfaceCoords(s)
  {
    forall cav | cav in GeometricPockets(s, probe, minSize, rule, first, second, single, dbscan, rays)
      ensures cav.size == |cav.points| && cav.size > 0 && cav.center == Mean(cav.points)
        && forall q :: q in cav.points ==>
          CavityPoint(s, rule, probe, q) || CavityPoint(s, rule, WideProbe, q) || q in SurfaceCoords(s)
    {
      GeometricPocketSound(s, probe, minSize, rule, first, second, single, dbscan, rays, cav);
    }
  }

  /**
   * Nothing is found only when all three attempts find nothing, and a
   * later attempt is reported only when the earlier ones came back empty.
   */
  lemma GeometricPocketsProperties(s: Protein.Structure, probe: real, minSize: int, rule: LigandRule, first: seq<nat>, second: seq<nat>,
                                   single: seq<Point> -> seq<int>, dbscan: seq<Point> -> seq<int>,
                                   rays: int -> seq<Point>)
    requires |AllAtoms(s.residues)| > 0 && DsspValid(s)
    requires ValidSample(first, SampleCap, Size(CavityGrid(s, CavitySpacing)))
    requires ValidSample(second, SampleCap, Size(CavityGrid(s, CavitySpacing)))
    requires forall pts :: |single(pts)| == |pts|
    requires forall pts :: |dbscan(pts)| == |pts|
    ensures GeometricPockets(s, probe, minSize, rule, first, second, single, dbscan, rays) == [] <==>
      CavitiesFound(s, probe, CavitySpacing, minSize, true, rule, first, single) == []
      && CavitiesFound(s, WideProbe, CavitySpacing, WideMinSize, true, rule, second, single) == []
      && SurfacePockets(s, dbscan, rays) == []
    ensures CavitiesFound(s, probe, CavitySpacing, minSize, true, rule, first, single) != [] ==>
      GeometricPockets(s, probe, minSize, rule, first, second, single, dbscan, rays) ==
        CavitiesFound(s, probe, CavitySpacing, minSize, true, rule, first, single)
    ensures (CavitiesFound(s, probe, CavitySpacing, minSize, true, rule, first, single) == []
             && CavitiesFound(s, WideProbe, CavitySpacing, WideMinSize, true, rule, second, single) != []) ==>
      GeometricPockets(s, probe, minSize, rule, first, second, single, dbscan, rays) ==
        CavitiesFound(s, WideProbe, CavitySpacing, WideMinSize, true, rule, second, single)
  {
  }

  method FindPocketsGeometric(s: Protein.Structure, probe: real, minSize: int, rule: LigandRule, first: seq<nat>, second: seq<nat>,
                              single: seq<Point> -> seq<int>, dbscan: seq<Point> -> seq<int>,
                              rays: int -> seq<Point>) returns (cavities: seq<Cavity>)
    requires |AllAtoms(s.residues)| > 0 && DsspValid(s)
    requires ValidSample(first, SampleCap, Size(CavityGrid(s, CavitySpacing)))
    requires ValidSample(second, SampleCap, Size(CavityGrid(s, CavitySpacing)))
    requires forall pts :: |single(pts)| == |pts|
    requires forall pts :: |dbscan(pts)| == |pts|
    ensures cavities == GeometricPockets(s, probe, minSize, rule, first, second, single, dbscan, rays)
  {
    cavities := GetCavities(s, probe, CavitySpacing, minSize, true, rule, first, single);
    if |cavities| == 0 {
      cavities := GetCavities(s, WideProbe, CavitySpacing, WideMinSize, true, rule, second, single);
      if |cavities| == 0 {
        cavities := FindSurfacePockets(s, dbscan, rays);
      }
    }
  }

  // ---------------------------------------------------------------- energy detector

  /** `get_surface_atoms` with its default exposure threshold. */
  const DefaultSurfaceThreshold: real := 0.2
  const EnergyPadding: real := 5.0
  const EnergySampleCap: nat := 5000
  /** Lattice points nearer than 1 A or farther than 5 A from the surface are skipped. */
  const MinClearance: real := 1.0
  const MaxClearance: real := 5.0
  /** Points scoring above this are kept. */
  const ScoreCutoff: real := 3.0
  /** Smaller clusters of kept points are dropped. */
  const MinEnergyCluster: nat := 3

  /** A kept lattice point with its score and the two terms it is made of. */
  datatype EnergyPoint = EnergyPoint(center: Point, score: real, hydrophobicity: real, electrostatics: real)

  function EnergySurface(s: Protein.Structure): seq<Point>
    requires DsspValid(s)
  {
    Coords(SurfaceAtoms(s, DefaultSurfaceThreshold))
  }

  /** 5 A around the surface atoms, at twice the requested spacing. */
  function EnergyGrid(surface: seq<Point>, spacing: real): (g: Grid)
    requires |surface| > 0 && spacing > 0.0
    ensures Size(g) > 0
  {
    GridAround(surface, EnergyPadding, spacing * 2.0)
  }

  /** The nearest surface atom is neither nearer than 1 A nor farther than 5 A. */
  predicate Clearance(sq: real) {
    !Within(sq, MinClearance) && !Beyond(sq, MaxClearance)
  }

  /** The clearance test in terms of the surface atoms themselves. */
  lemma ClearanceMeaning(surface: seq<Point>, p: Point)
    requires |surface| > 0
    ensures Clearance(NearestSq(surface, p)) <==>
      (forall i :: 0 <= i < |surface| ==> SqDist(surface[i], p) >= 1.0)
      && (exists i :: 0 <= i < |surface| && SqDist(surface[i], p) <= 25.0)
  {
    var r := NearestSq(surface, p);
    var w :| 0 <= w < |surface| && r == SqDist(surface[w], p);
  }

  /** Twice the hydrophobicity plus half the magnitude of the electrostatic term. */
  function EnergyScore(h: real, e: real): real {
    h * 2.0 + Abs(e) * 0.5
  }

  /** The record a lattice point gets; `nearby(p)` are the residues within 8 A of `p`. */
  function ProbePoint(p: Point, nearby: Point -> seq<Neighbour>): EnergyPoint {
    var nb := nearby(p);
    EnergyPoint(p, EnergyScore(MeanHydrophobicity(nb), Electrostatics(nb)), MeanHydrophobicity(nb), Electrostatics(nb))
  }

  predicate Favourable(surface: seq<Point>, nearby: Point -> seq<Neighbour>, p: Point)
    requires |surface| > 0
  {
    Clearance(NearestSq(surface, p)) && ProbePoint(p, nearby).score > ScoreCutoff
  }

  /** A point with no residue within 8 A scores zero and is never kept. */
  lemma NoContactsNotFavourable(surface: seq<Point>, nearby: Point -> seq<Neighbour>, p: Point)
    requires |surface| > 0 && nearby(p) == []
    ensures ProbePoint(p, nearby).score == 0.0
    ensures !Favourable(surface, nearby, p)
  {
    HydrophobicityRange(nearby(p));
    ElectrostaticsBound(nearby(p));
  }

  /** The kept points, in sampling order. */
  function EnergyPoints(surface: seq<Point>, nearby: Point -> seq<Neighbour>, g: Grid, samples: seq<nat>): seq<EnergyPoint>
    requires |surface| > 0
    requires forall k :: 0 <= k < |samples| ==> samples[k] < Size(g)
  {
    if |samples| == 0 then []
    else
      var idx := samples[|samples| - 1];
      DecomposeInGrid(g, idx);
      var p := PointAt(g, Decompose(g, idx));
      EnergyPoints(surface, nearby, g, samples[..|samples| - 1])
        + (if Favourable(surface, nearby, p) then [ProbePoint(p, nearby)] else [])
  }

  /** `q` is one of the sampled lattice points. */
  predicate SampledPoint(g: Grid, samples: seq<nat>, q: Point) {
    exists k :: 0 <= k < |samples| && g.ny * g.nz > 0 && q == PointAt(g, Decompose(g, samples[k]))
  }

  /** Every kept point is a sampled lattice point that passes both tests, scored as described. */
  lemma {:induction false} EnergyPointsSound(surface: seq<Point>, nearby: Point -> seq<Neighbour>, g: Grid, samples: seq<nat>)
    requires |surface| > 0
    requires forall k :: 0 <= k < |samples| ==> samples[k] < Size(g)
    ensures forall e :: e in EnergyPoints(surface, nearby, g, samples) ==>
      e == ProbePoint(e.center, nearby) && Favourable(surface, nearby, e.center) && SampledPoint(g, samples, e.center)
  {
    if |samples| > 0 {
      var n := |samples| - 1;
      EnergyPointsSound(surface, nearby, g, samples[..n]);
      DecomposeInGrid(g, samples[n]);
      forall e | e in EnergyPoints(surface, nearby, g, samples)
        ensures SampledPoint(g, samples, e.center)
      {
        if e in EnergyPoints(surface, nearby, g, samples[..n]) {
          var k :| 0 <= k < n && g.ny * g.nz > 0 && e.center == PointAt(g, Decompose(g, samples[..n][k]));
          assert samples[..n][k] == samples[k];
        } else {
          assert e.center == PointAt(g, Decompose(g, samples[n]));
        }
      }
    }
  }

  /** Every sampled lattice point that passes both tests is kept. */
  lemma {:induction false} EnergyPointsComplete(surface: seq<Point>, nearby: Point -> seq<Neighbour>, g: Grid,
                                                samples: seq<nat>, k: nat)
    requires |surface| > 0
    requires forall j :: 0 <= j < |samples| ==> samples[j] < Size(g)
    requires k < |samples| && g.ny * g.nz > 0
    requires Favourable(surface, nearby, PointAt(g, Decompose(g, samples[k])))
    ensures ProbePoint(PointAt(g, Decompose(g, samples[k])), nearby) in EnergyPoints(surface, nearby, g, samples)
  {
    var n := |samples| - 1;
    if k < n {
      assert samples[..n][k] == samples[k];
      EnergyPointsComplete(surface, nearby, g, samples[..n], k);
    }
  }

  function Positions(pts: seq<EnergyPoint>): (r: seq<Point>)
    ensures |r| == |pts| && forall i :: 0 <= i < |pts| ==> r[i] == pts[i].center
  {
    seq(|pts|, i requires 0 <= i < |pts| => pts[i].center)
  }

  function PointScores(pts: seq<EnergyPoint>): (r: seq<real>)
    ensures |r| == |pts| && forall i :: 0 <= i < |pts| ==> r[i] == pts[i].score
  {
    seq(|pts|, i requires 0 <= i < |pts| => pts[i].score)
  }

  /** One cluster of kept points: their mean, the points, their number and their mean score. */
  function EnergyCluster(pts: seq<EnergyPoint>, labels: seq<int>, c: int): EnergyPocket
    requires |pts| == |labels| && Count(labels, c) > 0
  {
    var m := Members(Positions(pts), labels, c);
    EnergyPocket(Mean(m), m, |m|, MeanReals(Members(PointScores(pts), labels, c)))
  }

  /** A cluster of at least three points scoring above the cutoff has a mean score above the cutoff. */
  lemma EnergyClusterSound(pts: seq<EnergyPoint>, labels: seq<int>, c: int)
    requires |pts| == |labels| && Count(labels, c) >= MinEnergyCluster
    requires forall k :: 0 <= k < |pts| ==> pts[k].score > ScoreCutoff
    ensures EnergyCluster(pts, labels, c).size == |EnergyCluster(pts, labels, c).points| >= MinEnergyCluster
    ensures EnergyCluster(pts, labels, c).center == Mean(EnergyCluster(pts, labels, c).points)
    ensures EnergyCluster(pts, labels, c).score > ScoreCutoff
    ensures forall q :: q in EnergyCluster(pts, labels, c).points ==> q in Positions(pts)
  {
    var m := Members(PointScores(pts), labels, c);
    forall i | 0 <= i < |m|
      ensures m[i] > ScoreCutoff
    {
      assert m[i] in m;
      var k :| 0 <= k < |pts| && PointScores(pts)[k] == m[i];
    }
    MeanAbove(m, ScoreCutoff);
  }

  /** The pockets for the listed labels, skipping clusters of fewer than three points. */
  function EnergyClustersFor(pts: seq<EnergyPoint>, labels: seq<int>, ids: seq<int>): seq<EnergyPocket>
    requires |pts| == |labels|
    requires forall i :: 0 <= i < |ids| ==> Count(labels, ids[i]) > 0
  {
    if |ids| == 0 then []
    else
      var c := ids[|ids| - 1];
      EnergyClustersFor(pts, labels, ids[..|ids| - 1])
        + (if Count(labels, c) < MinEnergyCluster then [] else [EnergyCluster(pts, labels, c)])
  }

  /** A pocket is listed exactly when it is the cluster of a listed label with at least three points. */
  lemma {:induction false} EnergyClustersForMembers(pts: seq<EnergyPoint>, labels: seq<int>, ids: seq<int>)
    requires |pts| == |labels|
    requires forall i :: 0 <= i < |ids| ==> Count(labels, ids[i]) > 0
    ensures forall c :: c in ids && Count(labels, c) >= MinEnergyCluster ==>
      EnergyCluster(pts, labels, c) in EnergyClustersFor(pts, labels, ids)
    ensures forall ep :: ep in EnergyClustersFor(pts, labels, ids) ==>
      exists c :: c in ids && Count(labels, c) >= MinEnergyCluster && ep == EnergyCluster(pts, labels, c)
  {
    if |ids| > 0 {
      var n := |ids| - 1;
      EnergyClustersForMembers(pts, labels, ids[..n]);
      assert ids == ids[..n] + [ids[n]];
    }
  }

  lemma EnergyClustersForStep(pts: seq<EnergyPoint>, labels: seq<int>, ids: seq<int>, i: nat)
    requires |pts| == |labels| && i < |ids|
    requires forall k :: 0 <= k < |ids| ==> Count(labels, ids[k]) > 0
    ensures EnergyClustersFor(pts, labels, ids[..i + 1]) ==
      EnergyClustersFor(pts, labels, ids[..i])
        + (if Count(labels, ids[i]) < MinEnergyCluster then [] else [EnergyCluster(pts, labels, ids[i])])
  {
    assert ids[..i + 1][..i] == ids[..i];
  }

  /** Clustering runs only when there are at least two kept points; clusters are visited by ascending label. */
  function EnergyClusters(pts: seq<EnergyPoint>, labels: seq<int>): seq<EnergyPocket>
    requires |pts| == |labels|
  {
    if |pts| <= 1 then [] else EnergyClustersFor(pts, labels, Unique(labels))
  }

  /** The kept points of one `find_pockets_energy` call; `samples` is its random draw of lattice indices. */
  function EnergyScan(s: Protein.Structure, spacing: real, samples: seq<nat>, nearby: Point -> seq<Neighbour>): seq<EnergyPoint>
    requires DsspValid(s) && spacing > 0.0
    requires |EnergySurface(s)| > 0 ==> ValidSample(samples, EnergySampleCap, Size(EnergyGrid(EnergySurface(s), spacing)))
  {
    if |EnergySurface(s)| == 0 then []
    else EnergyPoints(EnergySurface(s), nearby, EnergyGrid(EnergySurface(s), spacing), samples)
  }

  /**
   * `find_pockets_energy`: `average` is the average-linkage flat
   * clustering at 3.5 A of the kept points, one label per point.
   */
  function EnergyPockets(s: Protein.Structure, spacing: real, samples: seq<nat>, nearby: Point -> seq<Neighbour>,
                         average: seq<Point> -> seq<int>): seq<EnergyPocket>
    requires DsspValid(s) && spacing > 0.0
    requires |EnergySurface(s)| > 0 ==> ValidSample(samples, EnergySampleCap, Size(EnergyGrid(EnergySurface(s), spacing)))
    requires forall pts :: |average(pts)| == |pts|
  {
    var pts := EnergyScan(s, spacing, samples, nearby);
    EnergyClusters(pts, average(Positions(pts)))
  }

  /** One pocket of a clustering of points that all score above the cutoff. */
  lemma EnergyClustersSound(pts: seq<EnergyPoint>, labels: seq<int>, ep: EnergyPocket)
    requires |pts| == |labels|
    requires forall k :: 0 <= k < |pts| ==> pts[k].score > ScoreCutoff
    requires ep in EnergyClusters(pts, labels)
    ensures ep.size == |ep.points| && ep.size >= MinEnergyCluster && ep.center == Mean(ep.points)
    ensures ep.score > ScoreCutoff
    ensures forall q :: q in ep.points ==> q in Positions(pts)
  {
    EnergyClustersForMembers(pts, labels, Unique(labels));
    var c :| c in Unique(labels) && Count(labels, c) >= MinEnergyCluster && ep == EnergyCluster(pts, labels, c);
    EnergyClusterSound(pts, labels, c);
  }

  /** The position of a kept point of the scan is a favourable sampled lattice point. */
  lemma ScanPositionSound(s: Protein.Structure, spacing: real, samples: seq<nat>, nearby: Point -> seq<Neighbour>, q: Point)
    requires DsspValid(s) && spacing > 0.0
    requires |EnergySurface(s)| > 0 ==> ValidSample(samples, EnergySampleCap, Size(EnergyGrid(EnergySurface(s), spacing)))
    requires q in Positions(EnergyScan(s, spacing, samples, nearby))
    ensures |EnergySurface(s)| > 0
    ensures Favourable(EnergySurface(s), nearby, q) && SampledPoint(EnergyGrid(EnergySurface(s), spacing), samples, q)
  {
    var pts := EnergyScan(s, spacing, samples, nearby);
    var k :| 0 <= k < |pts| && Positions(pts)[k] == q;
    EnergyPointsSound(EnergySurface(s), nearby, EnergyGrid(EnergySurface(s), spacing), samples);
    assert pts[k] in pts;
  }

  /** Every kept point of the scan scores above the cutoff. */
  lemma ScanScores(s: Protein.Structure, spacing: real, samples: seq<nat>, nearby: Point -> seq<Neighbour>)
    requires DsspValid(s) && spacing > 0.0
    requires |EnergySurface(s)| > 0 ==> ValidSample(samples, EnergySampleCap, Size(EnergyGrid(EnergySurface(s), spacing)))
    ensures forall k :: 0 <= k < |EnergyScan(s, spacing, samples, nearby)| ==>
      EnergyScan(s, spacing, samples, nearby)[k].score > ScoreCutoff
  {
    if |EnergySurface(s)| > 0 {
      var pts := EnergyScan(s, spacing, samples, nearby);
      EnergyPointsSound(EnergySurface(s), nearby, EnergyGrid(EnergySurface(s), spacing), samples);
      assert forall k :: 0 <= k < |pts| ==> pts[k] in pts;
    }
  }

  /**
   * One energy pocket: at least three kept points, centred on their mean,
   * with a mean score above the cutoff; each point is a sampled lattice
   * point between 1 and 5 A from the surface that scores above the cutoff.
   */
  lemma EnergyPocketSound(s: Protein.Structure, spacing: real, samples: seq<nat>, nearby: Point -> seq<Neighbour>,
                          average: seq<Point> -> seq<int>, ep: EnergyPocket)
    requires DsspValid(s) && spacing > 0.0
    requires |EnergySurface(s)| > 0 ==> ValidSample(samples, EnergySampleCap, Size(EnergyGrid(EnergySurface(s), spacing)))
    requires forall pts :: |average(pts)| == |pts|
    requires ep in EnergyPockets(s, spacing, samples, nearby, average)
    ensures ep.size == |ep.points| && ep.size >= MinEnergyCluster && ep.center == Mean(ep.points)
    ensures ep.score > ScoreCutoff
    ensures |EnergySurface(s)| > 0
    ensures forall q :: q in ep.points ==>
      Favourable(EnergySurface(s), nearby, q) && SampledPoint(EnergyGrid(EnergySurface(s), spacing), samples, q)
  {
    var pts := EnergyScan(s, spacing, samples, nearby);
    ScanScores(s, spacing, samples, nearby);
    EnergyClustersSound(pts, average(Positions(pts)), ep);
    ScanPositionsSound(s, spacing, samples, nearby, ep.points);
  }

  /** Every position among `qs` taken from the scan is a favourable sampled lattice point. */
  lemma ScanPositionsSound(s: Protein.Structure, spacing: real, samples: seq<nat>, nearby: Point -> seq<Neighbour>, qs: seq<Point>)
    requires DsspValid(s) && spacing > 0.0
    requires |EnergySurface(s)| > 0 ==> ValidSample(samples, EnergySampleCap, Size(EnergyGrid(EnergySurface(s), spacing)))
    requires |qs| > 0 && forall q :: q in qs ==> q in Positions(EnergyScan(s, spacing, samples, nearby))
    ensures |EnergySurface(s)| > 0
    ensures forall q :: q in qs ==>
      Favourable(EnergySurface(s), nearby, q) && SampledPoint(EnergyGrid(EnergySurface(s), spacing), samples, q)
  {
    assert qs[0] in qs;
    ScanPositionSound(s, spacing, samples, nearby, qs[0]);
    forall q | q in qs
      ensures Favourable(EnergySurface(s), nearby, q) && SampledPoint(EnergyGrid(EnergySurface(s), spacing), samples, q)
    {
      ScanPositionSound(s, spacing, samples, nearby, q);
    }
  }

  /** The cluster labels of the kept points. */
  function ScanLabels(s: Protein.Structure, spacing: real, samples: seq<nat>, nearby: Point -> seq<Neighbour>,
                      average: seq<Point> -> seq<int>): (labels: seq<int>)
    requires DsspValid(s) && spacing > 0.0
    requires |EnergySurface(s)| > 0 ==> ValidSample(samples, EnergySampleCap, Size(EnergyGrid(EnergySurface(s), spacing)))
    requires forall pts :: |average(pts)| == |pts|
    ensures |labels| == |EnergyScan(s, spacing, samples, nearby)|
  {
    average(Positions(EnergyScan(s, spacing, samples, nearby)))
  }

  /**
   * Nothing is found without surface atoms or with fewer than two kept
   * points; otherwise every kept point whose cluster has at least three
   * members lies in a reported pocket.
   */
  lemma EnergyPocketsProperties(s: Protein.Structure, spacing: real, samples: seq<nat>, nearby: Point -> seq<Neighbour>,
                                average: seq<Point> -> seq<int>)
    requires DsspValid(s) && spacing > 0.0
    requires |EnergySurface(s)| > 0 ==> ValidSample(samples, EnergySampleCap, Size(EnergyGrid(EnergySurface(s), spacing)))
    requires forall pts :: |average(pts)| == |pts|
    ensures |EnergySurface(s)| == 0 ==> EnergyPockets(s, spacing, samples, nearby, average) == []
    ensures |EnergyScan(s, spacing, samples, nearby)| <= 1 ==> EnergyPockets(s, spacing, samples, nearby, average) == []
    ensures forall ep :: ep in EnergyPockets(s, spacing, samples, nearby, average) ==>
      ep.size == |ep.points| && ep.size >= MinEnergyCluster && ep.center == Mean(ep.points) && ep.score > ScoreCutoff
    ensures |EnergyScan(s, spacing, samples, nearby)| > 1 ==>
      forall c :: (c in ScanLabels(s, spacing, samples, nearby, average)
                   && Count(ScanLabels(s, spacing, samples, nearby, average), c) >= MinEnergyCluster) ==>
        EnergyCluster(EnergyScan(s, spacing, samples, nearby), ScanLabels(s, spacing, samples, nearby, average), c)
          in EnergyPockets(s, spacing, samples, nearby, average)
  {
    forall ep | ep in EnergyPockets(s, spacing, samples, nearby, average)
      ensures ep.size == |ep.points| && ep.size >= MinEnergyCluster && ep.center == Mean(ep.points) && ep.score > ScoreCutoff
    {
      EnergyPocketSound(s, spacing, samples, nearby, average, ep);
    }
    var pts := EnergyScan(s, spacing, samples, nearby);
    var labels := average(Positions(pts));
    EnergyClustersForMembers(pts, labels, Unique(labels));
  }

  /** The sampling loop of `find_pockets_energy`. */
  method ScanEnergyPoints(surface: seq<Point>, nearby: Point -> seq<Neighbour>, g: Grid, samples: seq<nat>)
    returns (pts: seq<EnergyPoint>)
    requires |surface| > 0
    requires forall k :: 0 <= k < |samples| ==> samples[k] < Size(g)
    ensures pts == EnergyPoints(surface, nearby, g, samples)
  {
    pts := [];
    var i := 0;
    while i < |samples|
      invariant 0 <= i <= |samples|
      invariant pts == EnergyPoints(surface, nearby, g, samples[..i])
    {
      DecomposeInGrid(g, samples[i]);
      // the lattice-bounds guard never fires for an index below the lattice size
      var point := PointAt(g, Decompose(g, samples[i]));
      var found := ProbeLatticePoint(surface, nearby, point);
      EnergyPointsStep(surface, nearby, g, samples, i, point, pts, found);
      pts := pts + found;
      i := i + 1;
    }
    assert samples[..i] == samples;
  }

  /** The loop body for one lattice point: its record when it is clear of the surface and scores high enough. */
  method ProbeLatticePoint(surface: seq<Point>, nearby: Point -> seq<Neighbour>, point: Point)
    returns (found: seq<EnergyPoint>)
    requires |surface| > 0
    ensures found == if Favourable(surface, nearby, point) then [ProbePoint(point, nearby)] else []
  {
    found := [];
    var minDist := NearestSqLoop(surface, point);
    if !(Within(minDist, MinClearance) || Beyond(minDist, MaxClearance)) {
      var nb := nearby(point);
      var h := CalculateHydrophobicity(nb);
      var e := CalculateElectrostatics(nb);
      var score := h * 2.0 + Abs(e) * 0.5;
      if score > ScoreCutoff {
        found := [EnergyPoint(point, score, h, e)];
      }
    }
  }

  /** The sampling loop's step: the record kept for sample `i`, if any, goes after those already kept. */
  lemma EnergyPointsStep(surface: seq<Point>, nearby: Point -> seq<Neighbour>, g: Grid, samples: seq<nat>, i: nat,
                         point: Point, pts: seq<EnergyPoint>, found: seq<EnergyPoint>)
    requires |surface| > 0 && i < |samples|
    requires forall k :: 0 <= k < |samples| ==> samples[k] < Size(g)
    requires g.ny * g.nz > 0 && point == PointAt(g, Decompose(g, samples[i]))
    requires pts == EnergyPoints(surface, nearby, g, samples[..i])
    requires found == if Favourable(surface, nearby, point) then [ProbePoint(point, nearby)] else []
    ensures pts + found == EnergyPoints(surface, nearby, g, samples[..i + 1])
  {
    assert samples[..i + 1][..i] == samples[..i];
  }

  /** The clustering step of `find_pockets_energy`. */
  method ClusterEnergyPoints(pts: seq<EnergyPoint>, labels: seq<int>) returns (pockets: seq<EnergyPocket>)
    requires |pts| == |labels|
    ensures pockets == EnergyClusters(pts, labels)
  {
    if |pts| <= 1 {
      return [];
    }
    var centers := Positions(pts);
    var ids := Unique(labels);
    pockets := [];
    var k := 0;
    while k < |ids|
      invariant 0 <= k <= |ids|
      invariant pockets == EnergyClustersFor(pts, labels, ids[..k])
    {
      EnergyClustersForStep(pts, labels, ids, k);
      var c := ids[k];
      if Count(labels, c) >= MinEnergyCluster {
        var members := Members(centers, labels, c);
        var score := MeanReals(Members(PointScores(pts), labels, c));
        pockets := pockets + [EnergyPocket(Mean(members), members, |members|, score)];
      }
      k := k + 1;
    }
    assert ids[..k] == ids;
  }

  method FindPocketsEnergy(s: Protein.Structure, spacing: real, samples: seq<nat>, nearby: Point -> seq<Neighbour>,
                           average: seq<Point> -> seq<int>) returns (pockets: seq<EnergyPocket>)
    requires DsspValid(s) && spacing > 0.0
    requires |EnergySurface(s)| > 0 ==> ValidSample(samples, EnergySampleCap, Size(EnergyGrid(EnergySurface(s), spacing)))
    requires forall pts :: |average(pts)| == |pts|
    ensures pockets == EnergyPockets(s, spacing, samples, nearby, average)
  {
    var surface := GetSurfaceAtoms(s, DefaultSurfaceThreshold);
    if |surface| == 0 {
      return [];
    }
    var coords := Coords(surface);
    var pts := ScanEnergyPoints(coords, nearby, EnergyGrid(coords, spacing), samples);
    pockets := ClusterEnergyPoints(pts, average(Positions(pts)));
  }
}
