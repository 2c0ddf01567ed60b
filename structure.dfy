/**
 * The per-structure queries of `ProteinStructure` (structure.py): surface
 * atoms, residues around a pocket, and the hydrophobicity and
 * electrostatic scores around a point.  The 8 A residue search is a
 * parameter (`nearby`: the residues it returns, with their closest-atom
 * distance).
 */
module Structure {
  import opened Wrappers
  import opened Geometry
  import opened Protein

  // ---------------------------------------------------------------- hydrophobicity

  /** Sum of the scale values of the tabulated residues. */
  function HydroSum(nb: seq<Neighbour>): real {
    if |nb| == 0 then 0.0
    else HydroSum(nb[..|nb| - 1]) + (match KyteDoolittle(nb[|nb| - 1].name) case Some(h) => h case None => 0.0)
  }

  /** Number of residues the scale lists. */
  function HydroCount(nb: seq<Neighbour>): (n: nat)
    ensures n <= |nb|
  {
    if |nb| == 0 then 0
    else HydroCount(nb[..|nb| - 1]) + (if KyteDoolittle(nb[|nb| - 1].name).Some? then 1 else 0)
  }

  /** `calculate_hydrophobicity`: the mean scale value, 0 when nothing is found around the point. */
  function MeanHydrophobicity(nb: seq<Neighbour>): real {
    if |nb| == 0 then 0.0
    else HydroSum(nb) / (if HydroCount(nb) < 1 then 1 else HydroCount(nb)) as real
  }

  lemma {:induction false} HydroSumBounds(nb: seq<Neighbour>)
    ensures -4.5 * HydroCount(nb) as real <= HydroSum(nb) <= 4.5 * HydroCount(nb) as real
    ensures HydroCount(nb) == 0 ==> HydroSum(nb) == 0.0
  {
    if |nb| > 0 {
      HydroSumBounds(nb[..|nb| - 1]);
    }
  }

  lemma QuotientBounds(sum: real, c: real, b: real)
    requires c > 0.0 && -b * c <= sum <= b * c
    ensures -b <= sum / c <= b
  {
    var q := sum / c;
    assert q * c == sum;
    assert (q - b) * c <= 0.0;
    assert (q + b) * c >= 0.0;
  }

  /** The score lies on the scale, and is 0 when no residue around the point is tabulated. */
  lemma HydrophobicityRange(nb: seq<Neighbour>)
    ensures -4.5 <= MeanHydrophobicity(nb) <= 4.5
    ensures HydroCount(nb) == 0 ==> MeanHydrophobicity(nb) == 0.0
  {
    HydroSumBounds(nb);
    if |nb| > 0 && HydroCount(nb) > 0 {
      QuotientBounds(HydroSum(nb), HydroCount(nb) as real, 4.5);
    }
  }

  lemma {:induction false} UniformSum(nb: seq<Neighbour>, v: real)
    requires forall i :: 0 <= i < |nb| ==> KyteDoolittle(nb[i].name) == Some(v)
    ensures HydroCount(nb) == |nb| && HydroSum(nb) == v * |nb| as real
  {
    if |nb| > 0 {
      var n := |nb| - 1;
      var init := nb[..n];
      assert forall i :: 0 <= i < n ==> init[i] == nb[i];
      UniformSum(init, v);
      var h := KyteDoolittle(nb[n].name);
      assert h == Some(v);
      assert HydroSum(nb) == HydroSum(init) + v;
      ProductStep(v, n);
    }
  }

  lemma ProductStep(v: real, n: nat)
    ensures v * n as real + v == v * (n + 1) as real
  {
  }

  /** A point surrounded only by residues of one kind scores that residue's value. */
  lemma HydrophobicityUniform(nb: seq<Neighbour>, v: real)
    requires |nb| > 0
    requires forall i :: 0 <= i < |nb| ==> KyteDoolittle(nb[i].name) == Some(v)
    ensures MeanHydrophobicity(nb) == v
  {
    UniformSum(nb, v);
    QuotientOfProduct(v, |nb| as real);
  }

  lemma QuotientOfProduct(v: real, c: real)
    requires c > 0.0
    ensures (v * c) / c == v
  {
  }

  method CalculateHydrophobicity(nb: seq<Neighbour>) returns (h: real)
    ensures h == MeanHydrophobicity(nb)
  {
    if |nb| == 0 {
      return 0.0;
    }
    var total := 0.0;
    var count := 0;
    var i := 0;
    while i < |nb|
      invariant 0 <= i <= |nb|
      invariant total == HydroSum(nb[..i]) && count == HydroCount(nb[..i])
    {
      assert nb[..i + 1][..i] == nb[..i];
      match KyteDoolittle(nb[i].name) {
        case Some(v) =>
          total := total + v;
          count := count + 1;
        case None =>
      }
      i := i + 1;
    }
    assert nb[..i] == nb;
    h := total / (if count < 1 then 1 else count) as real;
  }

  // ---------------------------------------------------------------- electrostatics

  /** The distance weight `1 / max(1, d)`. */
  function Weight(d: NonNeg): (w: real)
    ensures 0.0 < w <= 1.0
    ensures d <= 1.0 ==> w == 1.0
  {
    1.0 / (if d < 1.0 then 1.0 else d)
  }

  /** `calculate_electrostatics`: the distance-weighted sum of the tabulated charges. */
  function Electrostatics(nb: seq<Neighbour>): real {
    if |nb| == 0 then 0.0
    else
      var n := nb[|nb| - 1];
      Electrostatics(nb[..|nb| - 1]) + (match Charge(n.name) case Some(q) => q * Weight(n.dist) case None => 0.0)
  }

  function ChargedCount(nb: seq<Neighbour>): (n: nat)
    ensures n <= |nb|
  {
    if |nb| == 0 then 0
    else ChargedCount(nb[..|nb| - 1]) + (if Charge(nb[|nb| - 1].name).Some? then 1 else 0)
  }

  lemma WeightedChargeBound(q: real, w: real)
    requires -1.0 <= q <= 1.0 && 0.0 < w <= 1.0
    ensures -1.0 <= q * w <= 1.0
  {
    if q >= 0.0 {
      assert q * w <= q * 1.0;
    } else {
      assert q * w >= q * 1.0;
    }
  }

  /** Every charged residue moves the score by at most one unit; uncharged ones not at all. */
  lemma {:induction false} ElectrostaticsBound(nb: seq<Neighbour>)
    ensures -(ChargedCount(nb) as real) <= Electrostatics(nb) <= ChargedCount(nb) as real
  {
    if |nb| > 0 {
      ElectrostaticsBound(nb[..|nb| - 1]);
      var n := nb[|nb| - 1];
      match Charge(n.name) {
        case Some(q) => WeightedChargeBound(q, Weight(n.dist));
        case None =>
      }
    }
  }

  /** A charged residue touching the point (closest atom within 1 A) contributes its full charge. */
  lemma ElectrostaticsContact(nb: seq<Neighbour>, n: Neighbour, q: real)
    requires Charge(n.name) == Some(q) && n.dist <= 1.0
    ensures Electrostatics(nb + [n]) == Electrostatics(nb) + q
  {
    assert (nb + [n])[..|nb|] == nb;
  }

  method CalculateElectrostatics(nb: seq<Neighbour>) returns (e: real)
    ensures e == Electrostatics(nb)
  {
    e := 0.0;
    var i := 0;
    while i < |nb|
      invariant 0 <= i <= |nb|
      invariant e == Electrostatics(nb[..i])
    {
      assert nb[..i + 1][..i] == nb[..i];
      match Charge(nb[i].name) {
        case Some(q) => e := e + q * Weight(nb[i].dist);
        case None =>
      }
      i := i + 1;
    }
    assert nb[..i] == nb;
  }

  // ---------------------------------------------------------------- pocket residues

  function KeyOf(n: Neighbour): ResidueKey {
    ResidueKey(n.chain, n.num, n.name)
  }

  /** The set `get_pocket_residues` builds: standard residues only. */
  function StandardKeys(nb: seq<Neighbour>): set<ResidueKey> {
    set n | n in nb && n.name in StandardNames :: KeyOf(n)
  }

  predicate StrictlySorted(s: seq<ResidueKey>) {
    forall i, j :: 0 <= i < j < |s| ==> KeyLess(s[i], s[j])
  }

  /** Adds `k` to a sorted key list unless it is already there. */
  function InsertKey(s: seq<ResidueKey>, k: ResidueKey): seq<ResidueKey> {
    if |s| == 0 then [k]
    else if s[0] == k then s
    else if KeyLess(k, s[0]) then [k] + s
    else [s[0]] + InsertKey(s[1..], k)
  }

  lemma {:induction false} InsertKeySorted(s: seq<ResidueKey>, k: ResidueKey)
    requires StrictlySorted(s)
    ensures StrictlySorted(InsertKey(s, k))
    ensures forall x :: x in InsertKey(s, k) <==> x in s || x == k
  {
    if |s| == 0 {
    } else if s[0] == k {
    } else if KeyLess(k, s[0]) {
      var r := [k] + s;
      forall i, j | 0 <= i < j < |r|
        ensures KeyLess(r[i], r[j])
      {
        if i == 0 && j > 1 {
          KeyLessTransitive(k, s[0], s[j - 1]);
        }
      }
    } else {
      KeyLessTotal(k, s[0]);
      InsertKeySorted(s[1..], k);
      var rest := InsertKey(s[1..], k);
      var r := [s[0]] + rest;
      forall i, j | 0 <= i < j < |r|
        ensures KeyLess(r[i], r[j])
      {
        if i == 0 {
          assert r[j] in rest;
          if r[j] != k {
            var m :| 0 <= m < |s[1..]| && s[1..][m] == r[j];
            assert s[m + 1] == r[j];
          }
        }
      }
    }
  }

  /** Two strictly sorted key lists with the same elements are the same list: `sorted(set)` is determined. */
  lemma SortedHead(s: seq<ResidueKey>, x: ResidueKey)
    requires StrictlySorted(s) && x in s && x != s[0]
    ensures KeyLess(s[0], x)
  {
  }

  /** Two strictly sorted key lists with the same elements are the same list: `sorted(set)` is determined. */
  lemma {:induction false} SortedKeysUnique(a: seq<ResidueKey>, b: seq<ResidueKey>)
    requires StrictlySorted(a) && StrictlySorted(b)
    requires forall x :: x in a <==> x in b
    ensures a == b
  {
    if |a| > 0 {
      assert a[0] in b;
    }
    if |b| > 0 {
      assert b[0] in a;
    }
    if |a| > 0 && |b| > 0 {
      assert a == [a[0]] + a[1..];
      assert b == [b[0]] + b[1..];
      if a[0] != b[0] {
        SortedHead(a, b[0]);
        SortedHead(b, a[0]);
        KeyLessTransitive(a[0], b[0], a[0]);
        KeyLessIrreflexive(a[0]);
      }
      forall x
        ensures x in a[1..] <==> x in b[1..]
      {
        KeyLessIrreflexive(a[0]);
        if x in a[1..] {
          var m :| 0 <= m < |a[1..]| && a[1..][m] == x;
          assert KeyLess(a[0], a[m + 1]);
          assert x in b;
        }
        if x in b[1..] {
          var m :| 0 <= m < |b[1..]| && b[1..][m] == x;
          assert KeyLess(b[0], b[m + 1]);
          assert x in a;
        }
      }
      SortedKeysUnique(a[1..], b[1..]);
    }
  }

  /** The sorted residue list, built one neighbour at a time. */
  function PocketResidues(nb: seq<Neighbour>): seq<ResidueKey> {
    if |nb| == 0 then []
    else
      var init := PocketResidues(nb[..|nb| - 1]);
      var n := nb[|nb| - 1];
      if n.name in StandardNames then InsertKey(init, KeyOf(n)) else init
  }

  /**
   * `get_pocket_residues` returns the standard residues around the pocket
   * centre, each `(chain, number, name)` once, in ascending tuple order.
   */
  lemma {:induction false} PocketResiduesSorted(nb: seq<Neighbour>)
    ensures StrictlySorted(PocketResidues(nb))
    ensures forall k :: k in PocketResidues(nb) <==> k in StandardKeys(nb)
  {
    if |nb| > 0 {
      var init := nb[..|nb| - 1];
      PocketResiduesSorted(init);
      assert nb == init + [nb[|nb| - 1]];
      if nb[|nb| - 1].name in StandardNames {
        InsertKeySorted(PocketResidues(init), KeyOf(nb[|nb| - 1]));
      }
    }
  }

  /** Only the twenty standard amino acids are listed. */
  lemma PocketResiduesStandard(nb: seq<Neighbour>)
    ensures forall k :: k in PocketResidues(nb) ==> k.name in StandardNames
  {
    PocketResiduesSorted(nb);
  }

  method GetPocketResidues(nb: seq<Neighbour>) returns (keys: seq<ResidueKey>)
    ensures keys == PocketResidues(nb)
    ensures StrictlySorted(keys)
    ensures forall k :: k in keys <==> k in StandardKeys(nb)
  {
    keys := [];
    var i := 0;
    while i < |nb|
      invariant 0 <= i <= |nb|
      invariant keys == PocketResidues(nb[..i])
    {
      assert nb[..i + 1][..i] == nb[..i];
      if nb[i].name in StandardNames {
        keys := InsertKey(keys, KeyOf(nb[i]));
      }
      i := i + 1;
    }
    assert nb[..i] == nb;
    PocketResiduesSorted(nb);
  }

  // ---------------------------------------------------------------- surface atoms

  /** `len(kdtree.query_ball_point(p, 8.0))`: atoms at most 8 A from `p`, `p`'s own atom included. */
  function NeighbourCount(coords: seq<Point>, p: Point): (n: nat)
    ensures n <= |coords|
  {
    if |coords| == 0 then 0
    else NeighbourCount(coords[..|coords| - 1], p) + (if SqDist(coords[|coords| - 1], p) <= 64.0 then 1 else 0)
  }

  /** Fallback classification: fewer than 15 atoms (itself included) within 8 A. */
  predicate SparselyPacked(coords: seq<Point>, a: Atom) {
    NeighbourCount(coords, a.coord) < 15
  }

  function SparseAtoms(coords: seq<Point>, atoms: seq<Atom>): seq<Atom> {
    if |atoms| == 0 then []
    else
      var last := atoms[|atoms| - 1];
      SparseAtoms(coords, atoms[..|atoms| - 1]) + (if SparselyPacked(coords, last) then [last] else [])
  }

  /** Accessibility records that name residues of the model (the service only reports those). */
  predicate DsspValid(s: Structure) {
    s.dssp.Some? ==> forall e :: e in s.dssp.value ==> e.residue < |s.residues|
  }

  function ExposedResidues(residues: seq<Residue>, entries: seq<DsspEntry>, threshold: real): seq<Residue>
    requires forall e :: e in entries ==> e.residue < |residues|
  {
    if |entries| == 0 then []
    else
      var e := entries[|entries| - 1];
      ExposedResidues(residues, entries[..|entries| - 1], threshold)
        + (if e.relAsa > threshold then [residues[e.residue]] else [])
  }

  predicate IsHydrogenName(name: string) {
    name == "H" || name == "HA"
  }

  function NonHydrogen(atoms: seq<Atom>): seq<Atom> {
    if |atoms| == 0 then []
    else
      var last := atoms[|atoms| - 1];
      NonHydrogen(atoms[..|atoms| - 1]) + (if IsHydrogenName(last.name) then [] else [last])
  }

  function NonHydrogenAtoms(residues: seq<Residue>): seq<Atom> {
    if |residues| == 0 then []
    else NonHydrogenAtoms(residues[..|residues| - 1]) + NonHydrogen(residues[|residues| - 1].atoms)
  }

  /**
   * `get_surface_atoms`: with accessibility data, the atoms (except those
   * named H or HA) of residues exposed above the threshold; without it,
   * the sparsely packed atoms.
   */
  function SurfaceAtoms(s: Structure, threshold: real): seq<Atom>
    requires DsspValid(s)
  {
    match s.dssp
    case None =>
      var atoms := AllAtoms(s.residues);
      SparseAtoms(Coords(atoms), atoms)
    case Some(entries) =>
      NonHydrogenAtoms(ExposedResidues(s.residues, entries, threshold))
  }

  lemma {:induction false} SparseAtomsMembers(coords: seq<Point>, atoms: seq<Atom>)
    ensures forall a :: a in SparseAtoms(coords, atoms) <==> a in atoms && SparselyPacked(coords, a)
  {
    if |atoms| > 0 {
      SparseAtomsMembers(coords, atoms[..|atoms| - 1]);
      assert atoms == atoms[..|atoms| - 1] + [atoms[|atoms| - 1]];
    }
  }

  lemma {:induction false} NonHydrogenMembers(atoms: seq<Atom>)
    ensures forall a :: a in NonHydrogen(atoms) <==> a in atoms && !IsHydrogenName(a.name)
  {
    if |atoms| > 0 {
      NonHydrogenMembers(atoms[..|atoms| - 1]);
      assert atoms == atoms[..|atoms| - 1] + [atoms[|atoms| - 1]];
    }
  }

  lemma {:induction false} NonHydrogenAtomsMembers(residues: seq<Residue>)
    ensures forall a :: a in NonHydrogenAtoms(residues) <==>
      !IsHydrogenName(a.name) && exists r :: r in residues && a in r.atoms
  {
    if |residues| > 0 {
      var init := residues[..|residues| - 1];
      var last := residues[|residues| - 1];
      NonHydrogenAtomsMembers(init);
      NonHydrogenMembers(last.atoms);
      assert residues == init + [last];
      forall a: Atom | !IsHydrogenName(a.name) && exists r :: r in residues && a in r.atoms
        ensures a in NonHydrogenAtoms(residues)
      {
        var r :| r in residues && a in r.atoms;
        if r != last {
          assert r in init;
        }
      }
    }
  }

  lemma {:induction false} ExposedResiduesMembers(residues: seq<Residue>, entries: seq<DsspEntry>, threshold: real)
    requires forall e :: e in entries ==> e.residue < |residues|
    ensures forall r :: r in ExposedResidues(residues, entries, threshold) <==>
      exists e :: e in entries && e.relAsa > threshold && r == residues[e.residue]
  {
    if |entries| > 0 {
      var init := entries[..|entries| - 1];
      var last := entries[|entries| - 1];
      assert entries == init + [last];
      ExposedResiduesMembers(residues, init, threshold);
      forall r | exists e :: e in entries && e.relAsa > threshold && r == residues[e.residue]
        ensures r in ExposedResidues(residues, entries, threshold)
      {
        var e :| e in entries && e.relAsa > threshold && r == residues[e.residue];
        if e != last {
          assert e in init;
        }
      }
    }
  }

  /** Without accessibility data an atom is reported exactly when fewer than 15 atoms lie within 8 A of it. */
  lemma SurfaceFallbackMembers(s: Structure, threshold: real)
    requires s.dssp.None?
    ensures forall a :: a in SurfaceAtoms(s, threshold) <==>
      a in AllAtoms(s.residues) && NeighbourCount(Coords(AllAtoms(s.residues)), a.coord) < 15
  {
    var atoms := AllAtoms(s.residues);
    SparseAtomsMembers(Coords(atoms), atoms);
  }

  /**
   * With accessibility data an atom is reported exactly when it is not named
   * H or HA and belongs to a residue whose relative exposure exceeds the threshold.
   */
  lemma SurfaceDsspMembers(s: Structure, threshold: real)
    requires DsspValid(s) && s.dssp.Some?
    ensures forall a :: a in SurfaceAtoms(s, threshold) <==>
      !IsHydrogenName(a.name) &&
      exists e :: e in s.dssp.value && e.relAsa > threshold && a in s.residues[e.residue].atoms
  {
    var exposed := ExposedResidues(s.residues, s.dssp.value, threshold);
    ExposedResiduesMembers(s.residues, s.dssp.value, threshold);
    NonHydrogenAtomsMembers(exposed);
    forall a: Atom | !IsHydrogenName(a.name) &&
      exists e :: e in s.dssp.value && e.relAsa > threshold && a in s.residues[e.residue].atoms
      ensures a in SurfaceAtoms(s, threshold)
    {
      var e :| e in s.dssp.value && e.relAsa > threshold && a in s.residues[e.residue].atoms;
      assert s.residues[e.residue] in exposed;
    }
  }

  lemma {:induction false} AllAtomsContain(residues: seq<Residue>, i: nat, a: Atom)
    requires i < |residues| && a in residues[i].atoms
    ensures a in AllAtoms(residues)
  {
    if i < |residues| - 1 {
      AllAtomsContain(residues[..|residues| - 1], i, a);
    }
  }

  /** Every surface atom is an atom of the model. */
  lemma SurfaceAtomsInModel(s: Structure, threshold: real)
    requires DsspValid(s)
    ensures forall a :: a in SurfaceAtoms(s, threshold) ==> a in AllAtoms(s.residues)
    ensures |SurfaceAtoms(s, threshold)| > 0 ==> |AllAtoms(s.residues)| > 0
  {
    if s.dssp.Some? {
      SurfaceDsspMembers(s, threshold);
      forall a | a in SurfaceAtoms(s, threshold)
        ensures a in AllAtoms(s.residues)
      {
        var e :| e in s.dssp.value && e.relAsa > threshold && a in s.residues[e.residue].atoms;
        AllAtomsContain(s.residues, e.residue, a);
      }
    } else {
      SurfaceFallbackMembers(s, threshold);
    }
    if |SurfaceAtoms(s, threshold)| > 0 {
      assert SurfaceAtoms(s, threshold)[0] in AllAtoms(s.residues);
    }
  }

  /** Lowering the exposure threshold never loses a surface atom. */
  lemma SurfaceThresholdMonotone(s: Structure, lo: real, hi: real)
    requires DsspValid(s) && lo <= hi
    ensures forall a :: a in SurfaceAtoms(s, hi) ==> a in SurfaceAtoms(s, lo)
  {
    if s.dssp.Some? {
      SurfaceDsspMembers(s, lo);
      SurfaceDsspMembers(s, hi);
    }
  }

  method GetSurfaceAtoms(s: Structure, threshold: real) returns (surface: seq<Atom>)
    requires DsspValid(s)
    ensures surface == SurfaceAtoms(s, threshold)
  {
    surface := [];
    match s.dssp {
      case None =>
        var atoms := AllAtoms(s.residues);
        var coords := Coords(atoms);
        var i := 0;
        while i < |atoms|
          invariant 0 <= i <= |atoms|
          invariant surface == SparseAtoms(coords, atoms[..i])
        {
          assert atoms[..i + 1][..i] == atoms[..i];
          if NeighbourCount(coords, atoms[i].coord) < 15 {
            surface := surface + [atoms[i]];
          }
          i := i + 1;
        }
        assert atoms[..i] == atoms;
      case Some(entries) =>
        var exposed := [];
        var i := 0;
        while i < |entries|
          invariant 0 <= i <= |entries|
          invariant exposed == ExposedResidues(s.residues, entries[..i], threshold)
        {
          assert entries[..i + 1][..i] == entries[..i];
          assert entries[i] in entries;
          if entries[i].relAsa > threshold {
            exposed := exposed + [s.residues[entries[i].residue]];
          }
          i := i + 1;
        }
        assert entries[..i] == entries;
        var r := 0;
        while r < |exposed|
          invariant 0 <= r <= |exposed|
          invariant surface == NonHydrogenAtoms(exposed[..r])
        {
          assert exposed[..r + 1][..r] == exposed[..r];
          var atoms := exposed[r].atoms;
          var kept := [];
          var j := 0;
          while j < |atoms|
            invariant 0 <= j <= |atoms|
            invariant kept == NonHydrogen(atoms[..j])
          {
            assert atoms[..j + 1][..j] == atoms[..j];
            if !IsHydrogenName(atoms[j].name) {
              kept := kept + [atoms[j]];
            }
            j := j + 1;
          }
          assert atoms[..j] == atoms;
          surface := surface + kept;
          r := r + 1;
        }
        assert exposed[..r] == exposed;
    }
  }
}
