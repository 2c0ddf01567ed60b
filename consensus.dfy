/**
 * `combine_pockets` (finder.py): geometric and energy pockets become
 * uniform records, every pair of pockets closer than the threshold raises
 * both consensus scores by 2 and shares its detection methods, the
 * records are ranked by final score and a greedy pass keeps a pocket only
 * when no better-ranked kept pocket lies within the threshold.
 */
module Consensus {
  import opened Wrappers
  import opened Geometry
  import opened Protein
  import opened Structure
  import opened Scores
  import opened Sorting
  import opened Cavities

  datatype Method = Geometric | Energy

  /** A pocket of `find_pockets_energy`: centre, member points, their number and the mean energy score. */
  datatype EnergyPocket = EnergyPocket(center: Point, points: seq<Point>, size: nat, score: real)

  /**
   * The merged pocket record.  `druggability` and `knowledge` are present
   * for geometric pockets only; `finalScore` is 0 until the ranking step
   * assigns it.
   */
  datatype Pocket = Pocket(
    center: Point, size: nat, detector: Method, methods: seq<Method>,
    druggability: Option<real>, knowledge: Option<real>,
    score: real, consensus: real, finalScore: real, points: seq<Point>)

  /** Centres strictly closer than the threshold. */
  predicate Close(a: Point, b: Point, threshold: real) {
    Within(SqDist(a, b), threshold)
  }

  lemma CloseSymmetric(a: Point, b: Point, threshold: real)
    ensures Close(a, b, threshold) <==> Close(b, a, threshold)
  {
    SqDistSymmetric(a, b);
  }

  predicate NoDup<T(==)>(s: seq<T>) {
    forall i, j :: 0 <= i < j < |s| ==> s[i] != s[j]
  }

  predicate Includes<T(==)>(big: seq<T>, small: seq<T>) {
    forall x :: x in small ==> x in big
  }

  // ---------------------------------------------------------------- records

  function Names(keys: seq<ResidueKey>): (r: seq<string>)
    ensures |r| == |keys|
  {
    seq(|keys|, i requires 0 <= i < |keys| => keys[i].name)
  }

  /** The record for a geometric pocket; `nearby` is the 8 A residue search. */
  function GeometricRecord(c: Cavity, nearby: Point -> seq<Neighbour>): (p: Pocket)
    ensures WellScored(p) && p.detector == Geometric
  {
    var names := Names(PocketResidues(nearby(c.center)));
    var drug := Druggability(c.size, names);
    var know := KnowledgeScore(names);
    DruggabilityRange(c.size, names);
    KnowledgeRange(names);
    Pocket(c.center, c.size, Geometric, [Geometric], Some(drug), Some(know),
           c.size as real * 0.2 + drug * 1.0 + know * 1.2, 1.0, 0.0, c.points)
  }

  function EnergyRecord(e: EnergyPocket): (p: Pocket)
    ensures WellScored(p) && p.detector == Energy
  {
    Pocket(e.center, e.size, Energy, [Energy], None, None, e.score, 1.0, 0.0, e.points)
  }

  /** The score a record carries into ranking, as the detection method defines it. */
  predicate WellScored(p: Pocket) {
    match p.detector
    case Geometric =>
      p.druggability.Some? && p.knowledge.Some?
      && 0.0 <= p.druggability.value <= 1.0 && 0.0 <= p.knowledge.value <= 9.0
      && p.score == p.size as real * 0.2 + p.druggability.value + 1.2 * p.knowledge.value
    case Energy => p.druggability.None? && p.knowledge.None?
  }

  /** All geometric records, then all energy records, each with consensus 1 and its own method only. */
  function InitialPockets(geo: seq<Cavity>, energy: seq<EnergyPocket>, nearby: Point -> seq<Neighbour>): (r: seq<Pocket>)
    ensures |r| == |geo| + |energy|
    ensures forall k :: 0 <= k < |r| ==> r[k].consensus == 1.0 && r[k].methods == [r[k].detector] && WellScored(r[k])
    ensures forall k :: 0 <= k < |geo| ==> r[k].detector == Geometric && r[k].center == geo[k].center && r[k].size == geo[k].size
    ensures forall k :: 0 <= k < |energy| ==>
      r[|geo| + k] == EnergyRecord(energy[k]) && r[|geo| + k].score == energy[k].score
  {
    var gs := seq(|geo|, i requires 0 <= i < |geo| => GeometricRecord(geo[i], nearby));
    var es := seq(|energy|, i requires 0 <= i < |energy| => EnergyRecord(energy[i]));
    gs + es
  }

  function Centers(ps: seq<Pocket>): (cs: seq<Point>)
    ensures |cs| == |ps|
    ensures forall k :: 0 <= k < |ps| ==> cs[k] == ps[k].center
  {
    seq(|ps|, i requires 0 <= i < |ps| => ps[i].center)
  }

  // ---------------------------------------------------------------- method lists

  /** `[m for m in b if m not in a]`. */
  function Missing(a: seq<Method>, b: seq<Method>): (r: seq<Method>)
    ensures forall x :: x in r <==> x in b && x !in a
    ensures NoDup(b) ==> NoDup(r)
  {
    if |b| == 0 then []
    else
      var init := Missing(a, b[..|b| - 1]);
      var last := b[|b| - 1];
      assert b == b[..|b| - 1] + [last];
      init + (if last in a then [] else [last])
  }

  /** `a.extend([m for m in b if m not in a])`. */
  function Merge(a: seq<Method>, b: seq<Method>): (r: seq<Method>)
    ensures |a| <= |r| && r[..|a|] == a
    ensures forall x :: x in r <==> x in a || x in b
    ensures NoDup(a) && NoDup(b) ==> NoDup(r)
  {
    AppendNoDup(a, Missing(a, b));
    a + Missing(a, b)
  }

  lemma AppendNoDup(a: seq<Method>, b: seq<Method>)
    requires forall x :: x in b ==> x !in a
    ensures NoDup(a) && NoDup(b) ==> NoDup(a + b)
  {
    if NoDup(a) && NoDup(b) {
      var r := a + b;
      forall i, j | 0 <= i < j < |r|
        ensures r[i] != r[j]
      {
        if i < |a| <= j {
          assert r[j] in b;
        }
      }
    }
  }

  /** Appending, one by one, each method of `b` that the list does not yet hold. */
  function AddMissing(a: seq<Method>, b: seq<Method>): (r: seq<Method>)
    ensures |a| <= |r| && r[..|a|] == a
    ensures forall x :: x in r <==> x in a || x in b
    ensures NoDup(a) ==> NoDup(r)
  {
    if |b| == 0 then a
    else
      var init := AddMissing(a, b[..|b| - 1]);
      var last := b[|b| - 1];
      assert b == b[..|b| - 1] + [last];
      assert init[..|a|] == a;
      if last in init then init
      else
        assert (init + [last])[..|a|] == init[..|a|];
        init + [last]
  }

  // ---------------------------------------------------------------- consensus

  /** Pockets `m` in `[lo, hi)`, other than `k`, closer to pocket `k` than the threshold. */
  function CloseIn(cs: seq<Point>, k: nat, lo: nat, hi: nat, threshold: real): (n: nat)
    requires k < |cs| && hi <= |cs|
    decreases hi
  {
    if hi <= lo then 0
    else CloseIn(cs, k, lo, hi - 1, threshold) + (if hi - 1 != k && Close(cs[k], cs[hi - 1], threshold) then 1 else 0)
  }

  /** The number of other pockets strictly closer to pocket `k` than the threshold. */
  function CloseCount(cs: seq<Point>, k: nat, threshold: real): nat
    requires k < |cs|
  {
    CloseIn(cs, k, 0, |cs|, threshold)
  }

  lemma {:induction false} CloseInSplit(cs: seq<Point>, k: nat, lo: nat, mid: nat, hi: nat, threshold: real)
    requires k < |cs| && lo <= mid <= hi <= |cs|
    ensures CloseIn(cs, k, lo, hi, threshold) == CloseIn(cs, k, lo, mid, threshold) + CloseIn(cs, k, mid, hi, threshold)
    decreases hi
  {
    if mid < hi {
      CloseInSplit(cs, k, lo, mid, hi - 1, threshold);
    }
  }

  /**
   * How many close partners pocket `k` has among the pairs `(a, b)`, `a < b`,
   * that the double loop has visited when it is about to visit `(i, j)`.
   */
  function Visited(cs: seq<Point>, k: nat, i: nat, j: nat, threshold: real): nat
    requires k < |cs| && i <= |cs| && (j <= |cs| || (i == |cs| && j == |cs| + 1))
  {
    CloseIn(cs, k, 0, if i < k then i else k, threshold)
    + (if k < i then CloseIn(cs, k, k + 1, |cs|, threshold) else 0)
    + (if k == i && i < j then CloseIn(cs, k, i + 1, j, threshold) else 0)
    + (if i < k < j && Close(cs[i], cs[k], threshold) then 1 else 0)
  }

  /** Visiting pair `(i, j)` counts it for `i` and `j` when they are close, and for nobody else. */
  lemma VisitStep(cs: seq<Point>, k: nat, i: nat, j: nat, threshold: real)
    requires k < |cs| && i < j < |cs|
    ensures Visited(cs, k, i, j + 1, threshold) ==
      Visited(cs, k, i, j, threshold) + (if (k == i || k == j) && Close(cs[i], cs[j], threshold) then 1 else 0)
  {
    if k == i {
      CloseInSplit(cs, k, i + 1, j, j + 1, threshold);
      if i + 1 == j {
        assert CloseIn(cs, k, i + 1, i + 1, threshold) == 0;
      }
    }
  }

  /** Finishing row `i` is the same count as starting row `i + 1`. */
  lemma VisitRow(cs: seq<Point>, k: nat, i: nat, threshold: real)
    requires k < |cs| && i < |cs|
    ensures Visited(cs, k, i, |cs|, threshold) == Visited(cs, k, i + 1, i + 2, threshold)
  {
    if k == i + 1 {
      CloseInSplit(cs, k, 0, i, i + 1, threshold);
      CloseSymmetric(cs[k], cs[i], threshold);
      assert CloseIn(cs, k, i + 1, i + 1, threshold) == 0;
    } else if k > i + 1 {
      CloseInSplit(cs, k, 0, i, i + 1, threshold);
      CloseSymmetric(cs[k], cs[i], threshold);
    } else if k == i {
      if i + 1 > |cs| - 1 {
        assert CloseIn(cs, k, i + 1, |cs|, threshold) == 0;
      }
    }
  }

  /** Once every row is done, each pocket has counted all its close partners. */
  lemma VisitDone(cs: seq<Point>, k: nat, threshold: real)
    requires k < |cs|
    ensures Visited(cs, k, |cs|, |cs| + 1, threshold) == CloseCount(cs, k, threshold)
  {
    CloseInSplit(cs, k, 0, k, |cs|, threshold);
    CloseInSplit(cs, k, k, k + 1, |cs|, threshold);
    assert CloseIn(cs, k, k, k, threshold) == 0;
  }

  /** Every method tag that occurs in some record. */
  function Tags(ps: seq<Pocket>): set<Method> {
    set k, x | 0 <= k < |ps| && x in ps[k].methods :: x
  }

  predicate Grown(small: seq<Method>, big: seq<Method>) {
    |small| <= |big| && big[..|small|] == small
  }

  lemma GrownTransitive(a: seq<Method>, b: seq<Method>, c: seq<Method>)
    requires Grown(a, b) && Grown(b, c)
    ensures Grown(a, c)
  {
    assert c[..|a|] == c[..|b|][..|a|];
  }

  /** Lists that only grew still include what they included. */
  lemma GrownIncludes(a: seq<Method>, b: seq<Method>, c: seq<Method>)
    requires Grown(a, b) && Includes(a, c)
    ensures Includes(b, c)
  {
    forall x | x in c
      ensures x in b
    {
      var n :| 0 <= n < |a| && a[n] == x;
      assert b[..|a|][n] == x;
    }
  }

  predicate VisitedBefore(a: nat, b: nat, i: nat, j: nat) {
    a < b && (a < i || (a == i && b < j))
  }

  /**
   * The update of a close pair as the loop body performs it: both
   * consensus scores up by 2, then `i`'s list extended by `j`'s missing
   * methods, then `j`'s by the missing ones of `i`'s extended list.
   */
  function CloseMerge(cur: seq<Pocket>, i: nat, j: nat): (r: seq<Pocket>)
    requires i < j < |cur|
    ensures |r| == |cur|
    ensures forall k :: 0 <= k < |cur| && k != i && k != j ==> r[k] == cur[k]
    ensures r[i] == cur[i].(consensus := cur[i].consensus + 2.0, methods := r[i].methods)
    ensures r[j] == cur[j].(consensus := cur[j].consensus + 2.0, methods := r[j].methods)
    ensures Grown(cur[i].methods, r[i].methods) && Grown(cur[j].methods, r[j].methods)
    ensures NoDup(cur[i].methods) && NoDup(cur[j].methods) ==> NoDup(r[i].methods) && NoDup(r[j].methods)
    ensures forall x :: x in r[i].methods <==> x in cur[i].methods || x in cur[j].methods
    ensures forall x :: x in r[j].methods <==> x in cur[i].methods || x in cur[j].methods
  {
    var mi := Merge(cur[i].methods, cur[j].methods);
    var mj := Merge(cur[j].methods, mi);
    cur[i := cur[i].(consensus := cur[i].consensus + 2.0, methods := mi)]
       [j := cur[j].(consensus := cur[j].consensus + 2.0, methods := mj)]
  }

  /** Visiting pair `(i, j)`: merge it when the two centres are close, leave the records alone otherwise. */
  function VisitPair(cur: seq<Pocket>, i: nat, j: nat, threshold: real): (r: seq<Pocket>)
    requires i < j < |cur|
    ensures |r| == |cur|
  {
    if Close(cur[i].center, cur[j].center, threshold) then CloseMerge(cur, i, j) else cur
  }

  /** Pair `(i, j)` is one the double loop reaches, or `(i, i + 1)` at the start of row `i`. */
  predicate InLoop(ps: seq<Pocket>, i: nat, j: nat) {
    i <= |ps| && (i < j <= |ps| || j == i + 1)
  }

  /**
   * The records just before the double loop visits pair `(i, j)`; pair
   * `(|ps|, |ps| + 1)` stands for the end of the loop.
   */
  function StateAt(ps: seq<Pocket>, i: nat, j: nat, threshold: real): (r: seq<Pocket>)
    requires InLoop(ps, i, j)
    ensures |r| == |ps|
    decreases i, j
  {
    if j > i + 1 then VisitPair(StateAt(ps, i, j - 1, threshold), i, j - 1, threshold)
    else if i == 0 then ps
    else StateAt(ps, i - 1, |ps|, threshold)
  }


  /** One visit adds 2 to the consensus of both ends of a close pair and nothing elsewhere. */
  lemma VisitConsensus(cur: seq<Pocket>, i: nat, j: nat, threshold: real, k: nat)
    requires i < j < |cur| && k < |cur|
    ensures VisitPair(cur, i, j, threshold)[k].consensus ==
      cur[k].consensus + (if (k == i || k == j) && Close(cur[i].center, cur[j].center, threshold) then 2.0 else 0.0)
  {
  }

  /** One visit only extends method lists, and keeps them without repeats. */
  lemma VisitMethods(cur: seq<Pocket>, i: nat, j: nat, threshold: real, k: nat)
    requires i < j < |cur| && k < |cur|
    ensures Grown(cur[k].methods, VisitPair(cur, i, j, threshold)[k].methods)
    ensures NoDup(cur[i].methods) && NoDup(cur[j].methods) && NoDup(cur[k].methods) ==>
      NoDup(VisitPair(cur, i, j, threshold)[k].methods)
  {
    assert cur[k].methods[..|cur[k].methods|] == cur[k].methods;
  }

  /** Visiting `(i, j)` adds 2 to the consensus of `k` exactly when `k` is an end of a close pair. */
  lemma CountStep(cs: seq<Point>, cur: seq<Pocket>, nxt: seq<Pocket>, i: nat, j: nat, jn: nat, threshold: real, k: nat, base: real)
    requires i < j < |cs| && |cur| == |cs| && k < |cs| && jn == j + 1
    requires nxt == VisitPair(cur, i, j, threshold)
    requires cur[i].center == cs[i] && cur[j].center == cs[j]
    requires cur[k].consensus == base + 2.0 * Visited(cs, k, i, j, threshold) as real
    ensures nxt[k].consensus == base + 2.0 * Visited(cs, k, i, jn, threshold) as real
  {
    VisitStep(cs, k, i, j, threshold);
    VisitConsensus(cur, i, j, threshold, k);
  }

  /** One visit changes nothing in a record but its consensus score and its method list. */
  lemma VisitShape(cur: seq<Pocket>, i: nat, j: nat, threshold: real, k: nat)
    requires i < j < |cur| && k < |cur|
    ensures var r := VisitPair(cur, i, j, threshold)[k];
      r == cur[k].(consensus := r.consensus, methods := r.methods)
  {
  }

  /** Each record of `qs` is that of `ps` but for its consensus score and its method list. */
  predicate Shaped(ps: seq<Pocket>, qs: seq<Pocket>) {
    |qs| == |ps| && forall k :: 0 <= k < |ps| ==> qs[k] == ps[k].(consensus := qs[k].consensus, methods := qs[k].methods)
  }

  /** One visit keeps every record shaped like the original. */
  lemma VisitShaped(ps: seq<Pocket>, cur: seq<Pocket>, i: nat, j: nat, threshold: real)
    requires i < j < |cur| && Shaped(ps, cur)
    ensures Shaped(ps, VisitPair(cur, i, j, threshold))
  {
    forall k | 0 <= k < |ps|
      ensures var r := VisitPair(cur, i, j, threshold)[k];
        r == ps[k].(consensus := r.consensus, methods := r.methods)
    {
      VisitShape(cur, i, j, threshold, k);
    }
  }

  /** Visiting pairs changes nothing in a record but its consensus score and its method list. */
  lemma {:induction false} ShapeAll(ps: seq<Pocket>, i: nat, j: nat, threshold: real)
    requires InLoop(ps, i, j)
    ensures Shaped(ps, StateAt(ps, i, j, threshold))
    decreases i, j
  {
    if j > i + 1 {
      ShapeAll(ps, i, j - 1, threshold);
      ShapeInRow(ps, i, j, threshold);
    } else if i > 0 {
      ShapeAll(ps, i - 1, |ps|, threshold);
      assert StateAt(ps, i, j, threshold) == StateAt(ps, i - 1, |ps|, threshold);
    } else {
      assert StateAt(ps, i, j, threshold) == ps;
      ShapedSelf(ps);
    }
  }

  /** The step of `ShapeAll` along a row. */
  lemma ShapeInRow(ps: seq<Pocket>, i: nat, j: nat, threshold: real)
    requires InLoop(ps, i, j) && j > i + 1 && Shaped(ps, StateAt(ps, i, j - 1, threshold))
    ensures Shaped(ps, StateAt(ps, i, j, threshold))
  {
    var cur := StateAt(ps, i, j - 1, threshold);
    VisitShaped(ps, cur, i, j - 1, threshold);
    assert StateAt(ps, i, j, threshold) == VisitPair(cur, i, j - 1, threshold);
  }

  lemma ShapedSelf(ps: seq<Pocket>)
    ensures Shaped(ps, ps)
  {
  }

  lemma ShapeAt(ps: seq<Pocket>, i: nat, j: nat, threshold: real, k: nat)
    requires InLoop(ps, i, j) && k < |ps|
    ensures var r := StateAt(ps, i, j, threshold)[k];
      r == ps[k].(consensus := r.consensus, methods := r.methods)
  {
    ShapeAll(ps, i, j, threshold);
  }

  /** Before visiting `(i, j)`, each consensus score has gained 2 per close pair already visited. */
  lemma {:induction false} CountAt(ps: seq<Pocket>, i: nat, j: nat, threshold: real, k: nat)
    requires InLoop(ps, i, j) && k < |ps|
    ensures StateAt(ps, i, j, threshold)[k].consensus
      == ps[k].consensus + 2.0 * Visited(Centers(ps), k, i, j, threshold) as real
    decreases i, j
  {
    var cs := Centers(ps);
    if j > i + 1 {
      CountAt(ps, i, j - 1, threshold, k);
      CountInRow(ps, i, j, threshold, k);
    } else if i == 0 {
      if k == 0 {
        assert CloseIn(cs, k, 1, 1, threshold) == 0;
      }
    } else {
      CountAt(ps, i - 1, |ps|, threshold, k);
      VisitRow(cs, k, i - 1, threshold);
    }
  }

  /** The step of `CountAt` along a row: visiting `(i, j - 1)` keeps the count exact. */
  lemma CountInRow(ps: seq<Pocket>, i: nat, j: nat, threshold: real, k: nat)
    requires InLoop(ps, i, j) && j > i + 1 && k < |ps|
    requires StateAt(ps, i, j - 1, threshold)[k].consensus
      == ps[k].consensus + 2.0 * Visited(Centers(ps), k, i, j - 1, threshold) as real
    ensures StateAt(ps, i, j, threshold)[k].consensus
      == ps[k].consensus + 2.0 * Visited(Centers(ps), k, i, j, threshold) as real
  {
    var cur := StateAt(ps, i, j - 1, threshold);
    ShapeAt(ps, i, j - 1, threshold, i);
    ShapeAt(ps, i, j - 1, threshold, j - 1);
    CountStep(Centers(ps), cur, StateAt(ps, i, j, threshold), i, j - 1, j, threshold, k, ps[k].consensus);
  }

  /** Method lists only grow: the original list stays a prefix. */
  lemma {:induction false} GrownAt(ps: seq<Pocket>, i: nat, j: nat, threshold: real, k: nat)
    requires InLoop(ps, i, j) && k < |ps|
    ensures Grown(ps[k].methods, StateAt(ps, i, j, threshold)[k].methods)
    decreases i, j
  {
    if j > i + 1 {
      GrownAt(ps, i, j - 1, threshold, k);
      var cur := StateAt(ps, i, j - 1, threshold);
      VisitMethods(cur, i, j - 1, threshold, k);
      GrownTransitive(ps[k].methods, cur[k].methods, VisitPair(cur, i, j - 1, threshold)[k].methods);
    } else if i == 0 {
      assert ps[k].methods[..|ps[k].methods|] == ps[k].methods;
    } else {
      GrownAt(ps, i - 1, |ps|, threshold, k);
    }
  }

  /** Every method tag of every record is in `tags`. */
  predicate Tagged(qs: seq<Pocket>, tags: set<Method>) {
    forall k, x :: 0 <= k < |qs| && x in qs[k].methods ==> x in tags
  }

  /** One visit brings in no tag from outside the records. */
  lemma VisitTags(cur: seq<Pocket>, i: nat, j: nat, threshold: real, tags: set<Method>)
    requires i < j < |cur| && Tagged(cur, tags)
    ensures Tagged(VisitPair(cur, i, j, threshold), tags)
  {
    var nxt := VisitPair(cur, i, j, threshold);
    if Close(cur[i].center, cur[j].center, threshold) {
      forall k | 0 <= k < |cur| && k != i && k != j
        ensures nxt[k] == cur[k]
      {
      }
    }
  }

  lemma InTags(ps: seq<Pocket>, k: nat, x: Method)
    requires k < |ps| && x in ps[k].methods
    ensures x in Tags(ps)
  {
  }

  /** A set holding every original tag holds every tag during the loop. */
  lemma {:induction false} TagsWithin(ps: seq<Pocket>, i: nat, j: nat, threshold: real, tags: set<Method>)
    requires InLoop(ps, i, j) && Tagged(ps, tags)
    ensures Tagged(StateAt(ps, i, j, threshold), tags)
    decreases i, j
  {
    if j > i + 1 {
      TagsWithin(ps, i, j - 1, threshold, tags);
      VisitTags(StateAt(ps, i, j - 1, threshold), i, j - 1, threshold, tags);
    } else if i > 0 {
      TagsWithin(ps, i - 1, |ps|, threshold, tags);
    }
  }

  /** No method tag appears that was not in some original record. */
  lemma TagsAt(ps: seq<Pocket>, i: nat, j: nat, threshold: real, k: nat, x: Method)
    requires InLoop(ps, i, j) && k < |ps|
    requires x in StateAt(ps, i, j, threshold)[k].methods
    ensures x in Tags(ps)
  {
    forall n, y | 0 <= n < |ps| && y in ps[n].methods
      ensures y in Tags(ps)
    {
      InTags(ps, n, y);
    }
    TagsWithin(ps, i, j, threshold, Tags(ps));
    assert Tagged(StateAt(ps, i, j, threshold), Tags(ps));
  }

  predicate MethodsDistinct(ps: seq<Pocket>) {
    forall m :: 0 <= m < |ps| ==> NoDup(ps[m].methods)
  }

  /** Lists without repeats stay without repeats. */
  lemma {:induction false} NoDupAll(ps: seq<Pocket>, i: nat, j: nat, threshold: real)
    requires InLoop(ps, i, j)
    requires MethodsDistinct(ps)
    ensures MethodsDistinct(StateAt(ps, i, j, threshold))
    decreases i, j
  {
    if j > i + 1 {
      NoDupAll(ps, i, j - 1, threshold);
      var cur := StateAt(ps, i, j - 1, threshold);
      var next := StateAt(ps, i, j, threshold);
      forall k | 0 <= k < |ps|
        ensures NoDup(next[k].methods)
      {
        VisitMethods(cur, i, j - 1, threshold, k);
      }
    } else if i > 0 {
      NoDupAll(ps, i - 1, |ps|, threshold);
    }
  }

  lemma NoDupAt(ps: seq<Pocket>, i: nat, j: nat, threshold: real, k: nat)
    requires InLoop(ps, i, j) && k < |ps|
    requires MethodsDistinct(ps)
    ensures NoDup(StateAt(ps, i, j, threshold)[k].methods)
  {
    NoDupAll(ps, i, j, threshold);
  }

  /** A list that grew from `small` holds all of `small`. */
  lemma GrownHolds(small: seq<Method>, big: seq<Method>)
    requires Grown(small, big)
    ensures Includes(big, small)
  {
    forall x | x in small
      ensures x in big
    {
      var n :| 0 <= n < |small| && small[n] == x;
      assert big[..|small|][n] == x;
    }
  }

  /** Visiting a close pair gives each end what the other one held. */
  lemma VisitShares(cur: seq<Pocket>, i: nat, j: nat, threshold: real, pi: seq<Method>, pj: seq<Method>)
    requires i < j < |cur| && Close(cur[i].center, cur[j].center, threshold)
    requires Includes(cur[i].methods, pi) && Includes(cur[j].methods, pj)
    ensures Includes(VisitPair(cur, i, j, threshold)[i].methods, pj)
    ensures Includes(VisitPair(cur, i, j, threshold)[j].methods, pi)
  {
  }

  /** The pairs whose both ends hold each other's original methods. */
  predicate Shared(ps: seq<Pocket>, qs: seq<Pocket>, a: nat, b: nat)
    requires a < |ps| && b < |ps| && |qs| == |ps|
  {
    Includes(qs[a].methods, ps[b].methods) && Includes(qs[b].methods, ps[a].methods)
  }

  /** Visiting a close pair `(i, j)` makes it shared. */
  lemma SharedNew(ps: seq<Pocket>, i: nat, j: nat, threshold: real)
    requires InLoop(ps, i, j) && i < j < |ps| && Close(ps[i].center, ps[j].center, threshold)
    ensures Shared(ps, VisitPair(StateAt(ps, i, j, threshold), i, j, threshold), i, j)
  {
    var cur := StateAt(ps, i, j, threshold);
    ShapeAt(ps, i, j, threshold, i);
    ShapeAt(ps, i, j, threshold, j);
    GrownAt(ps, i, j, threshold, i);
    GrownAt(ps, i, j, threshold, j);
    GrownHolds(ps[i].methods, cur[i].methods);
    GrownHolds(ps[j].methods, cur[j].methods);
    VisitShares(cur, i, j, threshold, ps[i].methods, ps[j].methods);
  }

  /** A visit keeps every pair that was shared shared. */
  lemma SharedKept(ps: seq<Pocket>, cur: seq<Pocket>, i: nat, j: nat, threshold: real, a: nat, b: nat)
    requires |cur| == |ps| && i < j < |ps| && a < |ps| && b < |ps|
    requires Shared(ps, cur, a, b)
    ensures Shared(ps, VisitPair(cur, i, j, threshold), a, b)
  {
    var nxt := VisitPair(cur, i, j, threshold);
    VisitMethods(cur, i, j, threshold, a);
    VisitMethods(cur, i, j, threshold, b);
    GrownIncludes(cur[a].methods, nxt[a].methods, ps[b].methods);
    GrownIncludes(cur[b].methods, nxt[b].methods, ps[a].methods);
  }

  /** Both ends of every close pair already visited hold each other's original methods. */
  lemma {:induction false} SharedAll(ps: seq<Pocket>, i: nat, j: nat, threshold: real)
    requires InLoop(ps, i, j)
    ensures forall a: nat, b: nat :: b < |ps| && VisitedBefore(a, b, i, j) && Close(ps[a].center, ps[b].center, threshold) ==>
      Shared(ps, StateAt(ps, i, j, threshold), a, b)
    decreases i, j
  {
    if j > i + 1 {
      SharedAll(ps, i, j - 1, threshold);
      var cur := StateAt(ps, i, j - 1, threshold);
      forall a: nat, b: nat | b < |ps| && VisitedBefore(a, b, i, j) && Close(ps[a].center, ps[b].center, threshold)
        ensures Shared(ps, VisitPair(cur, i, j - 1, threshold), a, b)
      {
        if a == i && b == j - 1 {
          SharedNew(ps, i, j - 1, threshold);
        } else {
          assert VisitedBefore(a, b, i, j - 1);
          SharedKept(ps, cur, i, j - 1, threshold, a, b);
        }
      }
    } else if i > 0 {
      SharedAll(ps, i - 1, |ps|, threshold);
    }
  }

  lemma SharedAt(ps: seq<Pocket>, i: nat, j: nat, threshold: real, a: nat, b: nat)
    requires InLoop(ps, i, j) && b < |ps|
    requires VisitedBefore(a, b, i, j) && Close(ps[a].center, ps[b].center, threshold)
    ensures Includes(StateAt(ps, i, j, threshold)[a].methods, ps[b].methods)
    ensures Includes(StateAt(ps, i, j, threshold)[b].methods, ps[a].methods)
  {
    SharedAll(ps, i, j, threshold);
  }

  /** The records after the double loop. */
  function Marked(ps: seq<Pocket>, threshold: real): (r: seq<Pocket>)
    ensures |r| == |ps|
  {
    StateAt(ps, |ps|, |ps| + 1, threshold)
  }

  /**
   * After the double loop each consensus score has grown by 2 for every
   * other pocket strictly closer than the threshold, nothing but consensus
   * and methods has changed, method lists have only grown (without
   * repeats when there were none, and with no tag that was not there
   * before), and each pocket holds the original methods of every pocket
   * close to it.
   */
  lemma MarkedProperties(ps: seq<Pocket>, threshold: real)
    ensures forall k :: 0 <= k < |ps| ==>
      Marked(ps, threshold)[k] == ps[k].(consensus := Marked(ps, threshold)[k].consensus, methods := Marked(ps, threshold)[k].methods)
    ensures forall k :: 0 <= k < |ps| ==>
      Marked(ps, threshold)[k].consensus == ps[k].consensus + 2.0 * CloseCount(Centers(ps), k, threshold) as real
    ensures forall k :: 0 <= k < |ps| ==> Grown(ps[k].methods, Marked(ps, threshold)[k].methods)
    ensures (forall k :: 0 <= k < |ps| ==> NoDup(ps[k].methods)) ==>
      forall k :: 0 <= k < |ps| ==> NoDup(Marked(ps, threshold)[k].methods)
    ensures forall k, x :: 0 <= k < |ps| && x in Marked(ps, threshold)[k].methods ==> x in Tags(ps)
    ensures forall a, b :: 0 <= a < |ps| && 0 <= b < |ps| && a != b && Close(ps[a].center, ps[b].center, threshold) ==>
      Includes(Marked(ps, threshold)[a].methods, ps[b].methods)
  {
    var n := |ps|;
    var cs := Centers(ps);
    forall k | 0 <= k < n
      ensures Marked(ps, threshold)[k] == ps[k].(consensus := Marked(ps, threshold)[k].consensus, methods := Marked(ps, threshold)[k].methods)
      ensures Marked(ps, threshold)[k].consensus == ps[k].consensus + 2.0 * CloseCount(cs, k, threshold) as real
      ensures Grown(ps[k].methods, Marked(ps, threshold)[k].methods)
    {
      ShapeAt(ps, n, n + 1, threshold, k);
      CountAt(ps, n, n + 1, threshold, k);
      VisitDone(cs, k, threshold);
      GrownAt(ps, n, n + 1, threshold, k);
    }
    if MethodsDistinct(ps) {
      forall k | 0 <= k < n
        ensures NoDup(Marked(ps, threshold)[k].methods)
      {
        NoDupAt(ps, n, n + 1, threshold, k);
      }
    }
    forall k, x | 0 <= k < n && x in Marked(ps, threshold)[k].methods
      ensures x in Tags(ps)
    {
      TagsAt(ps, n, n + 1, threshold, k, x);
    }
    forall a, b | 0 <= a < n && 0 <= b < n && a != b && Close(ps[a].center, ps[b].center, threshold)
      ensures Includes(Marked(ps, threshold)[a].methods, ps[b].methods)
    {
      if a < b {
        SharedAt(ps, n, n + 1, threshold, a, b);
      } else {
        CloseSymmetric(ps[a].center, ps[b].center, threshold);
        SharedAt(ps, n, n + 1, threshold, b, a);
      }
    }
  }

  /** The double loop of `combine_pockets` over pairs `i < j`. */
  method MarkConsensus(ps: seq<Pocket>, threshold: real) returns (qs: seq<Pocket>)
    ensures qs == Marked(ps, threshold)
  {
    qs := ps;
    var i := 0;
    while i < |ps|
      invariant 0 <= i <= |ps|
      invariant qs == StateAt(ps, i, i + 1, threshold)
    {
      var j := i + 1;
      while j < |ps|
        invariant i + 1 <= j <= |ps|
        invariant qs == StateAt(ps, i, j, threshold)
      {
        assert StateAt(ps, i, j + 1, threshold) == VisitPair(qs, i, j, threshold);
        if Close(qs[i].center, qs[j].center, threshold) {
          qs := CloseMerge(qs, i, j);
        }
        j := j + 1;
      }
      assert StateAt(ps, i + 1, i + 2, threshold) == StateAt(ps, i, |ps|, threshold);
      i := i + 1;
    }
  }

  // ---------------------------------------------------------------- ranking

  /** The ranking score: consensus is the primary criterion, the detector's score the secondary one. */
  function FinalScore(p: Pocket): real {
    p.consensus * 3.0 + p.score * 0.5
  }

  function WithFinal(ps: seq<Pocket>): (r: seq<Pocket>)
    ensures |r| == |ps|
    ensures forall k :: 0 <= k < |ps| ==> r[k] == ps[k].(finalScore := FinalScore(ps[k]))
  {
    seq(|ps|, k requires 0 <= k < |ps| => ps[k].(finalScore := FinalScore(ps[k])))
  }

  function FinalKey(p: Pocket): Key {
    (p.finalScore, 0.0)
  }

  /** The loop that assigns every record its final score. */
  method AssignFinalScores(ps: seq<Pocket>) returns (qs: seq<Pocket>)
    ensures qs == WithFinal(ps)
  {
    qs := ps;
    var k := 0;
    while k < |qs|
      invariant k <= |qs| == |ps|
      invariant forall n :: 0 <= n < k ==> qs[n] == ps[n].(finalScore := FinalScore(ps[n]))
      invariant forall n :: k <= n < |qs| ==> qs[n] == ps[n]
    {
      qs := qs[k := qs[k].(finalScore := FinalScore(qs[k]))];
      k := k + 1;
    }
  }

  // ---------------------------------------------------------------- overlap filter

  /** The first kept pocket, from index `from` on, whose centre is closer to `c` than the threshold. */
  function FirstClose(kept: seq<Pocket>, c: Point, threshold: real, from: nat): (r: Option<nat>)
    ensures r.Some? ==> from <= r.value < |kept| && Close(c, kept[r.value].center, threshold)
    ensures r.Some? ==> forall t :: from <= t < r.value ==> !Close(c, kept[t].center, threshold)
    ensures r.None? ==> forall t :: from <= t < |kept| ==> !Close(c, kept[t].center, threshold)
    decreases |kept| - from
  {
    if from >= |kept| then None
    else if Close(c, kept[from].center, threshold) then Some(from)
    else FirstClose(kept, c, threshold, from + 1)
  }

  /**
   * The greedy pass over the ranked records: a record is kept unless an
   * already kept one lies within the threshold, in which case the first
   * such kept record takes over the methods it lacks.
   */
  function Suppress(ps: seq<Pocket>, threshold: real): (kept: seq<Pocket>)
    decreases |ps|
  {
    if |ps| == 0 then []
    else
      var kept := Suppress(ps[..|ps| - 1], threshold);
      var p := ps[|ps| - 1];
      match FirstClose(kept, p.center, threshold, 0)
      case None => kept + [p]
      case Some(s) => kept[s := kept[s].(methods := AddMissing(kept[s].methods, p.methods))]
  }

  /**
   * Every kept record is an input record with only its method list
   * changed; there are no more kept records than inputs, at least one
   * when there is any input, and the best-ranked input is always kept first.
   */
  lemma {:induction false} SuppressOrigins(ps: seq<Pocket>, threshold: real)
    ensures var kept := Suppress(ps, threshold);
      && |kept| <= |ps| && (|kept| == 0 <==> |ps| == 0)
      && (|ps| > 0 ==> kept[0] == ps[0].(methods := kept[0].methods))
      && forall k :: 0 <= k < |kept| ==> exists m :: 0 <= m < |ps| && kept[k] == ps[m].(methods := kept[k].methods)
    decreases |ps|
  {
    if |ps| > 0 {
      var init := ps[..|ps| - 1];
      var prev := Suppress(init, threshold);
      SuppressOrigins(init, threshold);
      var kept := Suppress(ps, threshold);
      forall k | 0 <= k < |kept|
        ensures exists m :: 0 <= m < |ps| && kept[k] == ps[m].(methods := kept[k].methods)
      {
        if k < |prev| {
          var m :| 0 <= m < |init| && prev[k] == init[m].(methods := prev[k].methods);
          assert kept[k] == ps[m].(methods := kept[k].methods);
        } else {
          assert kept[k] == ps[|ps| - 1];
        }
      }
      if |init| == 0 {
        assert kept == [ps[0]];
      }
    }
  }

  /** No two kept records are closer than the threshold. */
  lemma {:induction false} SuppressApart(ps: seq<Pocket>, threshold: real)
    ensures forall a, b :: 0 <= a < |Suppress(ps, threshold)| && 0 <= b < |Suppress(ps, threshold)| && a != b ==>
      !Close(Suppress(ps, threshold)[a].center, Suppress(ps, threshold)[b].center, threshold)
    decreases |ps|
  {
    if |ps| > 0 {
      var init := ps[..|ps| - 1];
      var prev := Suppress(init, threshold);
      SuppressApart(init, threshold);
      var p := ps[|ps| - 1];
      var kept := Suppress(ps, threshold);
      match FirstClose(prev, p.center, threshold, 0)
      case None =>
        forall a, b | 0 <= a < |kept| && 0 <= b < |kept| && a != b
          ensures !Close(kept[a].center, kept[b].center, threshold)
        {
          if a == |prev| {
            assert !Close(p.center, prev[b].center, threshold);
          } else if b == |prev| {
            assert !Close(p.center, prev[a].center, threshold);
            CloseSymmetric(p.center, prev[a].center, threshold);
          } else {
            assert kept[a] == prev[a] && kept[b] == prev[b];
          }
        }
      case Some(t) =>
        forall a, b | 0 <= a < |kept| && 0 <= b < |kept| && a != b
          ensures !Close(kept[a].center, kept[b].center, threshold)
        {
          assert kept[a].center == prev[a].center && kept[b].center == prev[b].center;
        }
    }
  }

  /** Some kept record is `q` itself or lies within the threshold of it, and carries all of `q`'s methods. */
  predicate Answered(kept: seq<Pocket>, q: Pocket, threshold: real) {
    exists s :: 0 <= s < |kept| && Answers(kept[s], q, threshold)
  }

  predicate Answers(k: Pocket, q: Pocket, threshold: real) {
    (k.center == q.center || Close(q.center, k.center, threshold)) && Includes(k.methods, q.methods)
  }

  /** A kept record that only gains methods still answers what it answered. */
  lemma AnswersGrown(k: Pocket, k2: Pocket, q: Pocket, threshold: real)
    requires Answers(k, q, threshold) && k2.center == k.center && Includes(k2.methods, k.methods)
    ensures Answers(k2, q, threshold)
  {
  }

  /**
   * Every input record is answered by a kept record: the record itself,
   * or the first kept record within the threshold of it; that kept record
   * carries all of the input record's methods.
   */
  lemma {:induction false} SuppressCovers(ps: seq<Pocket>, threshold: real)
    ensures forall m :: 0 <= m < |ps| ==> Answered(Suppress(ps, threshold), ps[m], threshold)
    decreases |ps|
  {
    if |ps| > 0 {
      var init := ps[..|ps| - 1];
      var prev := Suppress(init, threshold);
      SuppressCovers(init, threshold);
      var p := ps[|ps| - 1];
      var kept := Suppress(ps, threshold);
      forall m | 0 <= m < |ps|
        ensures Answered(kept, ps[m], threshold)
      {
        match FirstClose(prev, p.center, threshold, 0)
        case None =>
          if m < |init| {
            assert Answered(prev, init[m], threshold);
            var s :| 0 <= s < |prev| && Answers(prev[s], init[m], threshold);
            assert kept[s] == prev[s];
          } else {
            assert Answers(kept[|prev|], p, threshold);
          }
        case Some(t) =>
          if m < |init| {
            assert Answered(prev, init[m], threshold);
            var s :| 0 <= s < |prev| && Answers(prev[s], init[m], threshold);
            AnswersGrown(prev[s], kept[s], init[m], threshold);
          } else {
            assert Answers(kept[t], p, threshold);
          }
      }
    }
  }

  /** Method lists without repeats stay without repeats. */
  lemma {:induction false} SuppressNoDup(ps: seq<Pocket>, threshold: real)
    requires forall m :: 0 <= m < |ps| ==> NoDup(ps[m].methods)
    ensures forall k :: 0 <= k < |Suppress(ps, threshold)| ==> NoDup(Suppress(ps, threshold)[k].methods)
    decreases |ps|
  {
    if |ps| > 0 {
      var init := ps[..|ps| - 1];
      var prev := Suppress(init, threshold);
      assert forall m :: 0 <= m < |init| ==> init[m] == ps[m];
      SuppressNoDup(init, threshold);
      var p := ps[|ps| - 1];
      var kept := Suppress(ps, threshold);
      forall k | 0 <= k < |kept|
        ensures NoDup(kept[k].methods)
      {
        match FirstClose(prev, p.center, threshold, 0)
        case None =>
          if k < |prev| {
            assert kept[k] == prev[k];
          } else {
            assert kept[k] == p;
          }
        case Some(t) =>
          if k != t {
            assert kept[k] == prev[k];
          } else {
            assert NoDup(prev[t].methods);
            assert kept[k].methods == AddMissing(prev[t].methods, p.methods);
          }
      }
    }
  }

  /** Keeping a ranked list's records in their order keeps it ranked. */
  lemma {:induction false} SuppressSorted(ps: seq<Pocket>, threshold: real)
    requires SortedDesc(ps, FinalKey)
    ensures SortedDesc(Suppress(ps, threshold), FinalKey)
    decreases |ps|
  {
    if |ps| > 0 {
      var init := ps[..|ps| - 1];
      var prev := Suppress(init, threshold);
      SuppressSorted(init, threshold);
      SuppressOrigins(init, threshold);
      var p := ps[|ps| - 1];
      var kept := Suppress(ps, threshold);
      if FirstClose(prev, p.center, threshold, 0).None? {
        forall a, b | 0 <= a < b < |kept|
          ensures KeyGe(FinalKey(kept[a]), FinalKey(kept[b]))
        {
          if b == |prev| {
            var m :| 0 <= m < |init| && prev[a] == init[m].(methods := prev[a].methods);
            assert KeyGe(FinalKey(ps[m]), FinalKey(ps[|ps| - 1]));
          }
        }
      }
    }
  }

  /** The greedy filter loop of `combine_pockets`, with the early exit at the first overlap. */
  method SuppressOverlaps(ps: seq<Pocket>, threshold: real) returns (filtered: seq<Pocket>)
    ensures filtered == Suppress(ps, threshold)
  {
    filtered := [];
    var n := 0;
    while n < |ps|
      invariant n <= |ps| && filtered == Suppress(ps[..n], threshold)
    {
      assert ps[..n + 1][..n] == ps[..n];
      var p := ps[n];
      var s := 0;
      while s < |filtered| && !Close(p.center, filtered[s].center, threshold)
        invariant s <= |filtered|
        invariant FirstClose(filtered, p.center, threshold, s) == FirstClose(filtered, p.center, threshold, 0)
      {
        s := s + 1;
      }
      if s < |filtered| {
        var methods := filtered[s].methods;
        var t := 0;
        while t < |p.methods|
          invariant t <= |p.methods| && methods == AddMissing(filtered[s].methods, p.methods[..t])
        {
          assert p.methods[..t + 1][..t] == p.methods[..t];
          if p.methods[t] !in methods {
            methods := methods + [p.methods[t]];
          }
          t := t + 1;
        }
        assert p.methods[..t] == p.methods;
        filtered := filtered[s := filtered[s].(methods := methods)];
      } else {
        filtered := filtered + [p];
      }
      n := n + 1;
    }
    assert ps[..n] == ps;
  }

  // ---------------------------------------------------------------- combine_pockets

  /**
   * `q` is initial record `m` after the consensus pass and the final
   * scoring: every field but the method list follows from the initial
   * record and the number of its close partners.
   */
  predicate FromInitial(q: Pocket, init: seq<Pocket>, m: nat, threshold: real)
    requires m < |init|
  {
    q == init[m].(consensus := q.consensus, methods := q.methods, finalScore := q.finalScore)
    && q.consensus == init[m].consensus + 2.0 * CloseCount(Centers(init), m, threshold) as real
    && q.finalScore == FinalScore(q)
  }

  /** `q` is some initial record after the consensus pass and the final scoring. */
  predicate Derived(q: Pocket, init: seq<Pocket>, threshold: real) {
    exists m :: 0 <= m < |init| && FromInitial(q, init, m, threshold)
  }

  /** Some record of `rs` has `p`'s centre and all of `p`'s methods. */
  predicate Shows(rs: seq<Pocket>, p: Pocket) {
    exists i :: 0 <= i < |rs| && rs[i].center == p.center && Includes(rs[i].methods, p.methods)
  }

  /** The records after the consensus pass and the final scores, best first. */
  function Ranked(init: seq<Pocket>, threshold: real): (r: seq<Pocket>)
    ensures |r| == |init|
    ensures multiset(r) == multiset(WithFinal(Marked(init, threshold)))
    ensures SortedDesc(r, FinalKey)
  {
    SortDescProperties(WithFinal(Marked(init, threshold)), FinalKey);
    SortDesc(WithFinal(Marked(init, threshold)), FinalKey)
  }

  /** Marked and scored record `m` is initial record `m` with its close partners counted. */
  lemma ScoredFromInitial(init: seq<Pocket>, threshold: real, m: nat)
    requires m < |init|
    ensures FromInitial(WithFinal(Marked(init, threshold))[m], init, m, threshold)
    ensures Grown(init[m].methods, WithFinal(Marked(init, threshold))[m].methods)
    ensures MethodsDistinct(init) ==> NoDup(WithFinal(Marked(init, threshold))[m].methods)
  {
    var n := |init|;
    ShapeAt(init, n, n + 1, threshold, m);
    CountAt(init, n, n + 1, threshold, m);
    VisitDone(Centers(init), m, threshold);
    GrownAt(init, n, n + 1, threshold, m);
    if MethodsDistinct(init) {
      NoDupAt(init, n, n + 1, threshold, m);
    }
  }

  /** Each ranked record is an initial record, without repeated methods. */
  lemma RankedDerived(init: seq<Pocket>, threshold: real, i: nat)
    requires MethodsDistinct(init) && i < |init|
    ensures NoDup(Ranked(init, threshold)[i].methods) && Derived(Ranked(init, threshold)[i], init, threshold)
  {
    var scored := WithFinal(Marked(init, threshold));
    var q := Ranked(init, threshold)[i];
    assert q in multiset(scored);
    var m :| 0 <= m < |scored| && scored[m] == q;
    ScoredFromInitial(init, threshold, m);
  }

  /** Each initial record shows up in the ranking with at least its own methods. */
  lemma RankedShows(init: seq<Pocket>, threshold: real, m: nat)
    requires m < |init|
    ensures Shows(Ranked(init, threshold), init[m])
  {
    var scored := WithFinal(Marked(init, threshold));
    var ranked := Ranked(init, threshold);
    ScoredFromInitial(init, threshold, m);
    GrownHolds(init[m].methods, scored[m].methods);
    assert scored[m] in multiset(ranked);
    var i :| 0 <= i < |ranked| && ranked[i] == scored[m];
  }

  /** Ranking and the overlap filter applied to the initial records. */
  function CombineRecords(init: seq<Pocket>, threshold: real): seq<Pocket> {
    Suppress(Ranked(init, threshold), threshold)
  }

  lemma KeptDerived(init: seq<Pocket>, threshold: real, k: nat)
    requires MethodsDistinct(init) && k < |CombineRecords(init, threshold)|
    ensures Derived(CombineRecords(init, threshold)[k], init, threshold)
  {
    var ranked := Ranked(init, threshold);
    var kept := CombineRecords(init, threshold);
    SuppressOrigins(ranked, threshold);
    var i :| 0 <= i < |ranked| && kept[k] == ranked[i].(methods := kept[k].methods);
    RankedDerived(init, threshold, i);
    var m :| 0 <= m < |init| && FromInitial(ranked[i], init, m, threshold);
    assert FromInitial(kept[k], init, m, threshold);
  }

  lemma KeptAnswers(init: seq<Pocket>, threshold: real, m: nat)
    requires m < |init|
    ensures Answered(CombineRecords(init, threshold), init[m], threshold)
  {
    var ranked := Ranked(init, threshold);
    var kept := CombineRecords(init, threshold);
    RankedShows(init, threshold, m);
    var i :| 0 <= i < |ranked| && ranked[i].center == init[m].center && Includes(ranked[i].methods, init[m].methods);
    SuppressCovers(ranked, threshold);
    assert Answered(kept, ranked[i], threshold);
    var s :| 0 <= s < |kept| && Answers(kept[s], ranked[i], threshold);
    assert Answers(kept[s], init[m], threshold);
  }

  /**
   * What `combine_pockets` returns from its records: at least one pocket
   * when there is any record, no two kept pockets closer than the
   * threshold, best final score first, each kept pocket an initial record
   * with its consensus raised by 2 per close partner and final score
   * `3 * consensus + score / 2`, method lists without repeats, and every
   * initial record answered by a kept pocket at or near its centre that
   * carries its methods.
   */
  lemma CombineRecordsProperties(init: seq<Pocket>, threshold: real)
    requires MethodsDistinct(init)
    ensures |CombineRecords(init, threshold)| <= |init|
    ensures |CombineRecords(init, threshold)| == 0 <==> |init| == 0
    ensures forall a, b :: 0 <= a < |CombineRecords(init, threshold)| && 0 <= b < |CombineRecords(init, threshold)| && a != b ==>
      !Close(CombineRecords(init, threshold)[a].center, CombineRecords(init, threshold)[b].center, threshold)
    ensures SortedDesc(CombineRecords(init, threshold), FinalKey)
    ensures MethodsDistinct(CombineRecords(init, threshold))
    ensures forall k :: 0 <= k < |CombineRecords(init, threshold)| ==> Derived(CombineRecords(init, threshold)[k], init, threshold)
    ensures forall m :: 0 <= m < |init| ==> Answered(CombineRecords(init, threshold), init[m], threshold)
  {
    var ranked := Ranked(init, threshold);
    SuppressOrigins(ranked, threshold);
    SuppressApart(ranked, threshold);
    SuppressSorted(ranked, threshold);
    forall i | 0 <= i < |ranked|
      ensures NoDup(ranked[i].methods)
    {
      RankedDerived(init, threshold, i);
    }
    SuppressNoDup(ranked, threshold);
    forall k | 0 <= k < |CombineRecords(init, threshold)|
      ensures Derived(CombineRecords(init, threshold)[k], init, threshold)
    {
      KeptDerived(init, threshold, k);
    }
    forall m | 0 <= m < |init|
      ensures Answered(CombineRecords(init, threshold), init[m], threshold)
    {
      KeptAnswers(init, threshold, m);
    }
  }

  /** The combined, ranked and filtered pockets of `combine_pockets`. */
  function Combined(geo: seq<Cavity>, energy: seq<EnergyPocket>, nearby: Point -> seq<Neighbour>, threshold: real): seq<Pocket> {
    if |geo| == 0 && |energy| == 0 then []
    else CombineRecords(InitialPockets(geo, energy, nearby), threshold)
  }

  /**
   * For the detectors' own pockets: nothing comes back exactly when
   * neither detector found anything; every kept pocket is well scored and
   * its consensus is 1 plus 2 per initial pocket closer than the
   * threshold; and each detected pocket's detector is recorded by a kept
   * pocket at or near its centre.
   */
  lemma CombinedProperties(geo: seq<Cavity>, energy: seq<EnergyPocket>, nearby: Point -> seq<Neighbour>, threshold: real)
    ensures |Combined(geo, energy, nearby, threshold)| == 0 <==> |geo| == 0 && |energy| == 0
    ensures forall k :: 0 <= k < |Combined(geo, energy, nearby, threshold)| ==>
      WellScored(Combined(geo, energy, nearby, threshold)[k])
      && Derived(Combined(geo, energy, nearby, threshold)[k], InitialPockets(geo, energy, nearby), threshold)
    ensures forall m :: 0 <= m < |geo| + |energy| ==>
      Answered(Combined(geo, energy, nearby, threshold), InitialPockets(geo, energy, nearby)[m], threshold)
  {
    var init := InitialPockets(geo, energy, nearby);
    var r := Combined(geo, energy, nearby, threshold);
    if |init| > 0 {
      forall m | 0 <= m < |init|
        ensures NoDup(init[m].methods)
      {
        assert init[m].methods == [init[m].detector];
      }
      CombineRecordsProperties(init, threshold);
      forall k | 0 <= k < |r|
        ensures WellScored(r[k])
      {
        DerivedWellScored(r[k], init, threshold);
      }
    }
  }

  /** A record derived from well-scored initial records is well scored. */
  lemma DerivedWellScored(q: Pocket, init: seq<Pocket>, threshold: real)
    requires Derived(q, init, threshold)
    requires forall m :: 0 <= m < |init| ==> WellScored(init[m])
    ensures WellScored(q)
  {
    var m :| 0 <= m < |init| && FromInitial(q, init, m, threshold);
    assert WellScored(init[m]);
  }

  method CombinePockets(geo: seq<Cavity>, energy: seq<EnergyPocket>, nearby: Point -> seq<Neighbour>, threshold: real)
    returns (filtered: seq<Pocket>)
    ensures filtered == Combined(geo, energy, nearby, threshold)
  {
    if |geo| == 0 && |energy| == 0 {
      return [];
    }
    var all := InitialPockets(geo, energy, nearby);
    all := MarkConsensus(all, threshold);
    all := AssignFinalScores(all);
    all := SortDesc(all, FinalKey);
    filtered := SuppressOverlaps(all, threshold);
  }
}
