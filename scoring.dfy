/**
 * `final_scoring` (scoring.py): protein-type adjustment of the consensus
 * scores, the final score, and the automatic significance filter, which
 * keeps the top group of a Ward clustering of the consensus scores or,
 * failing that, the pockets whose consensus lies above the mean.
 */
module Scoring {
  import opened Geometry
  import opened Clusters
  import opened Sorting
  import opened Consensus

  // ---------------------------------------------------------------- protein type

  const EnzymeBoost: real := 1.3
  const TransporterBoost: real := 1.2
  const ReceptorBoost: real := 1.15

  /** The factor the consensus score is multiplied by for the given protein type. */
  function TypeFactor(p: Pocket, proteinType: string): real {
    if proteinType == "enzyme" then
      (if p.knowledge.Some? && p.knowledge.value > 1.5 then EnzymeBoost else 1.0)
    else if proteinType == "transporter" then
      (if p.size > 300 then TransporterBoost else 1.0)
    else if proteinType == "receptor" then
      (if p.druggability.Some? && p.druggability.value > 0.6 then ReceptorBoost else 1.0)
    else 1.0
  }

  /**
   * The factor is one of the four listed values, at least 1, so a
   * non-negative consensus score never decreases; an unlisted protein
   * type changes nothing.
   */
  lemma TypeFactorProperties(p: Pocket, proteinType: string)
    ensures TypeFactor(p, proteinType) in {1.0, EnzymeBoost, TransporterBoost, ReceptorBoost}
    ensures TypeFactor(p, proteinType) >= 1.0
    ensures p.consensus >= 0.0 ==> p.consensus * TypeFactor(p, proteinType) >= p.consensus
    ensures proteinType !in {"enzyme", "transporter", "receptor"} ==> TypeFactor(p, proteinType) == 1.0
    ensures TypeFactor(p, proteinType) == EnzymeBoost <==>
      proteinType == "enzyme" && p.knowledge.Some? && p.knowledge.value > 1.5
  {
  }

  function Adjust(p: Pocket, proteinType: string): Pocket {
    p.(consensus := p.consensus * TypeFactor(p, proteinType))
  }

  /** The records after the type adjustment and the final-score assignment. */
  function Prepared(ps: seq<Pocket>, proteinType: string): (r: seq<Pocket>)
    ensures |r| == |ps|
  {
    WithFinal(seq(|ps|, k requires 0 <= k < |ps| => Adjust(ps[k], proteinType)))
  }

  /**
   * Each prepared record is its input with the consensus scaled by the type
   * factor and the final score recomputed from the scaled consensus.
   */
  lemma PreparedProperties(ps: seq<Pocket>, proteinType: string)
    ensures forall k :: 0 <= k < |ps| ==>
      Prepared(ps, proteinType)[k].consensus == ps[k].consensus * TypeFactor(ps[k], proteinType)
      && Prepared(ps, proteinType)[k].finalScore == FinalScore(Prepared(ps, proteinType)[k])
      && Prepared(ps, proteinType)[k] == ps[k].(consensus := Prepared(ps, proteinType)[k].consensus,
                                              finalScore := Prepared(ps, proteinType)[k].finalScore)
  {
  }

  /** `(consensus_score, final_score)`, the key both sorts use. */
  function RankKey(p: Pocket): Key {
    (p.consensus, p.finalScore)
  }

  function Consensuses(ps: seq<Pocket>): (r: seq<real>)
    ensures |r| == |ps| && forall k :: 0 <= k < |ps| ==> r[k] == ps[k].consensus
  {
    seq(|ps|, k requires 0 <= k < |ps| => ps[k].consensus)
  }

  // ---------------------------------------------------------------- cluster separation

  /** The mean score of cluster `i`, or 0 for an empty cluster. */
  function ClusterMean(scores: seq<real>, labels: seq<int>, i: int): real
    requires |scores| == |labels|
  {
    if Count(labels, i) == 0 then 0.0 else MeanReals(Members(scores, labels, i))
  }

  /** The means of clusters 1, ..., n. */
  function ClusterMeans(scores: seq<real>, labels: seq<int>, n: nat): (r: seq<real>)
    requires |scores| == |labels|
    ensures |r| == n && forall k :: 0 <= k < n ==> r[k] == ClusterMean(scores, labels, k + 1)
  {
    seq(n, k requires 0 <= k < n => ClusterMean(scores, labels, k + 1))
  }

  function RealKey(x: real): Key {
    (x, 0.0)
  }

  /** Largest minus second largest of the means, read off the descending sort. */
  function Separation(means: seq<real>): real
    requires |means| >= 2
  {
    SortDescProperties(means, RealKey);
    SortDesc(means, RealKey)[0] - SortDesc(means, RealKey)[1]
  }

  /** The separation is never negative and its first term is the largest mean. */
  lemma SeparationProperties(means: seq<real>)
    requires |means| >= 2
    ensures Separation(means) >= 0.0
    ensures SortDesc(means, RealKey)[0] in means
    ensures forall k :: 0 <= k < |means| ==> means[k] <= SortDesc(means, RealKey)[0]
  {
    SortDescProperties(means, RealKey);
    var d := SortDesc(means, RealKey);
    assert KeyGe(RealKey(d[0]), RealKey(d[1]));
    assert d[0] in multiset(means);
    forall k | 0 <= k < |means|
      ensures means[k] <= d[0]
    {
      assert means[k] in multiset(d);
      var j :| 0 <= j < |d| && d[j] == means[k];
      if j > 0 {
        assert KeyGe(RealKey(d[0]), RealKey(d[j]));
      }
    }
  }

  /** "Ward" in `ward(scores, n)`: the `maxclust` labels for `n` clusters, one per score. */
  ghost predicate LabelsPerScore(ward: (seq<real>, nat) -> seq<int>) {
    forall scores, n :: |ward(scores, n)| == |scores|
  }

  function SeparationFor(scores: seq<real>, ward: (seq<real>, nat) -> seq<int>, n: nat): real
    requires LabelsPerScore(ward) && n >= 2
  {
    Separation(ClusterMeans(scores, ward(scores, n), n))
  }

  /** Python's `max` keeps the first of equal maxima. */
  function FirstMax(means: seq<real>): (k: nat)
    requires |means| > 0
    ensures k < |means|
  {
    if |means| == 1 then 0
    else
      var k := FirstMax(means[..|means| - 1]);
      if means[|means| - 1] > means[k] then |means| - 1 else k
  }

  lemma {:induction false} FirstMaxProperties(means: seq<real>)
    requires |means| > 0
    ensures forall j :: 0 <= j < |means| ==> means[j] <= means[FirstMax(means)]
    ensures forall j :: 0 <= j < FirstMax(means) ==> means[j] < means[FirstMax(means)]
  {
    if |means| > 1 {
      var n := |means| - 1;
      FirstMaxProperties(means[..n]);
      assert forall j :: 0 <= j < n ==> means[..n][j] == means[j];
    }
  }

  /** The separations for 2, ..., last clusters, in the order the loop tries them. */
  function Separations(scores: seq<real>, ward: (seq<real>, nat) -> seq<int>, last: nat): (r: seq<real>)
    requires LabelsPerScore(ward) && last >= 2
    ensures |r| == last - 1
    decreases last
  {
    if last == 2 then [SeparationFor(scores, ward, 2)]
    else Separations(scores, ward, last - 1) + [SeparationFor(scores, ward, last)]
  }

  lemma {:induction false} SeparationsAt(scores: seq<real>, ward: (seq<real>, nat) -> seq<int>, last: nat, n: nat)
    requires LabelsPerScore(ward) && 2 <= n <= last
    ensures Separations(scores, ward, last)[n - 2] == SeparationFor(scores, ward, n)
    decreases last
  {
    if n < last {
      SeparationsAt(scores, ward, last - 1, n);
    }
  }

  /**
   * The cluster count chosen among 2, ..., last: the first (smallest) one
   * whose separation is largest, since a later count must beat the best
   * so far strictly.
   */
  function BestCount(scores: seq<real>, ward: (seq<real>, nat) -> seq<int>, last: nat): (b: nat)
    requires LabelsPerScore(ward) && last >= 2
    ensures 2 <= b <= last
  {
    FirstMax(Separations(scores, ward, last)) + 2
  }

  /** The chosen count maximises the separation, and no smaller count reaches it. */
  lemma BestCountProperties(scores: seq<real>, ward: (seq<real>, nat) -> seq<int>, last: nat)
    requires LabelsPerScore(ward) && last >= 2
    ensures forall n :: 2 <= n <= last ==>
      SeparationFor(scores, ward, n) <= SeparationFor(scores, ward, BestCount(scores, ward, last))
    ensures forall n :: 2 <= n < BestCount(scores, ward, last) ==>
      SeparationFor(scores, ward, n) < SeparationFor(scores, ward, BestCount(scores, ward, last))
  {
    var seps := Separations(scores, ward, last);
    var best := BestCount(scores, ward, last);
    FirstMaxProperties(seps);
    SeparationsAt(scores, ward, last, best);
    forall n | 2 <= n <= last
      ensures SeparationFor(scores, ward, n) <= SeparationFor(scores, ward, best)
      ensures n < best ==> SeparationFor(scores, ward, n) < SeparationFor(scores, ward, best)
    {
      SeparationsAt(scores, ward, last, n);
    }
  }

  /** `min(4, len(scores))`, the largest cluster count tried. */
  function MaxClusters(n: nat): nat {
    if n < 4 then n else 4
  }

  /** The cluster count the clustering branch settles on. */
  function ChosenCount(ps: seq<Pocket>, ward: (seq<real>, nat) -> seq<int>): (b: nat)
    requires LabelsPerScore(ward) && |ps| >= 3
    ensures 2 <= b <= MaxClusters(|ps|)
  {
    BestCount(Consensuses(ps), ward, MaxClusters(|ps|))
  }

  /** The label of the cluster with the highest mean consensus, lowest label among ties. */
  function TopCluster(ps: seq<Pocket>, ward: (seq<real>, nat) -> seq<int>): nat
    requires LabelsPerScore(ward) && |ps| >= 3
  {
    var scores := Consensuses(ps);
    FirstMax(ClusterMeans(scores, ward(scores, ChosenCount(ps, ward)), ChosenCount(ps, ward))) + 1
  }

  /**
   * The clustering branch on the sorted records: the pockets of the Ward
   * cluster with the highest mean consensus, or all of them if that
   * cluster were empty.
   */
  function ClusterSelect(ps: seq<Pocket>, ward: (seq<real>, nat) -> seq<int>): (r: seq<Pocket>)
    requires LabelsPerScore(ward) && |ps| >= 3
    ensures 0 < |r| <= |ps|
  {
    var kept := Members(ps, ward(Consensuses(ps), ChosenCount(ps, ward)), TopCluster(ps, ward));
    if |kept| > 0 then kept else ps
  }

  /**
   * The clustering branch keeps only records of its input: those labelled
   * with the top cluster, or all of them.
   */
  lemma ClusterSelectProperties(ps: seq<Pocket>, ward: (seq<real>, nat) -> seq<int>)
    requires LabelsPerScore(ward) && |ps| >= 3
    ensures forall p :: p in ClusterSelect(ps, ward) ==> p in ps
  {
  }

  // ---------------------------------------------------------------- statistical fallback

  function Squares(s: seq<real>, m: real): (r: seq<real>)
    ensures |r| == |s| && forall k :: 0 <= k < |s| ==> r[k] == Sq(s[k] - m)
  {
    seq(|s|, k requires 0 <= k < |s| => Sq(s[k] - m))
  }

  /** Population variance (`np.std` squared, `ddof = 0`). */
  function Variance(s: seq<real>): real
    requires |s| > 0
  {
    MeanReals(Squares(s, MeanReals(s)))
  }

  /** `std < 1e-6`, compared squared. */
  predicate NearlyIdentical(s: seq<real>)
    requires |s| > 0
  {
    Variance(s) < 0.000000000001
  }

  /** Indices, ascending, whose score lies above the mean (positive z-score). */
  function AboveMean(s: seq<real>, m: real, upTo: nat): (r: seq<nat>)
    requires upTo <= |s|
    ensures forall j :: 0 <= j < |r| ==> r[j] < upTo && s[r[j]] > m
    ensures forall j, k :: 0 <= j < k < |r| ==> r[j] < r[k]
    ensures forall i :: 0 <= i < upTo && s[i] > m ==> i in r
  {
    if upTo == 0 then []
    else AboveMean(s, m, upTo - 1) + (if s[upTo - 1] > m then [upTo - 1] else [])
  }

  /**
   * Picking the records at the z-score indices `sig`: the first record if
   * there are none; the whole list if an index is past its end (the
   * comprehension raises, the error is caught and the list is kept).
   */
  function PickSignificant(current: seq<Pocket>, sig: seq<nat>): seq<Pocket>
    requires |current| > 0
  {
    if |sig| == 0 then [current[0]]
    else if exists j :: 0 <= j < |sig| && sig[j] >= |current| then current
    else AtIndices(current, sig)
  }

  /** `[current[i] for i in sig]`, every index in range. */
  function AtIndices(current: seq<Pocket>, sig: seq<nat>): (r: seq<Pocket>)
    requires forall j :: 0 <= j < |sig| ==> sig[j] < |current|
    ensures |r| == |sig| && forall j :: 0 <= j < |sig| ==> r[j] == current[sig[j]]
  {
    seq(|sig|, j requires 0 <= j < |sig| => current[sig[j]])
  }

  /** Strictly increasing indices pick no more records than there are, and only records of the list. */
  lemma AtIndicesWithin(current: seq<Pocket>, sig: seq<nat>)
    requires forall j :: 0 <= j < |sig| ==> sig[j] < |current|
    requires forall j, k :: 0 <= j < k < |sig| ==> sig[j] < sig[k]
    ensures |AtIndices(current, sig)| <= |current|
    ensures forall p :: p in AtIndices(current, sig) ==> p in current
  {
    NoDuplicateIndicesFit(sig, |current|);
    var r := AtIndices(current, sig);
    forall p | p in r
      ensures p in current
    {
      var j :| 0 <= j < |r| && r[j] == p;
      assert current[sig[j]] == p;
    }
  }

  /**
   * The fallback as written: `scores` is the consensus list taken before
   * clustering, and the z-score indices refer to it, even when clustering
   * has shortened the list they pick from.
   */
  function Fallback(current: seq<Pocket>, scores: seq<real>): seq<Pocket>
    requires |current| > 0 && |scores| > 1
  {
    if |current| == 1 then current
    else if NearlyIdentical(scores) then [current[0]]
    else PickSignificant(current, AboveMean(scores, MeanReals(scores), |scores|))
  }

  /** Picking at strictly increasing indices keeps at least one record and nothing else. */
  lemma PickWithin(current: seq<Pocket>, sig: seq<nat>)
    requires |current| > 0
    requires forall j, k :: 0 <= j < k < |sig| ==> sig[j] < sig[k]
    ensures 0 < |PickSignificant(current, sig)| <= |current|
    ensures forall p :: p in PickSignificant(current, sig) ==> p in current
  {
    if |sig| > 0 && forall j :: 0 <= j < |sig| ==> sig[j] < |current| {
      AtIndicesWithin(current, sig);
    }
  }

  /** The fallback keeps at least one of its records and nothing else. */
  lemma FallbackProperties(current: seq<Pocket>, scores: seq<real>)
    requires |current| > 0 && |scores| > 1
    ensures 0 < |Fallback(current, scores)| <= |current|
    ensures forall p :: p in Fallback(current, scores) ==> p in current
    ensures |current| == 1 ==> Fallback(current, scores) == current
    ensures |current| > 1 && NearlyIdentical(scores) ==> Fallback(current, scores) == [current[0]]
  {
    if |current| > 1 && !NearlyIdentical(scores) {
      PickWithin(current, AboveMean(scores, MeanReals(scores), |scores|));
    }
  }

  /** Strictly increasing indices below `n` number at most `n`. */
  lemma {:induction false} NoDuplicateIndicesFit(sig: seq<nat>, n: nat)
    requires forall j, k :: 0 <= j < k < |sig| ==> sig[j] < sig[k]
    requires forall j :: 0 <= j < |sig| ==> sig[j] < n
    ensures |sig| <= n
  {
    if |sig| > 0 {
      var m := |sig| - 1;
      NoDuplicateIndicesFit(sig[..m], sig[m]);
    }
  }

  /** Picking at the indices of the above-mean scores keeps exactly the above-mean records. */
  lemma {:induction false} PickAboveMean(current: seq<Pocket>, scores: seq<real>, m: real, sig: seq<nat>)
    requires |current| == |scores| > 0 && Consensuses(current) == scores
    requires forall j :: 0 <= j < |sig| ==> sig[j] < |scores| && scores[sig[j]] > m
    requires forall i :: 0 <= i < |scores| && scores[i] > m ==> i in sig
    requires |sig| > 0
    ensures forall p :: p in PickSignificant(current, sig) ==> p.consensus > m
    ensures forall i :: 0 <= i < |current| && current[i].consensus > m ==> current[i] in PickSignificant(current, sig)
  {
    var r := AtIndices(current, sig);
    assert PickSignificant(current, sig) == r;
    forall p | p in r
      ensures p.consensus > m
    {
      var j :| 0 <= j < |r| && r[j] == p;
      assert p.consensus == Consensuses(current)[sig[j]];
    }
    forall k | 0 <= k < |current| && current[k].consensus > m
      ensures current[k] in r
    {
      assert scores[k] == Consensuses(current)[k];
      var j :| 0 <= j < |sig| && sig[j] == k;
      assert r[j] == current[k];
    }
  }

  lemma {:induction false} SumAtMost(s: seq<real>, m: real)
    requires forall i :: 0 <= i < |s| ==> s[i] <= m
    ensures SumReals(s) <= (|s| as real) * m
  {
    if |s| > 0 {
      SumAtMost(s[..|s| - 1], m);
    }
  }

  /** Values none of which exceeds `m` and whose sum is `|s| * m` all equal `m`. */
  lemma {:induction false} AllAtMean(s: seq<real>, m: real)
    requires forall i :: 0 <= i < |s| ==> s[i] <= m
    requires SumReals(s) == (|s| as real) * m
    ensures forall i :: 0 <= i < |s| ==> s[i] == m
  {
    if |s| > 0 {
      var n := |s| - 1;
      var init := s[..n];
      assert forall i :: 0 <= i < n ==> init[i] == s[i];
      SumAtMost(init, m);
      assert SumReals(s) == SumReals(init) + s[n];
      AllAtMean(init, m);
    }
  }

  /** Scores that are not all equal have one above their mean. */
  lemma SomeAboveMean(s: seq<real>)
    requires |s| > 0 && Variance(s) > 0.0
    ensures exists i :: 0 <= i < |s| && s[i] > MeanReals(s)
  {
    var m := MeanReals(s);
    if forall i :: 0 <= i < |s| ==> s[i] <= m {
      var n := |s| as real;
      assert SumReals(s) == n * m;
      AllAtMean(s, m);
      MeanBounds(Squares(s, m), 0.0, 0.0);
      assert false;
    }
  }

  /**
   * When the list still holds every record the scores were taken from and
   * the scores are not nearly identical, the fallback keeps exactly the
   * records whose consensus lies above the mean (positive z-score); the
   * "none above the mean" branch cannot be taken.
   */
  lemma FallbackAboveMean(current: seq<Pocket>, scores: seq<real>)
    requires |current| > 1 && |scores| > 1
    requires Consensuses(current) == scores
    requires !NearlyIdentical(scores)
    ensures forall p :: p in Fallback(current, scores) ==> p.consensus > MeanReals(scores)
    ensures forall i :: 0 <= i < |current| && current[i].consensus > MeanReals(scores) ==>
      current[i] in Fallback(current, scores)
  {
    var m := MeanReals(scores);
    var sig := AboveMean(scores, m, |scores|);
    SomeAboveMean(scores);
    var i :| 0 <= i < |scores| && scores[i] > m;
    assert i in sig;
    assert Fallback(current, scores) == PickSignificant(current, sig);
    PickAboveMean(current, scores, m, sig);
  }

  /** Equal scores have zero variance, so only the first record is kept. */
  lemma IdenticalScores(current: seq<Pocket>, scores: seq<real>, v: real)
    requires |current| > 1 && |scores| > 1
    requires forall i :: 0 <= i < |scores| ==> scores[i] == v
    ensures Fallback(current, scores) == [current[0]]
  {
    MeanBounds(scores, v, v);
    MeanBounds(Squares(scores, MeanReals(scores)), 0.0, 0.0);
  }

  // ---------------------------------------------------------------- final_scoring

  /** The significance filter on the sorted records. */
  function Filtered(sorted: seq<Pocket>, ward: (seq<real>, nat) -> seq<int>): seq<Pocket>
    requires LabelsPerScore(ward)
  {
    if |sorted| <= 1 then sorted
    else
      var scores := Consensuses(sorted);
      var current := if |sorted| >= 3 then ClusterSelect(sorted, ward) else sorted;
      if |current| <= 2 || |current| == |scores| then Fallback(current, scores) else current
  }

  /** `final_scoring`. */
  function FinalScored(ps: seq<Pocket>, proteinType: string, ward: (seq<real>, nat) -> seq<int>): seq<Pocket>
    requires LabelsPerScore(ward)
  {
    if |ps| == 0 then []
    else SortDesc(Filtered(SortDesc(Prepared(ps, proteinType), RankKey), ward), RankKey)
  }

  lemma FilteredProperties(sorted: seq<Pocket>, ward: (seq<real>, nat) -> seq<int>)
    requires LabelsPerScore(ward)
    ensures |Filtered(sorted, ward)| <= |sorted|
    ensures |sorted| > 0 ==> |Filtered(sorted, ward)| > 0
    ensures forall p :: p in Filtered(sorted, ward) ==> p in sorted
  {
    if |sorted| > 1 {
      var scores := Consensuses(sorted);
      if |sorted| >= 3 {
        ClusterSelectProperties(sorted, ward);
      }
      var current := if |sorted| >= 3 then ClusterSelect(sorted, ward) else sorted;
      FallbackProperties(current, scores);
    }
  }

  /** What leaves is the input records, prepared, in descending (consensus, final score) order. */
  lemma FinalScoredSound(ps: seq<Pocket>, proteinType: string, ward: (seq<real>, nat) -> seq<int>)
    requires LabelsPerScore(ward) && |ps| > 0
    ensures 0 < |FinalScored(ps, proteinType, ward)| <= |ps|
    ensures forall p :: p in FinalScored(ps, proteinType, ward) ==> p in Prepared(ps, proteinType)
    ensures SortedDesc(FinalScored(ps, proteinType, ward), RankKey)
  {
    var prepared := Prepared(ps, proteinType);
    var sorted := SortDesc(prepared, RankKey);
    SortDescProperties(prepared, RankKey);
    FilteredProperties(sorted, ward);
    var filtered := Filtered(sorted, ward);
    SortDescProperties(filtered, RankKey);
    forall p | p in SortDesc(filtered, RankKey)
      ensures p in prepared
    {
      assert p in multiset(SortDesc(filtered, RankKey));
      assert p in filtered;
      assert p in multiset(sorted);
    }
  }

  /** A single pocket is returned, prepared, without filtering. */
  lemma FinalScoredSingle(ps: seq<Pocket>, proteinType: string, ward: (seq<real>, nat) -> seq<int>)
    requires LabelsPerScore(ward) && |ps| == 1
    ensures FinalScored(ps, proteinType, ward) == [Prepared(ps, proteinType)[0]]
  {
    var prepared := Prepared(ps, proteinType);
    assert prepared == [prepared[0]];
    assert prepared[..0] == [];
    assert SortDesc(prepared, RankKey) == [prepared[0]];
  }

  /**
   * No pockets in, none out; otherwise at least one leaves. Every pocket
   * that leaves is one of the inputs with its consensus scaled by the type
   * factor and its final score recomputed, and the result is in descending
   * (consensus, final score) order. A single pocket is returned unfiltered.
   */
  lemma FinalScoredProperties(ps: seq<Pocket>, proteinType: string, ward: (seq<real>, nat) -> seq<int>)
    requires LabelsPerScore(ward)
    ensures |ps| == 0 ==> FinalScored(ps, proteinType, ward) == []
    ensures |ps| > 0 ==> 0 < |FinalScored(ps, proteinType, ward)| <= |ps|
    ensures forall p :: p in FinalScored(ps, proteinType, ward) ==> p in Prepared(ps, proteinType)
    ensures SortedDesc(FinalScored(ps, proteinType, ward), RankKey)
    ensures |ps| == 1 ==> FinalScored(ps, proteinType, ward) == [Prepared(ps, proteinType)[0]]
  {
    if |ps| > 0 {
      FinalScoredSound(ps, proteinType, ward);
    }
    if |ps| == 1 {
      FinalScoredSingle(ps, proteinType, ward);
    }
  }

  // ---------------------------------------------------------------- the procedure

  /** The loop over the records that scales each consensus score by its type factor. */
  method AdjustForType(ps: seq<Pocket>, proteinType: string) returns (qs: seq<Pocket>)
    ensures |qs| == |ps| && forall k :: 0 <= k < |ps| ==> qs[k] == Adjust(ps[k], proteinType)
  {
    qs := ps;
    var k := 0;
    while k < |qs|
      invariant k <= |qs| == |ps|
      invariant forall n :: 0 <= n < k ==> qs[n] == Adjust(ps[n], proteinType)
      invariant forall n :: k <= n < |qs| ==> qs[n] == ps[n]
    {
      var p := qs[k];
      if proteinType == "enzyme" {
        if p.knowledge.Some? && p.knowledge.value > 1.5 {
          qs := qs[k := p.(consensus := p.consensus * EnzymeBoost)];
        }
      } else if proteinType == "transporter" {
        if p.size > 300 {
          qs := qs[k := p.(consensus := p.consensus * TransporterBoost)];
        }
      } else if proteinType == "receptor" {
        if p.druggability.Some? && p.druggability.value > 0.6 {
          qs := qs[k := p.(consensus := p.consensus * ReceptorBoost)];
        }
      }
      k := k + 1;
    }
  }

  /** The means of clusters 1, ..., n, one cluster at a time. */
  method ComputeClusterMeans(scores: seq<real>, labels: seq<int>, n: nat) returns (means: seq<real>)
    requires |scores| == |labels|
    ensures means == ClusterMeans(scores, labels, n)
  {
    means := [];
    var i := 1;
    while i <= n
      invariant 1 <= i <= n + 1
      invariant |means| == i - 1
      invariant forall k :: 0 <= k < i - 1 ==> means[k] == ClusterMean(scores, labels, k + 1)
    {
      var members := Members(scores, labels, i);
      if |members| > 0 {
        means := means + [MeanReals(members)];
      } else {
        means := means + [0.0];
      }
      i := i + 1;
    }
  }

  /** One more count replaces the best so far only with a strictly larger separation. */
  lemma BestCountStep(scores: seq<real>, ward: (seq<real>, nat) -> seq<int>, n: nat, best: nat)
    requires LabelsPerScore(ward) && n > 2 && best == BestCount(scores, ward, n - 1)
    ensures BestCount(scores, ward, n) ==
      if SeparationFor(scores, ward, n) > SeparationFor(scores, ward, best) then n else best
  {
    var seps := Separations(scores, ward, n);
    assert seps[..n - 2] == Separations(scores, ward, n - 1);
    SeparationsAt(scores, ward, n - 1, best);
  }

  /**
   * The search over 2, ..., last clusters; `haveBest` stands for the
   * minus-infinity start, which the first separation always beats.
   */
  method ChooseClusterCount(scores: seq<real>, ward: (seq<real>, nat) -> seq<int>, last: nat) returns (best: nat)
    requires LabelsPerScore(ward) && last >= 2
    ensures best == BestCount(scores, ward, last)
  {
    best := 2;
    var bestScore := 0.0;
    var haveBest := false;
    var n := 2;
    while n <= last
      invariant 2 <= n <= last + 1
      invariant haveBest <==> n > 2
      invariant haveBest ==> best == BestCount(scores, ward, n - 1)
      invariant haveBest ==> bestScore == SeparationFor(scores, ward, best)
    {
      var labels := ward(scores, n);
      var means := ComputeClusterMeans(scores, labels, n);
      var separation := Separation(means);
      assert separation == SeparationFor(scores, ward, n);
      if haveBest {
        BestCountStep(scores, ward, n, best);
      }
      if !haveBest || separation > bestScore {
        bestScore := separation;
        best := n;
      }
      haveBest := true;
      n := n + 1;
    }
  }

  /** The scan for the first largest mean. */
  method IndexOfMax(means: seq<real>) returns (k: nat)
    requires |means| > 0
    ensures k == FirstMax(means)
  {
    k := 0;
    var j := 1;
    while j < |means|
      invariant 1 <= j <= |means|
      invariant k == FirstMax(means[..j])
    {
      assert means[..j + 1][..j] == means[..j];
      if means[j] > means[k] {
        k := j;
      }
      j := j + 1;
    }
    assert means[..|means|] == means;
  }

  /** The clustering branch. */
  method SelectByClusters(ps: seq<Pocket>, ward: (seq<real>, nat) -> seq<int>) returns (current: seq<Pocket>)
    requires LabelsPerScore(ward) && |ps| >= 3
    ensures current == ClusterSelect(ps, ward)
  {
    var scores := Consensuses(ps);
    var maxClusters := MaxClusters(|ps|);
    var best := ChooseClusterCount(scores, ward, maxClusters);
    assert best == ChosenCount(ps, ward);
    var labels := ward(scores, best);
    var means := ComputeClusterMeans(scores, labels, best);
    var top := IndexOfMax(means);
    assert top + 1 == TopCluster(ps, ward);
    var filtered := Members(ps, labels, top + 1);
    if |filtered| > 0 {
      current := filtered;
    } else {
      current := ps;
    }
  }

  /** The comprehension over the z-score indices, which stops at the first index past the end. */
  method PickAtIndices(current: seq<Pocket>, sig: seq<nat>) returns (picked: seq<Pocket>)
    requires |current| > 0 && |sig| > 0
    ensures picked == PickSignificant(current, sig)
  {
    var chosen := [];
    var j := 0;
    while j < |sig|
      invariant 0 <= j <= |sig|
      invariant |chosen| == j
      invariant forall l :: 0 <= l < j ==> sig[l] < |current| && chosen[l] == current[sig[l]]
    {
      if sig[j] >= |current| {
        return current;
      }
      chosen := chosen + [current[sig[j]]];
      j := j + 1;
    }
    picked := chosen;
  }

  /** The statistical fallback. */
  method StatisticalFallback(current: seq<Pocket>, scores: seq<real>) returns (kept: seq<Pocket>)
    requires |current| > 0 && |scores| > 1
    ensures kept == Fallback(current, scores)
  {
    if |current| == 1 {
      return current;
    }
    if NearlyIdentical(scores) {
      return [current[0]];
    }
    var sig := AboveMean(scores, MeanReals(scores), |scores|);
    if |sig| > 0 {
      kept := PickAtIndices(current, sig);
    } else {
      kept := [current[0]];
    }
  }

  /** `final_scoring`, step by step. */
  method FinalScoring(pockets: seq<Pocket>, proteinType: string, ward: (seq<real>, nat) -> seq<int>)
    returns (result: seq<Pocket>)
    requires LabelsPerScore(ward)
    ensures result == FinalScored(pockets, proteinType, ward)
  {
    if |pockets| == 0 {
      return [];
    }
    var adjusted := AdjustForType(pockets, proteinType);
    var scored := AssignFinalScores(adjusted);
    assert scored == Prepared(pockets, proteinType);
    var sorted := SortDesc(scored, RankKey);
    var current := sorted;
    if |sorted| > 1 {
      var scores := Consensuses(sorted);
      if |scores| >= 3 {
        current := SelectByClusters(sorted, ward);
      }
      if |current| <= 2 || |current| == |scores| {
        current := StatisticalFallback(current, scores);
      }
    }
    result := SortDesc(current, RankKey);
  }
}
