/**
 * The two per-pocket scores of `ConsensusPocketFinder` (finder.py): the
 * residue-composition rule table `evaluate_with_knowledge_base` and the
 * piecewise-linear `calculate_druggability_score`.  Both read only the
 * names of the pocket's residues (as `get_pocket_residues` lists them),
 * so both are stated on that list of names.
 */
module Scores {

  const Hydrophobic: seq<string> := ["ALA", "VAL", "LEU", "ILE", "MET", "PHE", "TRP", "PRO"]
  const Polar: seq<string> := ["SER", "THR", "CYS", "TYR", "ASN", "GLN", "HIS"]
  const Charged: seq<string> := ["LYS", "ARG", "ASP", "GLU"]
  const Aromatic: seq<string> := ["PHE", "TYR", "TRP", "HIS"]
  const MetalBinding: seq<string> := ["HIS", "CYS", "ASP", "GLU"]
  const CatalyticPairs: seq<(string, string)> := [
    ("HIS", "ASP"), ("SER", "HIS"), ("CYS", "HIS"),
    ("LYS", "ASP"), ("ARG", "ASP"), ("ARG", "GLU")
  ]

  /** `sum(1 for res in names if res in group)`, counted through the multiset of names. */
  function Tally(m: multiset<string>, group: seq<string>): nat {
    if |group| == 0 then 0 else Tally(m, group[..|group| - 1]) + m[group[|group| - 1]]
  }

  lemma {:induction false} TallyMonotone(m1: multiset<string>, m2: multiset<string>, group: seq<string>)
    requires m1 <= m2
    ensures Tally(m1, group) <= Tally(m2, group)
  {
    if |group| > 0 {
      TallyMonotone(m1, m2, group[..|group| - 1]);
    }
  }

  lemma {:induction false} TallyEmpty(group: seq<string>)
    ensures Tally(multiset{}, group) == 0
  {
    if |group| > 0 {
      TallyEmpty(group[..|group| - 1]);
    }
  }

  /** How many catalytic pairs are both present. */
  function PairsPresent(m: multiset<string>, pairs: seq<(string, string)>): (n: nat)
    ensures n <= |pairs|
  {
    if |pairs| == 0 then 0
    else
      var p := pairs[|pairs| - 1];
      PairsPresent(m, pairs[..|pairs| - 1]) + (if p.0 in m && p.1 in m then 1 else 0)
  }

  lemma {:induction false} PairsMonotone(m1: multiset<string>, m2: multiset<string>, pairs: seq<(string, string)>)
    requires m1 <= m2
    ensures PairsPresent(m1, pairs) <= PairsPresent(m2, pairs)
  {
    if |pairs| > 0 {
      PairsMonotone(m1, m2, pairs[..|pairs| - 1]);
    }
  }

  function Bonus(c: bool, v: real): real {
    if c then v else 0.0
  }

  /** The seven rules of `evaluate_with_knowledge_base`, on the multiset of residue names. */
  function KnowledgeOf(m: multiset<string>): real {
    Bonus(Tally(m, Hydrophobic) > 0 && (Tally(m, Polar) > 0 || Tally(m, Charged) > 0), 1.0)
    + 0.5 * PairsPresent(m, CatalyticPairs) as real
    + Bonus(Tally(m, Aromatic) >= 2, 0.5)
    + Bonus("HIS" in m && ("MET" in m || "CYS" in m), 1.0)
    + Bonus(m["GLY"] >= 3 && ("LYS" in m || "ARG" in m), 1.0)
    + Bonus(Tally(m, MetalBinding) >= 3, 1.0)
    + Bonus(("SER" in m && "HIS" in m && "ASP" in m) || ("CYS" in m && "HIS" in m && "ASP" in m), 1.5)
  }

  /** `evaluate_with_knowledge_base` on the names of the pocket's residues. */
  function KnowledgeScore(names: seq<string>): real {
    KnowledgeOf(multiset(names))
  }

  /** The score lies in [0, 9], and a pocket without residues scores 0. */
  lemma KnowledgeRange(names: seq<string>)
    ensures 0.0 <= KnowledgeScore(names) <= 9.0
    ensures |names| == 0 ==> KnowledgeScore(names) == 0.0
  {
    if |names| == 0 {
      TallyEmpty(Hydrophobic);
      TallyEmpty(Aromatic);
      TallyEmpty(MetalBinding);
      var m: multiset<string> := multiset{};
      assert PairsPresent(m, CatalyticPairs) == 0 by {
        var k := 0;
        while k < |CatalyticPairs|
          invariant 0 <= k <= |CatalyticPairs|
          invariant PairsPresent(m, CatalyticPairs[..k]) == 0
        {
          assert CatalyticPairs[..k + 1][..k] == CatalyticPairs[..k];
          k := k + 1;
        }
        assert CatalyticPairs[..k] == CatalyticPairs;
      }
    }
  }

  /** Every rule is a presence, count or subset test, so more residues never lower the score. */
  lemma KnowledgeMonotone(a: seq<string>, b: seq<string>)
    requires multiset(a) <= multiset(b)
    ensures KnowledgeScore(a) <= KnowledgeScore(b)
  {
    var m1, m2 := multiset(a), multiset(b);
    TallyMonotone(m1, m2, Hydrophobic);
    TallyMonotone(m1, m2, Polar);
    TallyMonotone(m1, m2, Charged);
    TallyMonotone(m1, m2, Aromatic);
    TallyMonotone(m1, m2, MetalBinding);
    PairsMonotone(m1, m2, CatalyticPairs);
    assert m1["GLY"] <= m2["GLY"];
  }

  // ---------------------------------------------------------------- druggability

  function Abs(x: real): (r: real)
    ensures r >= 0.0 && (r == x || r == -x)
  {
    if x < 0.0 then -x else x
  }

  function Clip0(x: real): (r: real)
    ensures r >= 0.0 && r >= x && (r == x || r == 0.0)
  {
    if x < 0.0 then 0.0 else x
  }

  /** Volume term: 1 at 500 A^3 (size 62.5), falling linearly to 0 at 200 and 800. */
  function VolumeTerm(size: nat): real {
    Clip0(1.0 - Abs(size as real * 8.0 - 500.0) / 300.0)
  }

  function HydrophobicFraction(names: seq<string>): real {
    Tally(multiset(names), Hydrophobic) as real / (if |names| < 1 then 1 else |names|) as real
  }

  /** Hydrophobic term: 1 at a fraction of 0.6, falling linearly to 0 at 0.2 and 1.0. */
  function HydrophobicTerm(frac: real): real {
    Clip0(1.0 - Abs(frac - 0.6) / 0.4)
  }

  /** `calculate_druggability_score`, from the pocket size and its residue names. */
  function Druggability(size: nat, names: seq<string>): real {
    (VolumeTerm(size) + HydrophobicTerm(HydrophobicFraction(names))) / 2.0
  }

  lemma TermsAtMostOne(size: nat, frac: real)
    ensures 0.0 <= VolumeTerm(size) <= 1.0
    ensures 0.0 <= HydrophobicTerm(frac) <= 1.0
  {
  }

  /** Druggability lies in [0, 1]. */
  lemma DruggabilityRange(size: nat, names: seq<string>)
    ensures 0.0 <= Druggability(size, names) <= 1.0
  {
    TermsAtMostOne(size, HydrophobicFraction(names));
  }

  /** The volume term vanishes exactly for pockets of at most 25 or at least 100 points. */
  lemma VolumeTermZero(size: nat)
    ensures VolumeTerm(size) == 0.0 <==> size <= 25 || size >= 100
  {
    var v := size as real * 8.0;
    if size <= 25 {
      assert v <= 200.0;
    } else if size >= 100 {
      assert v >= 800.0;
    } else {
      assert 26.0 <= size as real <= 99.0;
      assert 208.0 <= v <= 792.0;
      assert Abs(v - 500.0) <= 292.0;
    }
  }

  /** A pocket without residues has hydrophobic fraction 0, so its hydrophobic term is 0. */
  lemma DruggabilityNoResidues(size: nat)
    ensures HydrophobicFraction([]) == 0.0
    ensures HydrophobicTerm(HydrophobicFraction([])) == 0.0
    ensures Druggability(size, []) == VolumeTerm(size) / 2.0
  {
    TallyEmpty(Hydrophobic);
  }

  /** The fraction counts the share of the residues that are hydrophobic. */
  lemma FractionRange(names: seq<string>)
    ensures 0.0 <= HydrophobicFraction(names) <= 1.0
  {
    var m := multiset(names);
    assert Tally(m, Hydrophobic) <= |names| by {
      TallyDistinctBound(m, Hydrophobic);
    }
    Share(Tally(m, Hydrophobic), if |names| < 1 then 1 else |names|);
  }

  lemma Share(t: nat, n: nat)
    requires 0 < n && t <= n
    ensures 0.0 <= t as real / n as real <= 1.0
  {
  }

  /** A tally over distinct names never exceeds the number of names. */
  lemma {:induction false} TallyDistinctBound(m: multiset<string>, group: seq<string>)
    requires forall i, j :: 0 <= i < j < |group| ==> group[i] != group[j]
    ensures Tally(m, group) <= |m|
  {
    if |group| > 0 {
      var last := group[|group| - 1];
      var rest := m[last := 0];
      TallyDistinctBound(rest, group[..|group| - 1]);
      TallyIgnores(m, last, group[..|group| - 1]);
      assert m == rest + multiset{}[last := m[last]];
      assert |m| == |rest| + m[last];
    }
  }

  /** Removing a name the group does not list leaves the tally unchanged. */
  lemma {:induction false} TallyIgnores(m: multiset<string>, x: string, group: seq<string>)
    requires x !in group
    ensures Tally(m[x := 0], group) == Tally(m, group)
  {
    if |group| > 0 {
      TallyIgnores(m, x, group[..|group| - 1]);
    }
  }
}
