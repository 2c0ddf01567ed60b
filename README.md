# ConSBind core, modelled in Dafny

ConSBind predicts ligand-binding pockets on a protein structure. Several
detectors propose candidate pockets:

- a grid search for buried empty points (`get_cavities`);
- a geometric search over surface atoms, with a wider probe when too few are found;
- an energy pass over sampled grid points;
- a knowledge base keyed by protein type;
- a druggability estimate.

`combine_pockets` merges the proposals into consensus pockets, scores them
and ranks them. `final_scoring` rescales them by protein type and keeps
the best cluster of scores. The output layer writes a predictions summary,
a PDB of site atoms, and PyMOL and Chimera colourings. The analysis script
reads the summary back (`pred_scores`) and compares a prediction with a
reference site: precision, recall, F1, voxel Jaccard, volume similarity
and pocket complexity.

The Dafny modules follow that structure:

- `Geometry`, `Grid`: points, squared distances and the grid walk.
- `Protein`: residues, atoms and the hydrophobic, polar and charged residue sets.
- `Structure`: surface atoms, pocket residues, hydrophobicity and electrostatics.
- `Cavities`: `get_cavities`, including the buried-point test and the clustering of kept points.
- `Clusters`, `Sorting`: label grouping, and the stable descending sort that every ranking uses.
- `Scores`: the knowledge base and druggability scores.
- `Finder`: `_is_concave`, the geometric escalation, the surface and energy pockets.
- `Consensus`: `combine_pockets`.
- `Scoring`: `final_scoring`.
- `Output`, `Text`: the summary and PDB records, with the PyMOL and Chimera colours.
- `Analysis`: `pred_scores`.
- `Evaluation`: the metrics.
- `Wrappers`: `Option`.

Two defects of the code are modelled both as written and corrected; see
"## Findings". The ligand selection of `get_cavities` is a parameter,
`Cavities.LigandRule`: `NameAsWritten` is the name-based test of
structure.py:101 as written, `HeteroFlag` the hetero-flag test it
evidently means. `Cavities.GetCavities`, `Finder.FindPocketsGeometric`
and the lemmas about them are stated and proved for either rule. One more is modelled as written
without a corrected twin: in `final_scoring`, the z-score fallback indexes
the stale `scores` list (scoring.py:74 and 162) after `current` has
shortened. An index past the end raises, the exception is caught, and the
list is kept whole; `Scoring.StatisticalFallback` states exactly that.

## Model

| member | source | states |
|---|---|---|
| Scoring.TypeFactorProperties | ConSBind/core/scoring.py:41-55 | the consensus factor is 1.3 exactly for an enzyme whose knowledge score exceeds 1.5; it is otherwise 1.2 or 1.15 under the transporter and receptor rules, and 1 for an unlisted type; it is never below 1, so a non-negative consensus never decreases |
| Scoring.PreparedProperties | ConSBind/core/scoring.py:41-66 | each prepared record is its input with the consensus scaled by its type factor and `final_score` recomputed as consensus x 3.0 + score x 0.5 from the scaled consensus; nothing else changes |
| Scoring.AdjustForType | ConSBind/core/scoring.py:41-55 | the loop leaves record k scaled by the factor of its own type rule, for every k |
| Scoring.SeparationProperties | ConSBind/core/scoring.py:102-104 | the separation (largest minus second-largest mean) is never negative; its first term is one of the means and no mean exceeds it |
| Scoring.ComputeClusterMeans | ConSBind/core/scoring.py:94-100 | the means of clusters 1..n in label order, an empty cluster counting as 0 |
| Scoring.FirstMaxProperties | ConSBind/core/scoring.py:121 | `max(..., key=...)` picks an index whose mean no other mean exceeds, and every earlier index has a strictly smaller mean (the first of equal maxima) |
| Scoring.IndexOfMax | ConSBind/core/scoring.py:121 | the scan returns that first maximal index |
| Scoring.BestCount | ConSBind/core/scoring.py:87-107 | the cluster count chosen lies in 2..last |
| Scoring.BestCountProperties | ConSBind/core/scoring.py:91-107 | the chosen count has a separation no count in 2..last exceeds, and every smaller count has a strictly smaller separation (strict `>` keeps the smallest count among ties) |
| Scoring.BestCountStep | ConSBind/core/scoring.py:105-107 | trying one more count replaces the best so far exactly when its separation is strictly larger |
| Scoring.ChooseClusterCount | ConSBind/core/scoring.py:87-107 | the search loop, started from minus infinity, ends on the count `BestCount` characterises |
| Scoring.ChosenCount | ConSBind/core/scoring.py:87-107 | the count tried last is `min(4, len(scores))`, and the chosen count lies between 2 and it |
| Scoring.ClusterSelect | ConSBind/core/scoring.py:110-129 | the clustering branch keeps at least one record and no more than it was given |
| Scoring.ClusterSelectProperties | ConSBind/core/scoring.py:120-129 | every record it keeps is one of its input records |
| Scoring.SelectByClusters | ConSBind/core/scoring.py:78-129 | the clustering branch step by step: it keeps the members of the top cluster of the chosen count, or every record when that cluster is empty |
| Scoring.AboveMean | ConSBind/core/scoring.py:156-159 | the positive z-score indices are exactly the indices whose score lies above the mean, strictly ascending |
| Scoring.PickWithin | ConSBind/core/scoring.py:161-167 | picking at strictly increasing indices keeps at least one record and only records of the list; an index past the end keeps the list |
| Scoring.PickAtIndices | ConSBind/core/scoring.py:162-173 | the comprehension picks `current[i]` for each index, and an index past the end (the swallowed IndexError) leaves the list unchanged |
| Scoring.FallbackProperties | ConSBind/core/scoring.py:136-173 | the fallback keeps at least one record and only records it was given; a single record is kept unfiltered and nearly identical scores keep only the first record |
| Scoring.SomeAboveMean | ConSBind/core/scoring.py:159-168 | scores of positive variance have one above their mean, so the "none above the mean" branch is dead once the variance test has failed |
| Scoring.FallbackAboveMean | ConSBind/core/scoring.py:156-164 | while the list still holds the records the scores were taken from, the fallback keeps exactly the records whose consensus lies above the mean (z > 0 iff above the mean) |
| Scoring.IdenticalScores | ConSBind/core/scoring.py:145-148 | equal scores have zero standard deviation, so only the first record is kept |
| Scoring.StatisticalFallback | ConSBind/core/scoring.py:136-173 | the fallback computed step by step, including the stale `scores` from line 74 |
| Scoring.FilteredProperties | ConSBind/core/scoring.py:72-173 | the significance filter never grows the list, keeps a non-empty list non-empty and keeps only its input records |
| Scoring.FinalScoredSound | ConSBind/core/scoring.py:19-184 | a non-empty input leaves between 1 and `len(input)` records, each one a prepared input, sorted descending by (consensus, final score) |
| Scoring.FinalScoredSingle | ConSBind/core/scoring.py:136-139 | a single pocket is returned prepared and unfiltered (also line 72) |
| Scoring.FinalScoredProperties | ConSBind/core/scoring.py:19-184 | empty in, empty out; all the above properties together (the empty case is lines 36-38) |
| Scoring.FinalScoring | ConSBind/core/scoring.py:19-184 | the procedure returns exactly the list `FinalScored` describes |
| Consensus.GeometricRecord | ConSBind/core/finder.py:221-243 | a geometric pocket becomes a record detected geometrically and well scored: druggability in [0,1], knowledge score in [0,9], score = 0.2 x size + druggability + 1.2 x knowledge |
| Consensus.EnergyRecord | ConSBind/core/finder.py:246-255 | an energy pocket becomes a record detected by energy, with no druggability or knowledge score |
| Consensus.InitialPockets | ConSBind/core/finder.py:218-255 | all geometric records, then all energy records: each with consensus 1, its own method as its only method, and well scored; energy records keep their cluster score |
| Consensus.CloseSymmetric | ConSBind/core/finder.py:260-261 | "closer than the threshold" does not depend on the order of the pair |
| Consensus.Missing | ConSBind/core/finder.py:266-268 | `[m for m in b if m not in a]` holds exactly the methods of `b` not in `a`, without repeats when `b` has none |
| Consensus.Merge | ConSBind/core/finder.py:266-268 | `a.extend(...)` keeps `a` as a prefix, holds exactly the methods of `a` or `b`, and has no repeats when neither has |
| Consensus.AddMissing | ConSBind/core/finder.py:291-293 | appending one by one each method the list lacks keeps the list as a prefix, holds exactly the methods of both, and adds no repeat |
| Consensus.CloseMerge | ConSBind/core/finder.py:261-268 | a close pair raises both consensus scores by 2, leaves other records alone, grows both method lists without repeats, and gives both the union of their methods |
| Consensus.VisitStep | ConSBind/core/finder.py:258-263 | visiting pair (i, j) counts it for i and j when they are close, and for no other pocket |
| Consensus.VisitRow | ConSBind/core/finder.py:258-259 | finishing row i is the same count as starting row i + 1 |
| Consensus.VisitDone | ConSBind/core/finder.py:258-259 | once every row is done, each pocket has counted all its close partners |
| Consensus.VisitConsensus | ConSBind/core/finder.py:261-263 | one visit adds 2 to the consensus of i and j when they are close and changes no other consensus |
| Consensus.VisitMethods | ConSBind/core/finder.py:266-268 | one visit only appends to method lists and keeps them without repeats |
| Consensus.CountInRow | ConSBind/core/finder.py:259-263 | one more inner-loop step keeps the consensus count invariant |
| Consensus.CountAt | ConSBind/core/finder.py:258-263 | before pair (i, j) is visited, each consensus score has gained 2 for each close pair already visited |
| Consensus.ShapeInRow | ConSBind/core/finder.py:259-268 | one more inner-loop step changes nothing but consensus and methods |
| Consensus.ShapeAll | ConSBind/core/finder.py:258-268 | the double loop changes nothing in a record but its consensus and its methods |
| Consensus.GrownAt | ConSBind/core/finder.py:266-268 | method lists only grow: each original list stays a prefix |
| Consensus.VisitTags | ConSBind/core/finder.py:266-268 | one visit introduces no new method tag |
| Consensus.TagsWithin | ConSBind/core/finder.py:266-268 | the loop introduces no method tag that was not already in some record |
| Consensus.NoDupAll | ConSBind/core/finder.py:266-268 | method lists without repeats stay without repeats |
| Consensus.SharedNew | ConSBind/core/finder.py:261-268 | visiting a close pair gives each of the two the other's original methods |
| Consensus.SharedKept | ConSBind/core/finder.py:266-268 | later visits keep methods that were shared |
| Consensus.SharedAll | ConSBind/core/finder.py:261-268 | after a close pair is visited, each of the two holds the other's original methods, and keeps them |
| Consensus.MarkedProperties | ConSBind/core/finder.py:258-268 | after the double loop, consensus = starting value + 2 x (number of other pockets strictly closer than the threshold); only consensus and methods change; methods only grow, stay without repeats and gain no new tag; each pocket holds the methods of every pocket close to it (also lines 241, 253) |
| Consensus.MarkConsensus | ConSBind/core/finder.py:258-268 | the nested index loops, updating the records in place, end in the state `MarkedProperties` describes |
| Consensus.WithFinal | ConSBind/core/finder.py:271-275 | each record gets final score = consensus x 3.0 + score x 0.5 and nothing else changes |
| Consensus.AssignFinalScores | ConSBind/core/finder.py:271-275 | the loop assigns exactly those final scores |
| Consensus.FirstClose | ConSBind/core/finder.py:285-294 | the first kept record within the threshold of the candidate: it is close, and no earlier kept record is; `None` iff no kept record is close |
| Consensus.SuppressOrigins | ConSBind/core/finder.py:281-297 | every kept record is an input record with only its methods changed; there are no more kept records than inputs and at least one when there is any input; the best-ranked input is kept first |
| Consensus.SuppressApart | ConSBind/core/finder.py:283-297 | no two kept pockets are closer than the threshold |
| Consensus.SuppressCovers | ConSBind/core/finder.py:283-297 | every input record is answered: some kept record has its centre or lies within the threshold of it, and carries all of its methods |
| Consensus.SuppressNoDup | ConSBind/core/finder.py:291-293 | appending a suppressed pocket's missing methods keeps method lists without repeats |
| Consensus.SuppressSorted | ConSBind/core/finder.py:278-297 | keeping records in ranked order keeps the list sorted by final score |
| Consensus.SuppressOverlaps | ConSBind/core/finder.py:281-297 | the greedy loop, with its `break` at the first overlap and the in-place method update of the selected record, computes `Suppress` |
| Consensus.Ranked | ConSBind/core/finder.py:271-278 | the ranked records are a permutation of the scored records, sorted descending by final score |
| Consensus.ScoredFromInitial | ConSBind/core/finder.py:258-275 | scored record m is initial record m with 2 added to its consensus per close partner, final score 3 x consensus + score / 2, its methods grown, and no repeated method (also lines 241, 253) |
| Consensus.RankedDerived | ConSBind/core/finder.py:258-278 | every ranked record is some initial record after the consensus pass and the final scoring, with no repeated method |
| Consensus.KeptDerived | ConSBind/core/finder.py:258-297 | every kept pocket is some initial record after the consensus pass and the final scoring |
| Consensus.KeptAnswers | ConSBind/core/finder.py:258-297 | every initial record is answered by a kept pocket at or within the threshold of its centre that carries its methods |
| Consensus.RankedShows | ConSBind/core/finder.py:266-278 | each initial record shows up in the ranking with at least its own methods |
| Consensus.CombineRecordsProperties | ConSBind/core/finder.py:258-300 | at least one pocket when there is any record; no two kept pockets closer than the threshold; best final score first; each kept pocket derived from an initial one; method lists without repeats; every initial record answered by a kept pocket that carries its methods |
| Consensus.CombinedProperties | ConSBind/core/finder.py:212-300 | nothing comes back exactly when both inputs are empty; every kept pocket is well scored and is some initial record with consensus 1 + 2 x its close partners and its final score; every detected pocket is answered by a kept pocket at or within the threshold of its centre that carries its methods |
| Consensus.DerivedWellScored | ConSBind/core/finder.py:227-240 | the score formula of each detector survives the consensus pass and the ranking (also lines 272-275) |
| Consensus.CombinePockets | ConSBind/core/finder.py:212-300 | `combine_pockets` step by step: build, mark, score, sort, filter; returns exactly `Combined` |
| Geometry.SqDistSymmetric | ConSBind/core/finder.py:259-260 | the distance between two centres does not depend on their order |
| Geometry.SquaredComparisons | ConSBind/core/structure.py:142 | comparing squared distances against squared thresholds decides exactly the comparisons of the distances themselves |
| Geometry.NearestSq | ConSBind/core/structure.py:139 | the KD-tree query: the squared distance to some atom, and no atom is nearer |
| Geometry.NearestWithin | ConSBind/core/structure.py:172-173 | the nearest atom is closer than t exactly when some atom is |
| Geometry.NearestSqLoop | ConSBind/core/finder.py:148-151 | the `min_dist` loop over the surface atoms computes the nearest squared distance |
| Geometry.MeanBounds | ConSBind/core/finder.py:198 | a mean of values in [lo, hi] lies in [lo, hi] |
| Geometry.MeanAbove | ConSBind/core/finder.py:166 | the mean of scores that all exceed a cut-off exceeds it (also line 198) |
| Grid.AxisCount | ConSBind/core/structure.py:111-113 | `np.arange(lo, hi, step)` is non-empty exactly when lo < hi |
| Grid.DecomposeInGrid | ConSBind/core/structure.py:127-134 | a sampled linear index always decomposes into a cell inside the lattice (so the guard never skips), and composing that cell gives the index back |
| Grid.ComposeInRange | ConSBind/core/structure.py:127-131 | every lattice cell has an index in range and is that index's decomposition |
| Grid.GridAround | ConSBind/core/structure.py:105-113 | a padded lattice around a non-empty point set has at least one point |
| Grid.SampleCellsDistinct | ConSBind/core/structure.py:124-131 | sampling indices without replacement visits distinct lattice cells |
| Clusters.Members | ConSBind/core/structure.py:231-232 | `points[labels == c]` holds as many points as the label count, all taken from the input |
| Clusters.MembersContain | ConSBind/core/structure.py:231-232 | every point labelled c is a member of cluster c |
| Clusters.CountZero | ConSBind/core/structure.py:225 | a label has count 0 exactly when no point carries it |
| Clusters.Unique | ConSBind/core/structure.py:225 | `np.unique`: only labels that occur, strictly ascending, and every label that occurs |
| Clusters.LargeClusters | ConSBind/core/structure.py:225-226 | `unique_clusters[counts >= min_cavity_size]`: exactly the labels that occur at least `minSize` times, ascending |
| Clusters.FilterLargeProperties | ConSBind/core/finder.py:184-192 | skipping the labels with fewer than the minimum members keeps exactly the large labels, in ascending order |
| Sorting.SortDescProperties | ConSBind/core/finder.py:278 | `sort(key, reverse=True)`: the result is a permutation of the input in descending key order |
| Sorting.SortDescStable | ConSBind/core/finder.py:278 | the sort is stable: elements with equal keys keep their relative order |
| Sorting.InsertProperties | ConSBind/core/finder.py:278 | inserting into a sorted list keeps it sorted and adds exactly that element |
| Protein.KyteDoolittle | ConSBind/core/structure.py:248-252 | the scale lists exactly the twenty standard residues, with values in [-4.5, 4.5] |
| Protein.Charge | ConSBind/core/structure.py:275-279 | the charge table lists only standard residues, with charges in [-1, 1] |
| Protein.KeyLessTransitive | ConSBind/core/structure.py:321 | the tuple order used by `sorted` is transitive |
| Protein.KeyLessTotal | ConSBind/core/structure.py:321 | any two different residue tuples are ordered |
| Protein.KeyLessIrreflexive | ConSBind/core/structure.py:321 | no residue tuple is below itself |
| Structure.HydrophobicityRange | ConSBind/core/structure.py:259-270 | the mean hydrophobicity lies within the scale [-4.5, 4.5], and is 0 when no listed residue is near |
| Structure.HydrophobicityUniform | ConSBind/core/structure.py:263-270 | residues that all have scale value v average to v |
| Structure.CalculateHydrophobicity | ConSBind/core/structure.py:245-270 | the accumulation loop with `max(1, count)` computes the mean hydrophobicity |
| Structure.Weight | ConSBind/core/structure.py:298 | the weight `1 / max(1, d)` is in (0, 1], and is 1 for atoms within 1 A |
| Structure.ElectrostaticsBound | ConSBind/core/structure.py:287-301 | the electrostatic score is bounded by the number of charged residues in either direction |
| Structure.ElectrostaticsContact | ConSBind/core/structure.py:296-299 | a charged residue touching the point (closest atom within 1 A) adds its full charge |
| Structure.CalculateElectrostatics | ConSBind/core/structure.py:272-301 | the accumulation loop computes the weighted charge sum |
| Structure.InsertKeySorted | ConSBind/core/structure.py:310-321 | adding a tuple to a sorted set list keeps it strictly sorted and adds exactly that tuple |
| Structure.SortedKeysUnique | ConSBind/core/structure.py:321 | two strictly sorted lists with the same members are equal, so the list is determined by the set |
| Structure.PocketResiduesSorted | ConSBind/core/structure.py:310-321 | `sorted(set(...))`: strictly ascending, exactly the standard residues around the centre |
| Structure.PocketResiduesStandard | ConSBind/core/structure.py:313-315 | only the twenty standard amino acids are reported |
| Structure.GetPocketResidues | ConSBind/core/structure.py:303-321 | the loop over the nearby residues returns the sorted set of standard residue tuples |
| Structure.SparseAtomsMembers | ConSBind/core/structure.py:65-69 | without accessibility data, an atom is on the surface exactly when fewer than 15 atoms lie within 8 A of it |
| Structure.NonHydrogenAtomsMembers | ConSBind/core/structure.py:82-85 | exactly the atoms, other than those named H and HA, of the chosen residues |
| Structure.ExposedResiduesMembers | ConSBind/core/structure.py:73-79 | exactly the residues whose relative accessibility exceeds the threshold |
| Structure.SurfaceFallbackMembers | ConSBind/core/structure.py:56-69 | without accessibility data the surface is the sparsely packed atoms |
| Structure.SurfaceDsspMembers | ConSBind/core/structure.py:70-85 | with accessibility data the surface is the non-hydrogen atoms of residues exposed above the threshold |
| Structure.SurfaceAtomsInModel | ConSBind/core/structure.py:52-88 | surface atoms are atoms of the model |
| Structure.SurfaceThresholdMonotone | ConSBind/core/structure.py:76 | raising the accessibility threshold can only remove surface atoms |
| Structure.GetSurfaceAtoms | ConSBind/core/structure.py:52-88 | the loops compute `SurfaceAtoms` |
| Cavities.SelectAsWritten | ConSBind/core/structure.py:101 | the ligand selection as written: every atom whose name does not start with 'H' |
| Cavities.HeteroAtoms | ConSBind/core/structure.py:98-103 | the intended selection: exactly the HETATM atoms |
| Cavities.HeteroSelectionDiffers | ConSBind/core/structure.py:101 | an ordinary alpha carbon is picked by the written selection and not by the intended one |
| Cavities.InGapMeaning | ConSBind/core/structure.py:139-142 | `probe < dist < 4.0`: some atom is nearer than 4 A and every atom is farther than the probe radius |
| Cavities.ContributionCounts | ConSBind/core/structure.py:142-213 | an enclosed point in the gap is appended twice (once by each block), an enclosed point only near a ligand once, any other point never |
| Cavities.IsEnclosed | ConSBind/core/structure.py:156-179 | the six-ray loop with its two `break`s decides `Enclosed`: all six axis rays meet protein within nine steps |
| Cavities.CavityPointsSound | ConSBind/core/structure.py:123-213 | every collected point is enclosed, passes the candidate test, and is the lattice point of a sampled index |
| Cavities.CavityPointsComplete | ConSBind/core/structure.py:123-213 | every sampled lattice point that is enclosed and passes the candidate test is collected |
| Cavities.CollectCavityPoints | ConSBind/core/structure.py:127-213 | the sampling loop computes `CavityPoints` |
| Cavities.CavityOfProperties | ConSBind/core/structure.py:231-238 | a cavity's size is its point count (at least `minSize`), its centre is their mean, and its points come from the input |
| Cavities.CavitiesFor | ConSBind/core/structure.py:230-238 | one cavity per kept label, in order |
| Cavities.ClusterCavitiesProperties | ConSBind/core/structure.py:218-243 | every cavity is well formed; every point of a large cluster lies in some cavity; one point or none gives no cavity |
| Cavities.CavitiesForStep | ConSBind/core/structure.py:230-238 | one loop step appends exactly the cavity of the next kept label |
| Cavities.ClusterCavitiesLoop | ConSBind/core/structure.py:218-243 | the loop over the kept labels computes `ClusterCavities` |
| Cavities.CavityGrid | ConSBind/core/structure.py:105-113 | the lattice around the atoms has at least one point |
| Cavities.Ligands | ConSBind/core/structure.py:98-103 | the ligand atoms under either rule: the atoms whose name does not start with 'H' as written, or the atoms with the hetero flag |
| Cavities.CandidateAsWritten | ConSBind/core/structure.py:98-152 | with the selection as written, every point closer than 4 A to an atom whose name does not start with 'H' passes the candidate test, even in a structure without ligands |
| Cavities.CandidateByFlag | ConSBind/core/structure.py:98-152 | with the hetero-flag selection, a structure without HETATM atoms passes a point exactly when it is in the gap window |
| Cavities.CavitiesFoundSound | ConSBind/core/structure.py:90-243 | for either ligand rule, every cavity found is well formed and each of its points is enclosed and passes the candidate test built from that rule's ligand atoms |
| Cavities.GetCavities | ConSBind/core/structure.py:90-243 | `get_cavities` computes `CavitiesFound` for the ligand rule given (`NameAsWritten` is the code as written) |
| Scores.TallyMonotone | ConSBind/core/finder.py:317-319 | more residues never lower a group count |
| Scores.PairsPresent | ConSBind/core/finder.py:332-334 | at most as many catalytic pairs are present as are listed |
| Scores.KnowledgeRange | ConSBind/core/finder.py:303-360 | the knowledge score lies in [0, 9], and is 0 without residues |
| Scores.KnowledgeMonotone | ConSBind/core/finder.py:303-360 | every rule is monotone: adding residues never lowers the knowledge score |
| Scores.Abs | ConSBind/core/finder.py:380-381 | `abs(x)` is non-negative and is x or -x (also line 164) |
| Scores.Clip0 | ConSBind/core/finder.py:380-381 | `max(0, x)` is non-negative, at least x, and is x or 0 |
| Scores.TermsAtMostOne | ConSBind/core/finder.py:380-381 | both the volume and the hydrophobic term lie in [0, 1] |
| Scores.DruggabilityRange | ConSBind/core/finder.py:363-385 | druggability lies in [0, 1] |
| Scores.VolumeTermZero | ConSBind/core/finder.py:369-380 | the volume term is 0 exactly for pockets of at most 25 or at least 100 points (volume outside (200, 800)) |
| Scores.DruggabilityNoResidues | ConSBind/core/finder.py:377-383 | with no residues the fraction is 0 by `max(1, ...)`, its term is 0, and druggability is half the volume term |
| Scores.FractionRange | ConSBind/core/finder.py:377 | the hydrophobic fraction lies in [0, 1] |
| Finder.HitCount | ConSBind/core/finder.py:92-102 | at most one hit per direction |
| Finder.ConcaveMeaning | ConSBind/core/finder.py:105 | concave exactly when at least 14 of the 20 rays hit (`hit_count >= 20 * 0.7`) |
| Finder.HitCountAllHit | ConSBind/core/finder.py:92-102 | when every ray hits, the count is the number of directions |
| Finder.HitCountNoneHit | ConSBind/core/finder.py:92-102 | when no ray hits, the count is 0 |
| Finder.HitCountMiss | ConSBind/core/finder.py:92-102 | one missing ray keeps the count below the number of directions |
| Finder.HitCountHit | ConSBind/core/finder.py:92-102 | one hitting ray makes the count positive |
| Finder.HitCountStep | ConSBind/core/finder.py:93-102 | each direction adds 1 exactly when its ray hits |
| Finder.IsConcave | ConSBind/core/finder.py:81-105 | the ray loop with its `break` decides `Concave` |
| Finder.SurfaceCavitiesForMembers | ConSBind/core/finder.py:62-75 | a cluster's cavity is reported exactly when its centre is concave |
| Finder.SurfacePocketSound | ConSBind/core/finder.py:46-79 | a surface pocket is well formed, made of surface atom positions, and comes from a concave cluster that is not noise |
| Finder.SurfacePocketsProperties | ConSBind/core/finder.py:46-79 | at most 5 surface atoms gives nothing; every pocket is well formed and comes from a concave non-noise cluster; every concave non-noise cluster is reported |
| Finder.SurfaceCavitiesForStep | ConSBind/core/finder.py:62-75 | one loop step appends a cluster's cavity exactly when it is concave |
| Finder.ConcavePocket | ConSBind/core/finder.py:66-75 | the loop body for one label: the cavity, when its centre is concave |
| Finder.FindSurfacePockets | ConSBind/core/finder.py:46-79 | `_find_surface_pockets` computes `SurfacePockets` |
| Finder.ConcavePockets | ConSBind/core/finder.py:62-77 | the loop over the labels computes the concave cavities |
| Finder.GeometricPocketSound | ConSBind/core/finder.py:28-44 | for either ligand rule, each pocket is well formed, and each of its points is a cavity point (under that rule) for the probe given or for 1.8, or a surface atom |
| Finder.GeometricPocketsSound | ConSBind/core/finder.py:28-44 | the same for every pocket returned |
| Finder.GeometricPocketsProperties | ConSBind/core/finder.py:28-44 | no pockets exactly when all three attempts find none; the first attempt's result is kept when non-empty, otherwise the second's when non-empty |
| Finder.FindPocketsGeometric | ConSBind/core/finder.py:28-44 | the escalation computes `GeometricPockets` for the ligand rule given (`NameAsWritten` is the code as written) |
| Finder.EnergyGrid | ConSBind/core/finder.py:119-126 | the sparse lattice around the surface has at least one point |
| Finder.ClearanceMeaning | ConSBind/core/finder.py:148-155 | a point is kept exactly when no surface atom is nearer than 1 A and some atom is within 5 A |
| Finder.NoContactsNotFavourable | ConSBind/core/finder.py:158-166 | a point with no residues around it scores 0 and is never favourable |
| Finder.EnergyPointsSound | ConSBind/core/finder.py:136-172 | every energy point is a sampled lattice point with clearance and a score above 3, carrying its own scores |
| Finder.EnergyPointsComplete | ConSBind/core/finder.py:136-172 | every favourable sampled lattice point becomes an energy point |
| Finder.Positions | ConSBind/core/finder.py:178 | the centres of the energy points, in order |
| Finder.PointScores | ConSBind/core/finder.py:198 | the scores of the energy points, in order |
| Finder.EnergyClusterSound | ConSBind/core/finder.py:187-205 | a kept cluster has at least 3 points, its centre is their mean, and its mean score exceeds 3 |
| Finder.EnergyClustersForMembers | ConSBind/core/finder.py:187-205 | a cluster is reported exactly when it has at least 3 members |
| Finder.EnergyClustersForStep | ConSBind/core/finder.py:187-205 | one loop step appends the cluster of the next label exactly when it has at least 3 members |
| Finder.EnergyClustersSound | ConSBind/core/finder.py:177-208 | every energy pocket has at least 3 points drawn from the energy points, the mean as centre, and a score above 3 |
| Finder.ScanPositionSound | ConSBind/core/finder.py:113-172 | every energy point position is a favourable, sampled lattice point of a non-empty surface |
| Finder.ScanPositionsSound | ConSBind/core/finder.py:113-172 | the same for any non-empty set of energy point positions |
| Finder.ScanScores | ConSBind/core/finder.py:163-172 | every energy point scores above 3 |
| Finder.ScanLabels | ConSBind/core/finder.py:181 | one cluster label per energy point |
| Finder.EnergyPocketSound | ConSBind/core/finder.py:107-210 | an energy pocket has at least 3 favourable sampled points, the mean as centre, and a score above 3 |
| Finder.EnergyPocketsProperties | ConSBind/core/finder.py:107-210 | no surface, or at most one energy point, gives nothing; every pocket is well formed with score above 3; every cluster of at least 3 points is reported |
| Finder.ScanEnergyPoints | ConSBind/core/finder.py:136-172 | the sampling loop computes `EnergyPoints` |
| Finder.ProbeLatticePoint | ConSBind/core/finder.py:147-172 | the loop body for one lattice point: an energy point exactly when the point is favourable |
| Finder.EnergyPointsStep | ConSBind/core/finder.py:136-172 | one loop step appends exactly what the sampled point contributes |
| Finder.ClusterEnergyPoints | ConSBind/core/finder.py:184-205 | the loop over the labels computes `EnergyClusters` |
| Finder.FindPocketsEnergy | ConSBind/core/finder.py:107-210 | `find_pockets_energy` computes `EnergyPockets` |
| Output.MethodNames | ConSBind/output/output.py:63-64 | the method names, one per detection method, in order |
| Output.ResidueLines | ConSBind/output/output.py:80-81 | one `chain:NAMEnumber` line per pocket residue, in order |
| Output.WriteSummary | ConSBind/output/output.py:51-82 | the loop over the pockets writes the text summary block by block: heading, methods, scores (druggability and knowledge only for geometric pockets), size, centre and residues |
| Output.WriteResidueLines | ConSBind/output/output.py:79-81 | the residue loop appends exactly the residue lines |
| Output.SummaryStep | ConSBind/output/output.py:56-82 | site i's block follows the blocks of the sites before it |
| Output.FirstEnd | ConSBind/output/output.py:95-100 | the index of the first line starting with `END`, or the number of lines when there is none |
| Output.FirstEndUnique | ConSBind/output/output.py:95-100 | that index is the only one with these properties |
| Output.CopyUntilEnd | ConSBind/output/output.py:95-100 | the copy loop with its `break` keeps exactly the lines before the first `END` |
| Output.Shown | ConSBind/output/output.py:121-127 | at most 20 sample points are drawn, all of them when there are at most 20 |
| Output.ShownFromPoints | ConSBind/output/output.py:124-127 | every drawn point is a point of the pocket, picked at the sampled positions when there are more than 20 |
| Output.PointAtoms | ConSBind/output/output.py:129-134 | one atom record per drawn point |
| Output.Originals | ConSBind/output/output.py:96-100 | each copied line is kept unchanged |
| Output.WritePredictedPdb | ConSBind/output/output.py:93-138 | the writer produces the copied lines, the remarks, the site records, `TER` and `END` |
| Output.WriteSites | ConSBind/output/output.py:110-134 | the loop over the pockets, counting serials from 10000, produces `SiteRecords` |
| Output.WriteSitesStart | ConSBind/output/output.py:110-111 | the loop invariant holds before the first pocket |
| Output.WriteSitesStep | ConSBind/output/output.py:111-134 | one pocket's block and its serial advance keep the invariant |
| Output.WriteSitesEnd | ConSBind/output/output.py:111-134 | the invariant at the end gives the whole site list |
| Output.WriteSite | ConSBind/output/output.py:112-134 | one pocket gives its remark, its centre atom and its point atoms, and advances the serial by 1 + the drawn point count |
| Output.WritePointAtoms | ConSBind/output/output.py:129-134 | the point loop appends consecutive atom records |
| Output.ValidPicksSuffix | ConSBind/output/output.py:111-127 | the sampled positions of the remaining pockets stay valid |
| Output.SiteRecordsUnfold | ConSBind/output/output.py:111-134 | the site list is pocket i's block followed by the blocks of the later pockets |
| Output.SerialsConcat | ConSBind/output/output.py:110-134 | the serials of two record lists joined are their serials joined |
| Output.Consecutive | ConSBind/output/output.py:110-134 | n numbers counting up one at a time from `start` |
| Output.ConsecutiveConcat | ConSBind/output/output.py:110-134 | two consecutive runs, the second starting where the first ends, form one run |
| Output.PointAtomSerials | ConSBind/output/output.py:129-134 | the point atoms are numbered consecutively from the current serial |
| Output.PocketRecordsShape | ConSBind/output/output.py:112-134 | a pocket's atoms are numbered consecutively, all carry its site number, and the first is the centre atom with the consensus score as its B-factor |
| Output.Drawn | ConSBind/output/output.py:121-127 | one drawn point list per pocket |
| Output.SiteRecordsDrawn | ConSBind/output/output.py:111-134 | the site list depends only on the points drawn |
| Output.AtomCountDrawn | ConSBind/output/output.py:111-134 | the atom count depends only on the points drawn |
| Output.SitesSerials | ConSBind/output/output.py:110-134 | over all sites, atom serials run consecutively |
| Output.BlockSerials | ConSBind/output/output.py:112-134 | within one site, atom serials run consecutively |
| Output.SiteSerials | ConSBind/output/output.py:110-134 | every site atom gets its own serial, consecutively from the given start, one per centre and drawn point |
| Output.PredictedPdbProperties | ConSBind/output/output.py:93-138 | the file starts with the original lines before the first `END`, unchanged, and ends with `TER` and `END` |
| Output.PredictedPdbSerials | ConSBind/output/output.py:93-138 | the atoms added to the file are numbered 10000, 10001, ... without gaps or repeats |
| Output.OriginalsSerials | ConSBind/output/output.py:96-100 | copied lines add no new atom serial |
| Output.Normalized | ConSBind/output/output.py:211 | `min(1, max(0, consensus / 5))` lies in [0, 1] |
| Output.SiteColour | ConSBind/output/output.py:211-216 | the threshold loop picks the colour of the first threshold reached, in the dictionary's order |
| Output.ThresholdsAbove | ConSBind/output/output.py:211-216 | how many of the remaining thresholds exceed the score (the thresholds are lines 20-28) |
| Output.SiteColourProperties | ConSBind/output/output.py:211-216 | the colour is the palette entry after the thresholds the score does not reach; consensus of at least 4.5 is "forest", below 0.75 "red" (also lines 211-216) |
| Output.FirstReachedCounts | ConSBind/output/output.py:213-216 | the first threshold reached is the one after those skipped |
| Output.ThresholdsBelow | ConSBind/output/output.py:213-216 | a score that reaches the current threshold skips nothing more |
| Output.BildColourBuckets | ConSBind/output/output.py:333-347 | the BILD colour is the bucket given by the number of cut-offs not exceeded, and a higher score never falls to a lower bucket |
| Output.BildBucket | ConSBind/output/output.py:336-347 | the buckets are exactly the `> 4`, `> 3`, `> 2`, `> 1`, `> 0.5` and otherwise branches |
| Analysis.Set | Analysis.py:28-35 | recording a score sets that field and leaves the other three as they were |
| Analysis.SettingsOf | Analysis.py:24-35 | one optional score setting per line, in order |
| Analysis.FoldLastWins | Analysis.py:13-35 | a score stays `None` exactly when no line sets it; otherwise it holds the value of the last line that does |
| Analysis.FoldNone | Analysis.py:13-35 | a score stays `None` exactly when no line sets it |
| Analysis.FoldLast | Analysis.py:24-35 | a score holds the value of the last line that sets it |
| Analysis.ScoresNone | Analysis.py:13-35 | on raw lines: a score stays `None` exactly when no stripped line starts with its label |
| Analysis.ScoresLastWins | Analysis.py:24-35 | on raw lines: the last line with the label decides the score's text |
| Analysis.SettingMeaning | Analysis.py:25-35 | a line sets a field exactly when its stripped text falls into that field's branch of the `elif` chain of labels, and the value is the text between the first and a second colon, stripped |
| Analysis.KindsOf | Analysis.py:24-53 | one line class per line |
| Analysis.PredScores | Analysis.py:11-55 | the line loop, with its section flag and its score branches, computes `Parse` |
| Analysis.ReadScore | Analysis.py:28-35 | one line's score branch is the step `Apply` |
| Analysis.ReadResidue | Analysis.py:37-53 | one line's residue branch is the step `Step`, with the blank line unable to close the section |
| Analysis.FoldNext | Analysis.py:24-35 | the scores after line i + 1 are those after line i with line i applied |
| Analysis.RunNext | Analysis.py:24-53 | the section state after line i + 1 is one step past the state after line i |
| Analysis.KindsAt | Analysis.py:24-53 | the class of line j is the class its text reads as |
| Analysis.KindsConcat | Analysis.py:24-53 | classifying joined lines is joining the classifications |
| Analysis.SectionNeverCloses | Analysis.py:37-44 | as written, the section is open after some lines exactly when it was open before or one of them is the residues heading; without a heading nothing changes |
| Analysis.NoHeaderKeepsClosed | Analysis.py:37-41 | while no heading appears, a closed section stays closed and collects nothing |
| Analysis.ResiduesGrow | Analysis.py:41-53 | the residue list only grows |
| Analysis.RunConcat | Analysis.py:24-53 | reading joined lines is reading the first part, then the second |
| Analysis.HasHeaderConcat | Analysis.py:37-39 | joined lines hold a heading exactly when one of the parts does |
| Analysis.ResidueLineReads | Analysis.py:46-53 | a residue line as the summary writes it reads back as its `(chain, number)` pair, for a one-character non-blank chain and a number >= 0 (the writer side is ConSBind/output/output.py:80-81) |
| Analysis.NegativeNumberReadsUnsigned | Analysis.py:46-53 | a residue line with a negative number, written with its minus sign, reads back as the absolute value, because the digit filter drops the sign |
| Analysis.KindCandidate | Analysis.py:41-53 | a non-empty line that is not the heading and does not start with "Site" is a residue candidate |
| Analysis.ResidueTextReads | Analysis.py:46-53 | `chain:NAMEdigits` splits into two parts and yields `(chain, int(digits))` |
| Analysis.ResidueInfoDigits | Analysis.py:51 | the digits of `NAMEdigits` are the digits |
| Analysis.HeaderKind | Analysis.py:37-39 | the heading line is recognised |
| Analysis.EmptyKind | Analysis.py:41 | an empty line is never a residue candidate |
| Analysis.SizeLineRead | Analysis.py:46-53 | the "Size: n" line of a summary splits in two and reads as the pair `("Size", n)` (the writer side is ConSBind/output/output.py:76) |
| Analysis.ResidueLinesRead | Analysis.py:41-53 | inside an open section the residue lines of a site append exactly their pairs |
| Analysis.SiteBlockRead | Analysis.py:24-53 | one site block, read from a closed section, appends exactly its residue pairs, leaving the section open as written and closed with the blank-line fix |
| Analysis.TitleRead | Analysis.py:24-53 | the title lines leave the parser's state unchanged (the writer side is ConSBind/output/output.py:53-54) |
| Analysis.SingleSiteRead | Analysis.py:24-53 | a one-site summary reads back as that site's residue pairs |
| Analysis.SitesRead | Analysis.py:24-53 | with the blank-line fix, any number of site blocks read back as all their residue pairs |
| Analysis.SummaryRead | Analysis.py:24-53 | the same for a whole summary |
| Analysis.SingleSiteRoundTrip | Analysis.py:11-55 | as written, parsing the summary of one pocket whose residues have one-character non-blank chains and numbers >= 0 gives back exactly its residues (the writer side is ConSBind/output/output.py:51-82) |
| Analysis.SummaryRoundTrip | Analysis.py:11-55 | with the evidently intended section end, parsing a summary of any number of pockets whose residues have one-character non-blank chains and numbers >= 0 gives back exactly all their residues (the writer side is ConSBind/output/output.py:51-82) |
| Analysis.TwoSitesMisread | Analysis.py:41-53 | as written, for two pockets the second pocket's "Size: n" line enters the residue list as `("Size", n)`; the corrected parser does not do this |
| Analysis.SecondSizeRead | Analysis.py:41-53 | any reader that takes the size line for a candidate collects it once the section has opened and never closed |
| Analysis.CandidateKept | Analysis.py:41-53 | in a section that never closes, every candidate line's pair is collected |
| Analysis.AllIdsChains | Analysis.py:48 | every pair read back has a one-character chain |
| Evaluation.ToSet | Analysis.py:133-134 | `set(...)` holds exactly the list's elements |
| Evaluation.Classify | Analysis.py:137-139 | tp + fp is the number of distinct predictions, tp + fn the number of distinct known residues |
| Evaluation.Ratio | Analysis.py:141-143 | a guarded quotient: 0 for a zero denominator, in [0, 1] when the numerator is at most the denominator, otherwise numerator / denominator |
| Evaluation.QualityOf | Analysis.py:136-143 | precision, recall and F1 all lie in [0, 1], and F1 = 2tp / (2tp + fp + fn) |
| Evaluation.F1Reference | Analysis.py:141-143 | the harmonic mean of the guarded precision and recall is 2tp / (2tp + fp + fn) |
| Evaluation.RatioOne | Analysis.py:141-142 | a guarded quotient is 1 exactly when the numerator equals a positive denominator |
| Evaluation.PrecisionPerfect | Analysis.py:137-141 | precision is 1 exactly when something is predicted and every prediction is known |
| Evaluation.RecallPerfect | Analysis.py:137-142 | recall is 1 exactly when something is known and every known residue is predicted |
| Evaluation.F1Perfect | Analysis.py:137-143 | F1 is 1 exactly when the two sets are equal and non-empty |
| Evaluation.QualitySwap | Analysis.py:137-143 | swapping known and predicted swaps precision and recall and keeps F1 |
| Evaluation.ReachIsTruncatedRadius | Analysis.py:203-204 | the offset range is `int(1.5)` = 1 |
| Evaluation.RoundHalfEven | Analysis.py:199-212 | `np.round`: the nearest integer, the even one on ties |
| Evaluation.RoundHalfEvenUnique | Analysis.py:199-212 | that integer is the only one with these properties |
| Evaluation.ColumnMembers | Analysis.py:206-208 | the dz loop adds exactly the in-ball offsets of one column |
| Evaluation.PlaneMembers | Analysis.py:205-208 | the dy loop adds exactly the in-ball offsets of one plane |
| Evaluation.BallPartMembers | Analysis.py:204-208 | the dx loop adds exactly the in-ball offsets so far |
| Evaluation.BallMembers | Analysis.py:202-208 | the offsets added around an atom's voxel are exactly those with dx^2 + dy^2 + dz^2 <= 2.25 |
| Evaluation.NearShape | Analysis.py:204-208 | those are the offsets in {-1, 0, 1}^3 with at least one coordinate 0 |
| Evaluation.ColumnSize | Analysis.py:206-208 | a column holds as many voxels as in-ball dz offsets |
| Evaluation.PlaneSize | Analysis.py:205-208 | a plane holds as many voxels as in-ball (dy, dz) offsets |
| Evaluation.BallPartSize | Analysis.py:204-208 | the ball so far holds as many voxels as in-ball offsets so far |
| Evaluation.ColumnCount | Analysis.py:206-208 | a column has 1 voxel off both axes, 3 otherwise |
| Evaluation.PlaneCount | Analysis.py:205-208 | a plane has 5 voxels off-centre, 9 at the centre |
| Evaluation.BallSize | Analysis.py:202-208 | each atom marks exactly 19 voxels |
| Evaluation.AddColumn | Analysis.py:206-208 | the dz loop adds the column |
| Evaluation.AddPlane | Analysis.py:205-208 | the dy loop adds the plane |
| Evaluation.AddAtom | Analysis.py:198-208 | the three nested loops around one atom add its ball |
| Evaluation.CentreInBall | Analysis.py:199-200 | an atom's own voxel is marked |
| Evaluation.BuildGrid | Analysis.py:197-208 | the atom loop builds `GridOf` |
| Evaluation.GridCovers | Analysis.py:197-208 | every voxel of the grid is near some atom |
| Evaluation.CoveredInGrid | Analysis.py:197-208 | every voxel near an atom is in the grid |
| Evaluation.GridCovered | Analysis.py:197-208 | a voxel is in the grid exactly when some atom covers it |
| Evaluation.GridMembers | Analysis.py:197-221 | a voxel is marked exactly when it is near the rounded voxel of some atom |
| Evaluation.GridSize | Analysis.py:197-221 | a grid over at least one atom has at least 19 voxels |
| Evaluation.Jaccard | Analysis.py:227-229 | the Jaccard index lies in [0, 1] |
| Evaluation.JaccardSymmetric | Analysis.py:227-229 | it does not depend on the order of the grids |
| Evaluation.JaccardOne | Analysis.py:227-229 | it is 1 exactly for two equal non-empty grids |
| Evaluation.JaccardZero | Analysis.py:227-229 | it is 0 exactly for disjoint grids |
| Evaluation.VolumeSimilarity | Analysis.py:239-241 | min / max of the volumes lies in [0, 1], is positive exactly when both grids are non-empty, and is 1 exactly when they have the same size |
| Evaluation.RatioOfVolumes | Analysis.py:241 | min / max of two volumes, not both 0, lies in [0, 1], is positive when both are, and is 1 when they are equal |
| Evaluation.RatioFacts | Analysis.py:241 | a quotient lo / hi with 0 <= lo <= hi lies in [0, 1], is positive exactly when lo is, and is 1 exactly when lo = hi |
| Evaluation.VolumeSimilaritySymmetric | Analysis.py:239-241 | volume similarity does not depend on the order of the grids |
| Evaluation.SpatialOf | Analysis.py:189-241 | the spatial metrics exist exactly when both sites have atoms, with overlap in [0, 1] and volume similarity in (0, 1] |
| Evaluation.SpatialMetrics | Analysis.py:189-241 | the two grid loops and the ratios compute `SpatialOf` |
| Evaluation.BuildResidueMap | Analysis.py:167-173 | the residue loop builds `ResidueMap` |
| Evaluation.ResidueMapKeys | Analysis.py:167-173 | the map holds exactly the `(chain, number)` pairs of standard residues |
| Evaluation.ResidueMapLastWins | Analysis.py:173 | a pair maps to the last standard residue with that pair |
| Evaluation.SiteResiduesMembers | Analysis.py:176-187 | the site residues are exactly the mapped residues of the listed pairs |
| Evaluation.SiteAtomsMembers | Analysis.py:176-187 | the site atoms are exactly the atoms, other than H and HA, of mapped listed residues |
| Evaluation.CollectSiteAtoms | Analysis.py:176-187 | the nested loops compute `SiteAtoms` |
| Evaluation.Factor | Analysis.py:67 | `min(1, x / typical)` lies in [0, 1], is 1 exactly from the typical value on, and is proportional below it (also lines 73, 85, 112) |
| Evaluation.StandardCount | Analysis.py:66 | at most one standard residue per residue |
| Evaluation.SizeFactor | Analysis.py:66-67 | the size factor lies in [0, 1] |
| Evaluation.ChainFactor | Analysis.py:71-73 | the chain factor lies in [0, 1] |
| Evaluation.SpreadFactor | Analysis.py:77-86 | the B-factor factor lies in [0, 1], and is 0 when there is no alpha carbon |
| Evaluation.CountNear | Analysis.py:108-109 | at most one count per atom |
| Evaluation.CountNearSelf | Analysis.py:108-109 | an atom is within 10 A of itself, so every count is at least 1 |
| Evaluation.Burials | Analysis.py:103-113 | one burial score per site atom, each in [0, 1] |
| Evaluation.BurialFactor | Analysis.py:90-117 | the mean burial lies in [0, 1], and is 0 when the site has no atoms |
| Evaluation.Complexity | Analysis.py:57-126 | the complexity score lies in [0, 10] |
| Evaluation.ClampNeverBinds | Analysis.py:68-120 | the clamp `min(1.0, ...)` never changes anything: the score is 2.5 x the sum of the four factors |
| Evaluation.ComplexityTop | Analysis.py:57-120 | the score is 10 exactly when there are at least 500 standard residues, at least 4 chains, a B-factor spread of at least 30 and full burial |
| Evaluation.CentreSqDistance | Analysis.py:231-236 | the distance between the centres is non-negative, and 0 for identical sites |
| Evaluation.PocketDepthSq | Analysis.py:243-250 | the depth exists exactly when there are surface atoms, and no surface atom is nearer the predicted centre |
| Evaluation.PolarCount | Analysis.py:253-254 | at most one per atom, and 0 exactly when no atom name starts with N, O or S |
| Evaluation.Polarity | Analysis.py:253-255 | polarity lies in [0, 1], and is 0 exactly when no predicted atom is polar |
| Evaluation.Measure | Analysis.py:156-257 | the structure metrics exist exactly when both sites have atoms in the structure, each within its range |
| Evaluation.CalculateMetrics | Analysis.py:128-274 | precision, recall and F1 as `QualityOf`; the prediction count and the scores passed through; the spatial metrics present together, exactly when a structure is given and both sites have atoms, each within its range |

## Left out

- Library calls that are outside this model are parameters of the model:
  - the neighbour search (`NeighborSearch`) is the `nearby` function;
  - the `fcluster` labels are `single` and `average` in the Finder, and `ward` in final scoring;
  - the DBSCAN labels are `dbscan`;
  - the random sample indices (`np.random.choice`) are `samples` and `picks`;
  - the random ray directions are `rays`.
  Each is assumed to return as many labels or indices as it is given points. `Scoring.LabelsPerScore` states this for `ward`, since `fcluster` promises it.
- Floating-point arithmetic is modelled over `real`:
  - a number's text form is the `fmt` parameter;
  - the text of a score read back by `pred_scores` is kept as text (the `float()` parse is left out);
  - `np.std(x) < 1e-6` is written as population variance `< 1e-12`;
  - distances are compared squared, which is exact because every threshold is positive.
- Evaluation.CentreSqDistance: reports the squared distance between the two site centres, not the distance (no square root over `real`).
- Evaluation.PocketDepthSq: reports the squared depth, for the same reason.
- File input and output, logging, `time.strftime`, PDB parsing and the DSSP run are left out. The parsed structure and DSSP table are given as data, and whether a structure file exists is an `Option`.
- The `convert_ent_to_pdb` reload is not part of this model.
- The B-factor standard deviation is given as the `caStd` parameter.
- Exceptions outside the modelled try/except paths are not modelled:
  - `get_cavities` and the geometric pockets on a model with no atoms (`np.min` on an empty array raises): `Cavities.GetCavities` and `Finder.GeometricPockets` require at least one atom;
  - the exception branch at scoring.py:132-133;
  - the dead default methods list at scoring.py:58-59.
- The model reads only the first model of a structure (`Protein.Structure` holds its residues). The source does the same in `get_cavities`, `get_pocket_residues` and the energy scan, but reads every model in the neighbour-count fallback of `get_surface_atoms` (structure.py:58) and in Analysis.py:61-92 and 165-173. For a multi-model (NMR-style) file the following members therefore differ from the source:
- Structure.SurfaceAtoms: the neighbour-count fallback counts neighbours and returns atoms of the first model only; the source counts and returns atoms of all models. The same holds for Structure.SurfaceFallbackMembers, Structure.SurfaceAtomsInModel and Structure.GetSurfaceAtoms.
- Evaluation.Complexity: residue count, chain count, CA B-factors and burial atoms come from the first model only; the source counts them over all models.
- Evaluation.ResidueMap: built from the first model; in the source the last model's residue wins for an id present in several models. The same holds for Evaluation.BuildResidueMap, Evaluation.Measure and Evaluation.CalculateMetrics.
- Structure.Electrostatics: each neighbouring residue's closest-atom distance (the per-atom minimum of structure.py:289-294) is supplied by the neighbour search as `Neighbour.dist`, not computed from the residue's atoms, because the weight `1/max(1, d)` needs the distance itself and the model has no square root.
- CalculateElectrostatics: takes the same oracle-supplied closest-atom distance as `Structure.Electrostatics`; it does not run the per-atom minimum loop.
- SingleSiteRoundTrip: proved only for residues with a one-character chain that is not blank and not ':', a name without digits, blanks or ':', and a number >= 0. Outside that, the source does not round-trip: a negative number loses its sign (`Analysis.NegativeNumberReadsUnsigned`), and a blank chain is written "   :ALA5" and read back with chain "".
- SummaryRoundTrip: the same restriction as `SingleSiteRoundTrip`.
- Text.IsSpace: only the ASCII blanks (space, tab, newline, carriage return, vertical tab, form feed) are stripped; Python's `str.strip()` also strips \x1c-\x1f and Unicode whitespace.
- Text.IsDigit: only '0'-'9' count as digits; Python's `str.isdigit` also accepts other Unicode digits.
- `base_dir` (Analysis.py:146) and `standard_aa_names` (Analysis.py:170) are undefined in the source, so `calculate_metrics` as written raises `NameError` at Analysis.py:146 on every call, outside any `try`. The model describes what the function evidently means to compute (`Evaluation.CalculateMetrics`): the parsed structure from the file it names is a parameter (`None` when there is no file), and the set of standard residue names is taken from Analysis.py:63-65.
- The polar-atom test (`Evaluation.Polar`) counts an atom with an empty name as not polar; the source would index past the end of the name.
- Scores.KnowledgeRange: 9 is proved as an upper bound only; the lemma does not show that 9 is reached.
- The PyMOL and Chimera script boilerplate (file headers, camera and display commands) is left out; only the colour and record choices are modelled.
- The `isinstance(..., np.ndarray)` conversions are not modelled; every collection is a sequence.
- `evaluate_predictions` (Analysis.py:276-327) builds a pandas DataFrame over a directory of files and is left out. Its per-protein metrics are `Evaluation`.
- main.py and file_handler.py are not part of this model.
- Python `set` iteration is taken in ascending order.

## Findings

| source | as written | input that shows it | evidently intended | confidence | as-written member | corrected member |
|---|---|---|---|---|---|---|
| ConSBind/core/structure.py:101 | the ligand selection tests the first character of the atom's id tuple, which is the first letter of the atom name, so every atom whose name does not start with "H" is taken as hetero | a protein chain with no ligand: its "CA" atom is selected as a ligand atom | select the atoms whose residue has a hetero flag | not executed | Cavities.SelectAsWritten, used by `Cavities.GetCavities` under `NameAsWritten` (shown by Cavities.HeteroSelectionDiffers and Cavities.CandidateAsWritten) | Cavities.HeteroAtoms, used under `HeteroFlag` (proved by Cavities.CandidateByFlag) |
| Analysis.py:41-44 | the residue-section flag is never cleared, because the empty-line test is inside a branch that only sees non-empty lines | a summary of two sites: the second site's "Size: n" line is read as the residue `("Size", n)` | end the residue section at the blank line after it | not executed | Analysis.Parse (shown by Analysis.TwoSitesMisread) | Analysis.ParseFixed (proved by Analysis.SummaryRoundTrip) |
