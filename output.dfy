/**
 * The serialiser (output.py): the text summary of `save_predictions`, the
 * records of the annotated PDB file it writes, the site colour of
 * `save_pymol` and the sphere colour of `save_chimera`. Lines are modelled
 * without their trailing newline; numbers are formatted by a caller-given
 * `Format`, since the model has no floating-point text.
 */
module Output {
  import opened Wrappers
  import opened Geometry
  import opened Text
  import opened Protein
  import opened Structure
  import opened Consensus

  /** `f"{x:.Nf}"` for N decimals. */
  type Format = (real, nat) -> string

  function MethodName(m: Method): string {
    match m
    case Geometric => "geometric"
    case Energy => "energy"
  }

  function MethodNames(ms: seq<Method>): (r: seq<string>)
    ensures |r| == |ms| && forall k :: 0 <= k < |ms| ==> r[k] == MethodName(ms[k])
  {
    seq(|ms|, k requires 0 <= k < |ms| => MethodName(ms[k]))
  }

  // ---------------------------------------------------------------- text summary

  const TitleLines: seq<string> := ["Predicted Binding Sites", "======================", ""]
  const ResiduesHeader: string := "Binding Site Residues:"

  /** `"  chain:resnameresid"`. */
  function ResidueLine(k: ResidueKey): string {
    "  " + k.chain + ":" + k.name + IntToString(k.num)
  }

  function ResidueLines(keys: seq<ResidueKey>): (r: seq<string>)
    ensures |r| == |keys| && forall j :: 0 <= j < |keys| ==> r[j] == ResidueLine(keys[j])
  {
    seq(|keys|, j requires 0 <= j < |keys| => ResidueLine(keys[j]))
  }

  function MethodsLine(p: Pocket): string {
    if |p.methods| > 0 then "Detection Methods: " + Join(MethodNames(p.methods), ", ")
    else "Detection Method: " + MethodName(p.detector)
  }

  /** The lines of site `i` up to the blank line before its residue list. */
  function SiteHead(i: nat, p: Pocket, fmt: Format): seq<string> {
    ["Site " + NatToString(i) + ":", MethodsLine(p),
     "Consensus Score: " + fmt(p.consensus, 2),
     "Binding Potential Score: " + fmt(p.finalScore, 2)]
    + (if p.druggability.Some? then ["Druggability: " + fmt(p.druggability.value, 2)] else [])
    + (if p.knowledge.Some? then ["Knowledge-based Score: " + fmt(p.knowledge.value, 2)] else [])
    + ["Size: " + NatToString(p.size),
       "Center: " + fmt(p.center.x, 3) + ", " + fmt(p.center.y, 3) + ", " + fmt(p.center.z, 3),
       ""]
  }

  /** Everything written for site `i`, whose residues are `keys`. */
  function SiteLines(i: nat, p: Pocket, keys: seq<ResidueKey>, fmt: Format): seq<string> {
    SiteHead(i, p, fmt) + [ResiduesHeader] + ResidueLines(keys) + [""]
  }

  /** The residues `get_pocket_residues` reports for a pocket. */
  function ResiduesOf(p: Pocket, nearby: Point -> seq<Neighbour>): seq<ResidueKey> {
    PocketResidues(nearby(p.center))
  }

  /** The site blocks, numbered from 1. */
  function Sites(ps: seq<Pocket>, nearby: Point -> seq<Neighbour>, fmt: Format): seq<string> {
    if |ps| == 0 then []
    else Sites(ps[..|ps| - 1], nearby, fmt) + SiteLines(|ps|, ps[|ps| - 1], ResiduesOf(ps[|ps| - 1], nearby), fmt)
  }

  function Summary(ps: seq<Pocket>, nearby: Point -> seq<Neighbour>, fmt: Format): seq<string> {
    TitleLines + Sites(ps, nearby, fmt)
  }

  /** The summary file, written line by line. */
  method WriteSummary(ps: seq<Pocket>, nearby: Point -> seq<Neighbour>, fmt: Format) returns (lines: seq<string>)
    ensures lines == Summary(ps, nearby, fmt)
  {
    lines := TitleLines;
    var i := 0;
    while i < |ps|
      invariant 0 <= i <= |ps|
      invariant lines == Summary(ps[..i], nearby, fmt)
    {
      var p := ps[i];
      var keys := ResiduesOf(p, nearby);
      var block := WriteResidueLines(SiteHead(i + 1, p, fmt) + [ResiduesHeader], keys);
      block := block + [""];
      assert block == SiteLines(i + 1, p, keys, fmt);
      SummaryStep(ps, i, nearby, fmt);
      lines := lines + block;
      i := i + 1;
    }
    assert ps[..i] == ps;
  }

  /** The inner loop, one line per residue. */
  method WriteResidueLines(block: seq<string>, keys: seq<ResidueKey>) returns (out: seq<string>)
    ensures out == block + ResidueLines(keys)
  {
    out := block;
    var j := 0;
    while j < |keys|
      invariant 0 <= j <= |keys|
      invariant out == block + ResidueLines(keys[..j])
    {
      assert ResidueLines(keys[..j + 1]) == ResidueLines(keys[..j]) + [ResidueLine(keys[j])];
      out := out + [ResidueLine(keys[j])];
      j := j + 1;
    }
    assert keys[..j] == keys;
  }

  lemma SummaryStep(ps: seq<Pocket>, i: nat, nearby: Point -> seq<Neighbour>, fmt: Format)
    requires i < |ps|
    ensures Summary(ps[..i + 1], nearby, fmt) == Summary(ps[..i], nearby, fmt) + SiteLines(i + 1, ps[i], ResiduesOf(ps[i], nearby), fmt)
  {
    assert ps[..i + 1][..i] == ps[..i];
    var a := TitleLines;
    var b := Sites(ps[..i], nearby, fmt);
    var c := SiteLines(i + 1, ps[i], ResiduesOf(ps[i], nearby), fmt);
    assert a + (b + c) == a + b + c;
  }

  // ---------------------------------------------------------------- annotated PDB file

  /** Index of the first line starting with "END" (which includes "ENDMDL"), or the line count. */
  function FirstEnd(lines: seq<string>): (k: nat)
    ensures k <= |lines|
    ensures forall j :: 0 <= j < k ==> !StartsWith(lines[j], "END")
    ensures k < |lines| ==> StartsWith(lines[k], "END")
  {
    if |lines| == 0 then 0
    else if StartsWith(lines[0], "END") then 0
    else 1 + FirstEnd(lines[1..])
  }

  /** The copy loop over the original lines, which stops at the first "END" line. */
  method CopyUntilEnd(lines: seq<string>) returns (copied: seq<string>)
    ensures copied == lines[..FirstEnd(lines)]
  {
    copied := [];
    var i := 0;
    while i < |lines|
      invariant 0 <= i <= |lines|
      invariant copied == lines[..i]
      invariant forall j :: 0 <= j < i ==> !StartsWith(lines[j], "END")
    {
      if StartsWith(lines[i], "END") {
        break;
      }
      copied := copied + [lines[i]];
      i := i + 1;
    }
    FirstEndUnique(lines, i);
  }

  /** The first "END" line is the only index with nothing before it and an "END" line (or the end) at it. */
  lemma FirstEndUnique(lines: seq<string>, i: nat)
    requires i <= |lines|
    requires forall j :: 0 <= j < i ==> !StartsWith(lines[j], "END")
    requires i < |lines| ==> StartsWith(lines[i], "END")
    ensures i == FirstEnd(lines)
  {
  }

  const SiteChain: string := "X"
  const FirstSerial: nat := 10000
  const MaxShown: nat := 20

  /** The records the annotated file holds, one per written line. */
  datatype PdbRecord =
    | Original(line: string)
    | BlankLine
    | Heading
    | GeneratedOn
    | SiteRemark(site: nat, detector: Method, consensus: real, finalScore: real)
    | SiteAtom(serial: nat, centre: bool, site: nat, at: Point, bfactor: real)
    | Ter
    | End

  /** `np.random.choice(n, 20, replace=False)`: twenty distinct indices below `n`. */
  predicate ValidPick(pick: seq<nat>, n: nat) {
    |pick| == MaxShown
    && (forall j :: 0 <= j < |pick| ==> pick[j] < n)
    && (forall j, l :: 0 <= j < l < |pick| ==> pick[j] != pick[l])
  }

  /** One sample per pocket, used by those with more than twenty points. */
  predicate ValidPicks(ps: seq<Pocket>, picks: seq<seq<nat>>) {
    |picks| == |ps| && forall i :: 0 <= i < |ps| ==> PickFits(ps[i], picks[i])
  }

  predicate PickFits(p: Pocket, pick: seq<nat>) {
    |p.points| > MaxShown ==> ValidPick(pick, |p.points|)
  }

  /** The points drawn for a pocket: all of them, or the sampled twenty. */
  function Shown(points: seq<Point>, pick: seq<nat>): (r: seq<Point>)
    requires |points| > MaxShown ==> ValidPick(pick, |points|)
    ensures |r| == (if |points| > MaxShown then MaxShown else |points|)
  {
    if |points| > MaxShown then seq(MaxShown, j requires 0 <= j < MaxShown => points[pick[j]]) else points
  }

  /** The drawn points are points of the pocket, each drawn once when sampled. */
  lemma ShownFromPoints(points: seq<Point>, pick: seq<nat>)
    requires |points| > MaxShown ==> ValidPick(pick, |points|)
    ensures forall j :: 0 <= j < |Shown(points, pick)| ==> Shown(points, pick)[j] in points
    ensures |points| > MaxShown ==> forall j :: 0 <= j < MaxShown ==> Shown(points, pick)[j] == points[pick[j]]
  {
  }

  function PointAtoms(pts: seq<Point>, site: nat, serial: nat): (r: seq<PdbRecord>)
    ensures |r| == |pts|
  {
    seq(|pts|, j requires 0 <= j < |pts| => SiteAtom(serial + j, false, site, pts[j], 0.0))
  }

  /** The remark, the centre atom and the point atoms of site `i`, numbered from `serial`. */
  function PocketRecords(i: nat, p: Pocket, pick: seq<nat>, serial: nat): seq<PdbRecord>
    requires |p.points| > MaxShown ==> ValidPick(pick, |p.points|)
  {
    SiteBlock(i, p, Shown(p.points, pick), serial)
  }

  /** The records of site `i` once its points `pts` are drawn. */
  function SiteBlock(i: nat, p: Pocket, pts: seq<Point>, serial: nat): seq<PdbRecord> {
    [SiteRemark(i, p.detector, p.consensus, p.finalScore), SiteAtom(serial, true, i, p.center, p.consensus)]
    + PointAtoms(pts, i, serial + 1)
  }

  /** The number of atom records written for the pockets. */
  function AtomCount(ps: seq<Pocket>, picks: seq<seq<nat>>): nat
    requires ValidPicks(ps, picks)
  {
    if |ps| == 0 then 0
    else 1 + |Shown(ps[0].points, picks[0])| + AtomCount(ps[1..], picks[1..])
  }

  /** The records of the pockets, the first being site `site` with its centre atom numbered `serial`. */
  function SiteRecords(ps: seq<Pocket>, picks: seq<seq<nat>>, site: nat, serial: nat): seq<PdbRecord>
    requires ValidPicks(ps, picks)
  {
    if |ps| == 0 then []
    else
      PocketRecords(site, ps[0], picks[0], serial)
      + SiteRecords(ps[1..], picks[1..], site + 1, serial + 1 + |Shown(ps[0].points, picks[0])|)
  }

  function Originals(lines: seq<string>): (r: seq<PdbRecord>)
    ensures |r| == |lines| && forall j :: 0 <= j < |lines| ==> r[j] == Original(lines[j])
  {
    seq(|lines|, j requires 0 <= j < |lines| => Original(lines[j]))
  }

  /** The annotated file of `save_predictions`. */
  function PredictedPdb(lines: seq<string>, ps: seq<Pocket>, picks: seq<seq<nat>>): seq<PdbRecord>
    requires ValidPicks(ps, picks)
  {
    Originals(lines[..FirstEnd(lines)]) + [BlankLine, Heading, GeneratedOn] + SiteRecords(ps, picks, 1, FirstSerial) + [Ter, End]
  }

  /** The annotated file, written record by record. */
  method WritePredictedPdb(lines: seq<string>, ps: seq<Pocket>, picks: seq<seq<nat>>) returns (records: seq<PdbRecord>)
    requires ValidPicks(ps, picks)
    ensures records == PredictedPdb(lines, ps, picks)
  {
    var copied := CopyUntilEnd(lines);
    var head := Originals(copied) + [BlankLine, Heading, GeneratedOn];
    var sites := WriteSites(ps, picks);
    records := head + sites + [Ter, End];
  }

  /** The loop over the pockets with its running `atom_num` counter. */
  method WriteSites(ps: seq<Pocket>, picks: seq<seq<nat>>) returns (sites: seq<PdbRecord>)
    requires ValidPicks(ps, picks)
    ensures sites == SiteRecords(ps, picks, 1, FirstSerial)
  {
    sites := [];
    var atomNum := FirstSerial;
    var i := 0;
    WriteSitesStart(ps, picks);
    while i < |ps|
      invariant 0 <= i <= |ps|
      invariant ValidPicks(ps[i..], picks[i..])
      invariant sites + SiteRecords(ps[i..], picks[i..], i + 1, atomNum) == SiteRecords(ps, picks, 1, FirstSerial)
    {
      ValidPicksSuffix(ps, picks, i);
      var block, next := WriteSite(i + 1, ps[i], picks[i], atomNum);
      WriteSitesStep(ps, picks, i, sites, atomNum, block, next);
      sites := sites + block;
      atomNum := next;
      i := i + 1;
    }
    WriteSitesEnd(ps, picks, sites, atomNum);
  }

  /** Before the loop nothing is written and every site is still to come. */
  lemma WriteSitesStart(ps: seq<Pocket>, picks: seq<seq<nat>>)
    requires ValidPicks(ps, picks)
    ensures ValidPicks(ps[0..], picks[0..])
    ensures [] + SiteRecords(ps[0..], picks[0..], 1, FirstSerial) == SiteRecords(ps, picks, 1, FirstSerial)
  {
    assert ps[0..] == ps && picks[0..] == picks;
  }

  /** Writing site `i + 1` moves its records from the part still to come to the part written. */
  lemma WriteSitesStep(ps: seq<Pocket>, picks: seq<seq<nat>>, i: nat, sites: seq<PdbRecord>, atomNum: nat,
                       block: seq<PdbRecord>, next: nat)
    requires ValidPicks(ps, picks) && i < |ps|
    requires sites + SiteRecords(ps[i..], picks[i..], i + 1, atomNum) == SiteRecords(ps, picks, 1, FirstSerial)
    requires block == PocketRecords(i + 1, ps[i], picks[i], atomNum)
    requires next == atomNum + 1 + |Shown(ps[i].points, picks[i])|
    ensures ValidPicks(ps[i + 1..], picks[i + 1..])
    ensures sites + block + SiteRecords(ps[i + 1..], picks[i + 1..], i + 2, next) == SiteRecords(ps, picks, 1, FirstSerial)
  {
    SiteRecordsUnfold(ps, picks, i, atomNum);
    AppendAssoc(sites, block, SiteRecords(ps[i + 1..], picks[i + 1..], i + 2, next));
  }

  /** After the last site everything is written. */
  lemma WriteSitesEnd(ps: seq<Pocket>, picks: seq<seq<nat>>, sites: seq<PdbRecord>, atomNum: nat)
    requires ValidPicks(ps, picks) && ValidPicks(ps[|ps|..], picks[|ps|..])
    requires sites + SiteRecords(ps[|ps|..], picks[|ps|..], |ps| + 1, atomNum) == SiteRecords(ps, picks, 1, FirstSerial)
    ensures sites == SiteRecords(ps, picks, 1, FirstSerial)
  {
    assert SiteRecords(ps[|ps|..], picks[|ps|..], |ps| + 1, atomNum) == [];
    AppendAssoc(sites, [], []);
  }

  lemma AppendAssoc<T>(a: seq<T>, b: seq<T>, c: seq<T>)
    ensures a + (b + c) == a + b + c
    ensures a + [] == a
  {
  }

  /** The records of one site: its remark, its centre atom and its point atoms. */
  method WriteSite(i: nat, p: Pocket, pick: seq<nat>, atomNum: nat) returns (block: seq<PdbRecord>, next: nat)
    requires PickFits(p, pick)
    ensures block == PocketRecords(i, p, pick, atomNum)
    ensures next == atomNum + 1 + |Shown(p.points, pick)|
  {
    block := [SiteRemark(i, p.detector, p.consensus, p.finalScore), SiteAtom(atomNum, true, i, p.center, p.consensus)];
    block, next := WritePointAtoms(block, Shown(p.points, pick), i, atomNum + 1);
  }

  /** The inner loop: one atom record per shown point, the counter rising by one each time. */
  method WritePointAtoms(block: seq<PdbRecord>, pts: seq<Point>, site: nat, serial: nat)
    returns (out: seq<PdbRecord>, next: nat)
    ensures out == block + PointAtoms(pts, site, serial) && next == serial + |pts|
  {
    out := block;
    next := serial;
    var j := 0;
    while j < |pts|
      invariant 0 <= j <= |pts|
      invariant next == serial + j
      invariant out == block + PointAtoms(pts[..j], site, serial)
    {
      assert PointAtoms(pts[..j + 1], site, serial) == PointAtoms(pts[..j], site, serial) + [SiteAtom(next, false, site, pts[j], 0.0)];
      out := out + [SiteAtom(next, false, site, pts[j], 0.0)];
      next := next + 1;
      j := j + 1;
    }
    assert pts[..j] == pts;
  }

  lemma ValidPicksSuffix(ps: seq<Pocket>, picks: seq<seq<nat>>, i: nat)
    requires ValidPicks(ps, picks) && i <= |ps|
    ensures ValidPicks(ps[i..], picks[i..])
  {
    forall k | 0 <= k < |ps| - i
      ensures PickFits(ps[i..][k], picks[i..][k])
    {
      assert PickFits(ps[i + k], picks[i + k]);
    }
  }

  lemma SiteRecordsUnfold(ps: seq<Pocket>, picks: seq<seq<nat>>, i: nat, serial: nat)
    requires ValidPicks(ps, picks) && i < |ps|
    ensures ValidPicks(ps[i..], picks[i..]) && ValidPicks(ps[i + 1..], picks[i + 1..]) && PickFits(ps[i], picks[i])
    ensures SiteRecords(ps[i..], picks[i..], i + 1, serial)
      == PocketRecords(i + 1, ps[i], picks[i], serial)
         + SiteRecords(ps[i + 1..], picks[i + 1..], i + 2, serial + 1 + |Shown(ps[i].points, picks[i])|)
  {
    ValidPicksSuffix(ps, picks, i);
    ValidPicksSuffix(ps, picks, i + 1);
    assert ps[i..][1..] == ps[i + 1..] && picks[i..][1..] == picks[i + 1..];
    assert ps[i..][0] == ps[i] && picks[i..][0] == picks[i];
  }

  // ---------------------------------------------------------------- properties of the PDB records

  /** The serial numbers of the atom records, in file order. */
  function Serials(rs: seq<PdbRecord>): seq<nat> {
    if |rs| == 0 then []
    else (if rs[0].SiteAtom? then [rs[0].serial] else []) + Serials(rs[1..])
  }

  lemma {:induction false} SerialsConcat(a: seq<PdbRecord>, b: seq<PdbRecord>)
    ensures Serials(a + b) == Serials(a) + Serials(b)
  {
    if |a| == 0 {
      assert a + b == b;
    } else {
      var head: seq<nat> := if a[0].SiteAtom? then [a[0].serial] else [];
      assert (a + b)[0] == a[0];
      assert (a + b)[1..] == a[1..] + b;
      SerialsConcat(a[1..], b);
      assert Serials(a + b) == head + (Serials(a[1..]) + Serials(b));
      assert Serials(a) == head + Serials(a[1..]);
    }
  }

  /** Consecutive numbers from `start`. */
  function Consecutive(start: nat, n: nat): (r: seq<nat>)
    ensures |r| == n && forall k :: 0 <= k < n ==> r[k] == start + k
  {
    seq(n, k requires 0 <= k < n => start + k)
  }

  lemma {:induction false} PointAtomSerials(pts: seq<Point>, site: nat, serial: nat)
    ensures Serials(PointAtoms(pts, site, serial)) == Consecutive(serial, |pts|)
  {
    if |pts| > 0 {
      assert PointAtoms(pts, site, serial)[1..] == PointAtoms(pts[1..], site, serial + 1);
      PointAtomSerials(pts[1..], site, serial + 1);
      assert Consecutive(serial, |pts|) == [serial] + Consecutive(serial + 1, |pts| - 1);
    }
  }

  /**
   * A site writes one centre atom and min(20, |points|) point atoms, all
   * with the site's number as residue number and serials running on from
   * the centre's.
   */
  lemma PocketRecordsShape(i: nat, p: Pocket, pick: seq<nat>, serial: nat)
    requires |p.points| > MaxShown ==> ValidPick(pick, |p.points|)
    ensures Serials(PocketRecords(i, p, pick, serial))
      == Consecutive(serial, 1 + (if |p.points| > MaxShown then MaxShown else |p.points|))
    ensures forall r :: r in PocketRecords(i, p, pick, serial) && r.SiteAtom? ==> r.site == i
    ensures PocketRecords(i, p, pick, serial)[1] == SiteAtom(serial, true, i, p.center, p.consensus)
  {
    BlockSerials(i, p, Shown(p.points, pick), serial);
  }

  lemma ConsecutiveConcat(start: nat, m: nat, n: nat)
    ensures Consecutive(start, m) + Consecutive(start + m, n) == Consecutive(start, m + n)
  {
  }

  /** The atom serials of the sites run up from `serial` by exactly one per atom record. */
  lemma SiteSerials(ps: seq<Pocket>, picks: seq<seq<nat>>, site: nat, serial: nat)
    requires ValidPicks(ps, picks)
    ensures Serials(SiteRecords(ps, picks, site, serial)) == Consecutive(serial, AtomCount(ps, picks))
  {
    SiteRecordsDrawn(ps, picks, site, serial);
    AtomCountDrawn(ps, picks);
    SitesSerials(ps, Drawn(ps, picks), site, serial);
  }

  /** The points drawn for each pocket, in order. */
  function Drawn(ps: seq<Pocket>, picks: seq<seq<nat>>): (r: seq<seq<Point>>)
    requires ValidPicks(ps, picks)
    ensures |r| == |ps|
  {
    if |ps| == 0 then [] else [Shown(ps[0].points, picks[0])] + Drawn(ps[1..], picks[1..])
  }

  /** The records of the pockets once their points are drawn. */
  function DrawnSites(ps: seq<Pocket>, drawn: seq<seq<Point>>, site: nat, serial: nat): seq<PdbRecord>
    requires |drawn| == |ps|
  {
    if |ps| == 0 then []
    else SiteBlock(site, ps[0], drawn[0], serial) + DrawnSites(ps[1..], drawn[1..], site + 1, serial + 1 + |drawn[0]|)
  }

  /** The number of atom records once the points are drawn: one centre plus the drawn points per site. */
  function DrawnCount(drawn: seq<seq<Point>>): nat {
    if |drawn| == 0 then 0 else 1 + |drawn[0]| + DrawnCount(drawn[1..])
  }

  /** The records of `SiteRecords` are those of the pockets with their points drawn. */
  lemma {:induction false} SiteRecordsDrawn(ps: seq<Pocket>, picks: seq<seq<nat>>, site: nat, serial: nat)
    requires ValidPicks(ps, picks)
    ensures SiteRecords(ps, picks, site, serial) == DrawnSites(ps, Drawn(ps, picks), site, serial)
    decreases |ps|
  {
    if |ps| > 0 {
      ValidPicksSuffix(ps, picks, 1);
      var d := Drawn(ps, picks);
      assert d[0] == Shown(ps[0].points, picks[0]) && d[1..] == Drawn(ps[1..], picks[1..]);
      SiteRecordsDrawn(ps[1..], picks[1..], site + 1, serial + 1 + |d[0]|);
    }
  }

  /** `AtomCount` counts the drawn points and one centre per pocket. */
  lemma {:induction false} AtomCountDrawn(ps: seq<Pocket>, picks: seq<seq<nat>>)
    requires ValidPicks(ps, picks)
    ensures AtomCount(ps, picks) == DrawnCount(Drawn(ps, picks))
    decreases |ps|
  {
    if |ps| > 0 {
      ValidPicksSuffix(ps, picks, 1);
      var d := Drawn(ps, picks);
      assert d[0] == Shown(ps[0].points, picks[0]) && d[1..] == Drawn(ps[1..], picks[1..]);
      AtomCountDrawn(ps[1..], picks[1..]);
    }
  }

  /** Once the points are drawn, the atom serials run up from `serial`, one per atom record. */
  lemma {:induction false} SitesSerials(ps: seq<Pocket>, drawn: seq<seq<Point>>, site: nat, serial: nat)
    requires |drawn| == |ps|
    ensures Serials(DrawnSites(ps, drawn, site, serial)) == Consecutive(serial, DrawnCount(drawn))
    decreases |ps|
  {
    if |ps| > 0 {
      var here := 1 + |drawn[0]|;
      var first := SiteBlock(site, ps[0], drawn[0], serial);
      var rest := DrawnSites(ps[1..], drawn[1..], site + 1, serial + here);
      SitesSerials(ps[1..], drawn[1..], site + 1, serial + here);
      BlockSerials(site, ps[0], drawn[0], serial);
      SerialsConcat(first, rest);
      ConsecutiveConcat(serial, here, DrawnCount(drawn[1..]));
    }
  }

  /** One site's atom serials run on from `serial`, one per atom record. */
  lemma {:induction false} BlockSerials(i: nat, p: Pocket, pts: seq<Point>, serial: nat)
    ensures Serials(SiteBlock(i, p, pts, serial)) == Consecutive(serial, 1 + |pts|)
  {
    var head := [SiteRemark(i, p.detector, p.consensus, p.finalScore), SiteAtom(serial, true, i, p.center, p.consensus)];
    SerialsConcat(head, PointAtoms(pts, i, serial + 1));
    PointAtomSerials(pts, i, serial + 1);
    assert head[1..][1..] == [];
    assert Serials(head) == [serial];
    assert Consecutive(serial, 1 + |pts|) == [serial] + Consecutive(serial + 1, |pts|);
  }

  /**
   * The annotated file keeps the original lines before the first "END"
   * line (none of which starts with "END") and ends with TER then END.
   */
  lemma PredictedPdbProperties(lines: seq<string>, ps: seq<Pocket>, picks: seq<seq<nat>>)
    requires ValidPicks(ps, picks)
    ensures PredictedPdb(lines, ps, picks)[..FirstEnd(lines)] == Originals(lines[..FirstEnd(lines)])
    ensures forall j :: 0 <= j < FirstEnd(lines) ==> !StartsWith(lines[j], "END")
    ensures |PredictedPdb(lines, ps, picks)| >= 2
    ensures PredictedPdb(lines, ps, picks)[|PredictedPdb(lines, ps, picks)| - 2..] == [Ter, End]
  {
    var head := Originals(lines[..FirstEnd(lines)]);
    var rest := [BlankLine, Heading, GeneratedOn] + SiteRecords(ps, picks, 1, FirstSerial) + [Ter, End];
    assert PredictedPdb(lines, ps, picks) == head + rest;
  }

  /** The atom records of the annotated file are numbered 10000, 10001, ... with no gap. */
  lemma PredictedPdbSerials(lines: seq<string>, ps: seq<Pocket>, picks: seq<seq<nat>>)
    requires ValidPicks(ps, picks)
    ensures Serials(PredictedPdb(lines, ps, picks)) == Consecutive(FirstSerial, AtomCount(ps, picks))
  {
    var head := Originals(lines[..FirstEnd(lines)]);
    var marks: seq<PdbRecord> := [BlankLine, Heading, GeneratedOn];
    var sites := SiteRecords(ps, picks, 1, FirstSerial);
    var tail: seq<PdbRecord> := [Ter, End];
    OriginalsSerials(lines[..FirstEnd(lines)]);
    SerialsConcat(head, marks);
    SerialsConcat(head + marks, sites);
    SerialsConcat(head + marks + sites, tail);
    assert Serials(marks) == [] by {
      assert marks[1..][1..][1..] == [];
    }
    assert Serials(tail) == [] by {
      assert tail[1..][1..] == [];
    }
    SiteSerials(ps, picks, 1, FirstSerial);
  }

  lemma {:induction false} OriginalsSerials(lines: seq<string>)
    ensures Serials(Originals(lines)) == []
  {
    if |lines| > 0 {
      assert Originals(lines)[1..] == Originals(lines[1..]);
      OriginalsSerials(lines[1..]);
    }
  }

  // ---------------------------------------------------------------- PyMOL colour

  /** The colour table in its iteration order: threshold, colour name. */
  const Palette: seq<(real, string)> := [
    (0.9, "forest"), (0.75, "lime"), (0.6, "limon"), (0.45, "yellow"),
    (0.3, "orange"), (0.15, "salmon"), (0.0, "red")]

  /** `min(1.0, max(0.0, consensus / 5.0))`. */
  function Normalized(consensus: real): (x: real)
    ensures 0.0 <= x <= 1.0
  {
    var q := consensus / 5.0;
    var lo := if q > 0.0 then q else 0.0;
    if lo < 1.0 then lo else 1.0
  }

  /** The first colour from index `k` on whose threshold `x` reaches, or the default red. */
  function FirstReached(x: real, k: nat): string
    requires k <= |Palette|
    decreases |Palette| - k
  {
    if k == |Palette| then "red"
    else if x >= Palette[k].0 then Palette[k].1
    else FirstReached(x, k + 1)
  }

  /** The loop over the colour table, which breaks at the first reached threshold. */
  method SiteColour(consensus: real) returns (colour: string)
    ensures colour == FirstReached(Normalized(consensus), 0)
  {
    var x := Normalized(consensus);
    colour := "red";
    var k := 0;
    while k < |Palette|
      invariant 0 <= k <= |Palette|
      invariant FirstReached(x, 0) == FirstReached(x, k)
      invariant colour == "red"
    {
      if x >= Palette[k].0 {
        colour := Palette[k].1;
        return;
      }
      k := k + 1;
    }
  }

  /** How many thresholds lie strictly above `x`. */
  function ThresholdsAbove(x: real, k: nat): (n: nat)
    requires k <= |Palette|
    ensures n <= |Palette| - k
    decreases |Palette| - k
  {
    if k == |Palette| then 0 else (if Palette[k].0 > x then 1 else 0) + ThresholdsAbove(x, k + 1)
  }

  /**
   * The table is descending, so the colour chosen is the one after all the
   * thresholds above the normalised score: consensus 4.5 and more is
   * "forest", below 0.75 "red", and the default is never needed.
   */
  lemma SiteColourProperties(consensus: real)
    ensures ThresholdsAbove(Normalized(consensus), 0) < |Palette|
    ensures FirstReached(Normalized(consensus), 0) == Palette[ThresholdsAbove(Normalized(consensus), 0)].1
    ensures consensus >= 4.5 ==> FirstReached(Normalized(consensus), 0) == "forest"
    ensures consensus < 0.75 ==> FirstReached(Normalized(consensus), 0) == "red"
  {
    var x := Normalized(consensus);
    FirstReachedCounts(x, 0);
  }

  lemma {:induction false} FirstReachedCounts(x: real, k: nat)
    requires 0.0 <= x && k < |Palette|
    requires forall j :: 0 <= j < k ==> Palette[j].0 > x
    ensures k + ThresholdsAbove(x, k) < |Palette|
    ensures FirstReached(x, k) == Palette[k + ThresholdsAbove(x, k)].1
    decreases |Palette| - k
  {
    if x < Palette[k].0 {
      FirstReachedCounts(x, k + 1);
    } else {
      ThresholdsBelow(x, k);
    }
  }

  /** Past a reached threshold every later one is reached too: the table descends. */
  lemma {:induction false} ThresholdsBelow(x: real, k: nat)
    requires k <= |Palette|
    requires k < |Palette| ==> Palette[k].0 <= x
    ensures ThresholdsAbove(x, k) == 0
    decreases |Palette| - k
  {
    if k < |Palette| {
      ThresholdsBelow(x, k + 1);
    }
  }

  // ---------------------------------------------------------------- Chimera sphere colour

  datatype Rgb = Rgb(r: real, g: real, b: real)

  /** The sphere colour of a site from its final score. */
  function BildColour(score: real): Rgb {
    if score > 4.0 then Rgb(0.13, 0.55, 0.13)
    else if score > 3.0 then Rgb(0.0, 1.0, 0.0)
    else if score > 2.0 then Rgb(1.0, 1.0, 0.0)
    else if score > 1.0 then Rgb(1.0, 0.65, 0.0)
    else if score > 0.5 then Rgb(1.0, 0.27, 0.0)
    else Rgb(1.0, 0.0, 0.0)
  }

  const BildThresholds: seq<real> := [4.0, 3.0, 2.0, 1.0, 0.5]
  const BildPalette: seq<Rgb> := [
    Rgb(0.13, 0.55, 0.13), Rgb(0.0, 1.0, 0.0), Rgb(1.0, 1.0, 0.0),
    Rgb(1.0, 0.65, 0.0), Rgb(1.0, 0.27, 0.0), Rgb(1.0, 0.0, 0.0)]

  /** How many of the thresholds the score does not exceed. */
  function NotExceeded(score: real): nat {
    |set j | 0 <= j < |BildThresholds| && !(score > BildThresholds[j])|
  }

  /**
   * The colour is the palette entry after the thresholds the score does not
   * exceed, so a higher score never gets a later entry; the buckets are
   * strict at every threshold.
   */
  lemma BildColourBuckets(score: real, other: real)
    ensures NotExceeded(score) < |BildPalette|
    ensures BildColour(score) == BildPalette[NotExceeded(score)]
    ensures score <= other ==> NotExceeded(other) <= NotExceeded(score)
  {
    BildBucket(score);
    BildBucket(other);
  }

  lemma BildBucket(score: real)
    ensures NotExceeded(score) == (if score > 4.0 then 0 else if score > 3.0 then 1 else if score > 2.0 then 2
                                   else if score > 1.0 then 3 else if score > 0.5 then 4 else 5)
    ensures BildColour(score) == BildPalette[NotExceeded(score)]
  {
    var s := set j | 0 <= j < |BildThresholds| && !(score > BildThresholds[j]);
    if score > 4.0 {
      assert s == {};
    } else if score > 3.0 {
      assert s == {0};
    } else if score > 2.0 {
      assert s == {0, 1};
    } else if score > 1.0 {
      assert s == {0, 1, 2};
    } else if score > 0.5 {
      assert s == {0, 1, 2, 3};
    } else {
      assert s == {0, 1, 2, 3, 4};
    }
  }
}
