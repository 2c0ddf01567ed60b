/**
 * `pred_scores` (Analysis.py): the parser that reads the predictions
 * summary back, its score fields and its residue section, together with
 * the round trip between that parser and the summary writer.
 */
module Analysis {
  import opened Wrappers
  import opened Geometry
  import opened Text
  import opened Protein
  import opened Consensus
  import opened Output

  // ---------------------------------------------------------------- pred_scores: score fields

  /** `(chain, residue number)`, the pair the evaluation compares. */
  datatype ResidueId = ResidueId(chain: string, num: int)

  datatype Field = ConsensusField | BindingField | DruggabilityField | KnowledgeField

  /** The four score fields; each holds the text of its number, or `None` until a line sets it. */
  datatype ScoreFields = ScoreFields(consensus: Option<string>, binding: Option<string>,
                                     druggability: Option<string>, knowledge: Option<string>)

  const NoScores: ScoreFields := ScoreFields(None, None, None, None)

  /** The field a stripped line sets, the prefixes tried in the source's order. */
  function FieldOf(line: string): Option<Field> {
    if StartsWith(line, "Consensus Score:") then Some(ConsensusField)
    else if StartsWith(line, "Binding Potential Score:") then Some(BindingField)
    else if StartsWith(line, "Druggability:") then Some(DruggabilityField)
    else if StartsWith(line, "Knowledge-based Score:") then Some(KnowledgeField)
    else None
  }

  function Get(sc: ScoreFields, f: Field): Option<string> {
    match f
    case ConsensusField => sc.consensus
    case BindingField => sc.binding
    case DruggabilityField => sc.druggability
    case KnowledgeField => sc.knowledge
  }

  function Set(sc: ScoreFields, f: Field, v: string): (r: ScoreFields)
    ensures Get(r, f) == Some(v)
    ensures forall g :: g != f ==> Get(r, g) == Get(sc, g)
  {
    match f
    case ConsensusField => sc.(consensus := Some(v))
    case BindingField => sc.(binding := Some(v))
    case DruggabilityField => sc.(druggability := Some(v))
    case KnowledgeField => sc.(knowledge := Some(v))
  }

  /** `line.split(":")[1].strip()`: the text between the first and a second colon. */
  function ValueText(line: string): string {
    Strip(Before(After(line, ':'), ':'))
  }

  /** A score line: which field it sets and the text of the value. */
  datatype Setting = Setting(field: Field, value: string)

  function SettingOf(raw: string): Option<Setting> {
    var line := Strip(raw);
    match FieldOf(line)
    case None => None
    case Some(f) => Some(Setting(f, ValueText(line)))
  }

  function SettingsOf(lines: seq<string>): (r: seq<Option<Setting>>)
    ensures |r| == |lines| && forall j :: 0 <= j < |lines| ==> r[j] == SettingOf(lines[j])
  {
    seq(|lines|, j requires 0 <= j < |lines| => SettingOf(lines[j]))
  }

  function Apply(sc: ScoreFields, s: Option<Setting>): ScoreFields {
    if s.Some? then Set(sc, s.value.field, s.value.value) else sc
  }

  /** The score fields after applying the settings in order. */
  function Fold(ss: seq<Option<Setting>>): ScoreFields {
    if |ss| == 0 then NoScores else Apply(Fold(ss[..|ss| - 1]), ss[|ss| - 1])
  }

  function ScoresOf(lines: seq<string>): ScoreFields {
    Fold(SettingsOf(lines))
  }

  predicate Sets(s: Option<Setting>, f: Field) {
    s.Some? && s.value.field == f
  }

  /** No setting is for `f`. */
  predicate NoneSets(ss: seq<Option<Setting>>, f: Field) {
    forall k :: 0 <= k < |ss| ==> !Sets(ss[k], f)
  }

  /** Setting `k` is the last one for `f`. */
  predicate LastSetting(ss: seq<Option<Setting>>, f: Field, k: int) {
    0 <= k < |ss| && Sets(ss[k], f) && forall j :: k < j < |ss| ==> !Sets(ss[j], f)
  }

  /**
   * A field stays `None` exactly when no setting is for it; otherwise it
   * holds the value of the last setting for it.
   */
  lemma {:induction false} FoldLastWins(ss: seq<Option<Setting>>, f: Field)
    ensures Get(Fold(ss), f).None? <==> NoneSets(ss, f)
    ensures forall k :: LastSetting(ss, f, k) ==> Get(Fold(ss), f) == Some(ss[k].value.value)
  {
    FoldNone(ss, f);
    forall k | LastSetting(ss, f, k)
      ensures Get(Fold(ss), f) == Some(ss[k].value.value)
    {
      FoldLast(ss, f, k);
    }
  }

  /** One setting changes only the field it is for. */
  lemma GetApply(sc: ScoreFields, s: Option<Setting>, f: Field)
    ensures Get(Apply(sc, s), f) == if Sets(s, f) then Some(s.value.value) else Get(sc, f)
  {
  }

  lemma {:induction false} FoldNone(ss: seq<Option<Setting>>, f: Field)
    ensures Get(Fold(ss), f).None? <==> NoneSets(ss, f)
  {
    if |ss| > 0 {
      var n := |ss| - 1;
      var init := ss[..n];
      FoldNone(init, f);
      GetApply(Fold(init), ss[n], f);
      assert forall j :: 0 <= j < n ==> init[j] == ss[j];
    }
  }

  lemma {:induction false} FoldLast(ss: seq<Option<Setting>>, f: Field, k: int)
    requires LastSetting(ss, f, k)
    ensures Get(Fold(ss), f) == Some(ss[k].value.value)
  {
    var n := |ss| - 1;
    GetApply(Fold(ss[..n]), ss[n], f);
    if k < n {
      var init := ss[..n];
      assert forall j :: 0 <= j < n ==> init[j] == ss[j];
      assert LastSetting(init, f, k);
      FoldLast(init, f, k);
    }
  }

  /** A line carries a field's prefix once stripped. */
  predicate SetsField(raw: string, f: Field) {
    FieldOf(Strip(raw)) == Some(f)
  }

  /** Line `k` is the last one with `f`'s prefix. */
  predicate LastLineFor(lines: seq<string>, f: Field, k: int) {
    0 <= k < |lines| && SetsField(lines[k], f) && forall j :: k < j < |lines| ==> !SetsField(lines[j], f)
  }

  /** Each score is `None` exactly when no line carries its prefix. */
  lemma ScoresNone(lines: seq<string>, f: Field)
    ensures Get(ScoresOf(lines), f).None? <==> forall k :: 0 <= k < |lines| ==> !SetsField(lines[k], f)
  {
    var ss := SettingsOf(lines);
    FoldLastWins(ss, f);
    forall k | 0 <= k < |lines|
      ensures Sets(ss[k], f) <==> SetsField(lines[k], f)
    {
      SettingMeaning(lines[k], f);
    }
  }

  /** Otherwise it is the value on the last line that carries the prefix: later lines win. */
  lemma ScoresLastWins(lines: seq<string>, f: Field)
    ensures forall k :: LastLineFor(lines, f, k) ==> Get(ScoresOf(lines), f) == Some(ValueText(Strip(lines[k])))
  {
    var ss := SettingsOf(lines);
    FoldLastWins(ss, f);
    forall k | LastLineFor(lines, f, k)
      ensures LastSetting(ss, f, k) && ss[k].value.value == ValueText(Strip(lines[k]))
    {
      forall j | 0 <= j < |lines|
        ensures Sets(ss[j], f) <==> SetsField(lines[j], f)
      {
        SettingMeaning(lines[j], f);
      }
      SettingMeaning(lines[k], f);
    }
  }

  lemma SettingMeaning(raw: string, f: Field)
    ensures Sets(SettingOf(raw), f) <==> SetsField(raw, f)
    ensures Sets(SettingOf(raw), f) ==> SettingOf(raw).value.value == ValueText(Strip(raw))
  {
  }

  // ---------------------------------------------------------------- pred_scores: residues

  /** Whether the residue list has begun, and the residues read so far. */
  datatype Section = Section(open: bool, residues: seq<ResidueId>)

  const Closed: Section := Section(false, [])

  /** A line with exactly two ':'-separated parts and a digit in the second names a residue. */
  function ResidueOf(line: string): Option<ResidueId> {
    if !SplitsInTwo(line) then None
    else
      var digits := Digits(Strip(After(line, ':')));
      if |digits| == 0 then None else Some(ResidueId(Strip(Before(line, ':')), DigitsValue(digits)))
  }

  /** How the loop reads a line, once stripped. */
  datatype LineKind = ListHeader | Empty | SiteTitle | Candidate(r: Option<ResidueId>)

  predicate IsHeader(raw: string) {
    Strip(raw) == ResiduesHeader
  }

  function Kind(raw: string): LineKind {
    var line := Strip(raw);
    if IsHeader(raw) then ListHeader
    else if line == "" then Empty
    else if StartsWith(line, "Site") then SiteTitle
    else Candidate(ResidueOf(line))
  }

  /** A way of reading lines; the parser's is `Kind`. */
  type Reader = string -> LineKind

  function KindsOf(lines: seq<string>, read: Reader): (r: seq<LineKind>)
    ensures |r| == |lines|
  {
    if |lines| == 0 then [] else KindsOf(lines[..|lines| - 1], read) + [read(lines[|lines| - 1])]
  }

  function Appended(rs: seq<ResidueId>, r: Option<ResidueId>): seq<ResidueId> {
    if r.Some? then rs + [r.value] else rs
  }

  /**
   * One line of the loop. In the code the blank-line test sits inside a
   * branch that only non-blank lines reach, so it never fires: that is
   * `clearOnBlank = false`. With `clearOnBlank = true` a blank line ends
   * the residue list, as that test evidently intends.
   */
  function Step(st: Section, k: LineKind, clearOnBlank: bool): Section {
    match k
    case ListHeader => Section(true, st.residues)
    case Empty => if clearOnBlank then Section(false, st.residues) else st
    case SiteTitle => st
    case Candidate(r) => if st.open then Section(true, Appended(st.residues, r)) else st
  }

  function Run(st: Section, ks: seq<LineKind>, clearOnBlank: bool): Section {
    if |ks| == 0 then st else Step(Run(st, ks[..|ks| - 1], clearOnBlank), ks[|ks| - 1], clearOnBlank)
  }

  /** `pred_scores` as written: the residues and the score fields. */
  function Parse(lines: seq<string>): (seq<ResidueId>, ScoreFields) {
    (Run(Closed, KindsOf(lines, Kind), false).residues, ScoresOf(lines))
  }

  /** `pred_scores` with the residue list ending at a blank line. */
  function ParseFixed(lines: seq<string>): (seq<ResidueId>, ScoreFields) {
    (Run(Closed, KindsOf(lines, Kind), true).residues, ScoresOf(lines))
  }

  /** The parsing loop over the lines of the file. */
  method PredScores(lines: seq<string>) returns (residues: seq<ResidueId>, scores: ScoreFields)
    ensures (residues, scores) == Parse(lines)
  {
    residues := [];
    scores := NoScores;
    var inSection := false;
    ghost var ks := KindsOf(lines, Kind);
    ghost var ss := SettingsOf(lines);
    var i := 0;
    while i < |lines|
      invariant 0 <= i <= |lines|
      invariant Section(inSection, residues) == Run(Closed, ks[..i], false)
      invariant scores == Fold(ss[..i])
    {
      FoldNext(ss, i);
      RunNext(Closed, ks, i, false);
      KindsAt(lines, Kind, i);
      var line := Strip(lines[i]);
      scores := ReadScore(scores, line);
      inSection, residues := ReadResidue(inSection, residues, line);
      i := i + 1;
    }
    assert ks[..i] == ks;
    assert ss[..i] == ss;
  }

  /** The score branches of the loop, on one stripped line. */
  method ReadScore(scores: ScoreFields, line: string) returns (next: ScoreFields)
    ensures forall raw :: Strip(raw) == line ==> next == Apply(scores, SettingOf(raw))
  {
    var field := FieldOf(line);
    next := scores;
    if field.Some? {
      next := Set(scores, field.value, ValueText(line));
    }
  }

  /** The residue branches of the loop, on one stripped line. */
  method ReadResidue(inSection: bool, residues: seq<ResidueId>, line: string) returns (open: bool, next: seq<ResidueId>)
    ensures forall raw :: Strip(raw) == line ==> Section(open, next) == Step(Section(inSection, residues), Kind(raw), false)
  {
    open, next := inSection, residues;
    if line == ResiduesHeader {
      open := true;
    } else if inSection && line != "" && !StartsWith(line, "Site") {
      var r := ResidueOf(line);
      if r.Some? {
        next := residues + [r.value];
      }
    }
  }

  lemma FoldNext(ss: seq<Option<Setting>>, i: nat)
    requires i < |ss|
    ensures Fold(ss[..i + 1]) == Apply(Fold(ss[..i]), ss[i])
  {
    assert ss[..i + 1][..i] == ss[..i];
  }

  lemma RunNext(st: Section, ks: seq<LineKind>, i: nat, clearOnBlank: bool)
    requires i < |ks|
    ensures Run(st, ks[..i + 1], clearOnBlank) == Step(Run(st, ks[..i], clearOnBlank), ks[i], clearOnBlank)
  {
    assert ks[..i + 1][..i] == ks[..i];
  }

  lemma {:induction false} KindsAt(lines: seq<string>, read: Reader, j: nat)
    requires j < |lines|
    ensures KindsOf(lines, read)[j] == read(lines[j])
  {
    var n := |lines| - 1;
    if j < n {
      KindsAt(lines[..n], read, j);
      assert lines[..n][j] == lines[j];
    }
  }

  lemma {:induction false} KindsConcat(a: seq<string>, b: seq<string>, read: Reader)
    ensures KindsOf(a + b, read) == KindsOf(a, read) + KindsOf(b, read)
  {
    if |b| == 0 {
      assert a + b == a;
    } else {
      var m := |b| - 1;
      assert (a + b)[..|a + b| - 1] == a + b[..m];
      assert (a + b)[|a + b| - 1] == b[m];
      KindsConcat(a, b[..m], read);
      AppendAssoc(KindsOf(a, read), KindsOf(b[..m], read), [read(b[m])]);
    }
  }

  lemma KindsSingle(l: string, read: Reader)
    ensures KindsOf([l], read) == [read(l)]
  {
    assert [l][..0] == [];
  }

  predicate HasHeader(ks: seq<LineKind>) {
    exists k :: 0 <= k < |ks| && ks[k] == ListHeader
  }

  /**
   * As written, the residue list never ends: once past the first header
   * every later line is read as a candidate residue; before it none is.
   */
  lemma {:induction false} SectionNeverCloses(st: Section, ks: seq<LineKind>)
    ensures Run(st, ks, false).open <==> st.open || HasHeader(ks)
    ensures !st.open && !HasHeader(ks) ==> Run(st, ks, false) == st
  {
    if |ks| > 0 {
      var n := |ks| - 1;
      SectionNeverCloses(st, ks[..n]);
      HasHeaderSnoc(ks);
    }
  }

  lemma HasHeaderSnoc(ks: seq<LineKind>)
    requires |ks| > 0
    ensures HasHeader(ks) <==> HasHeader(ks[..|ks| - 1]) || ks[|ks| - 1] == ListHeader
  {
    var n := |ks| - 1;
    if HasHeader(ks[..n]) {
      var k :| 0 <= k < n && ks[..n][k] == ListHeader;
      assert ks[k] == ListHeader;
    }
    if HasHeader(ks) {
      var k :| 0 <= k < |ks| && ks[k] == ListHeader;
      if k < n {
        assert ks[..n][k] == ListHeader;
      }
    }
  }

  /** Whichever parser reads them, lines without the header leave a closed list closed. */
  lemma {:induction false} NoHeaderKeepsClosed(st: Section, ks: seq<LineKind>, clearOnBlank: bool)
    requires !st.open && !HasHeader(ks)
    ensures Run(st, ks, clearOnBlank) == st
  {
    if |ks| > 0 {
      HasHeaderSnoc(ks);
      NoHeaderKeepsClosed(st, ks[..|ks| - 1], clearOnBlank);
    }
  }

  /** Residues once read are never dropped. */
  lemma {:induction false} ResiduesGrow(st: Section, ks: seq<LineKind>, clearOnBlank: bool)
    ensures forall r :: r in st.residues ==> r in Run(st, ks, clearOnBlank).residues
  {
    if |ks| > 0 {
      ResiduesGrow(st, ks[..|ks| - 1], clearOnBlank);
    }
  }

  lemma {:induction false} RunConcat(st: Section, a: seq<LineKind>, b: seq<LineKind>, clearOnBlank: bool)
    ensures Run(st, a + b, clearOnBlank) == Run(Run(st, a, clearOnBlank), b, clearOnBlank)
  {
    if |b| == 0 {
      assert a + b == a;
    } else {
      assert (a + b)[..|a + b| - 1] == a + b[..|b| - 1];
      RunConcat(st, a, b[..|b| - 1], clearOnBlank);
    }
  }

  lemma RunSingle(st: Section, k: LineKind, clearOnBlank: bool)
    ensures Run(st, [k], clearOnBlank) == Step(st, k, clearOnBlank)
  {
    assert [k][..0] == [];
  }

  lemma {:induction false} HasHeaderConcat(a: seq<LineKind>, b: seq<LineKind>)
    ensures HasHeader(a + b) <==> HasHeader(a) || HasHeader(b)
  {
    if HasHeader(a) {
      var k :| 0 <= k < |a| && a[k] == ListHeader;
      assert (a + b)[k] == ListHeader;
    }
    if HasHeader(b) {
      var k :| 0 <= k < |b| && b[k] == ListHeader;
      assert (a + b)[|a| + k] == ListHeader;
    }
    if HasHeader(a + b) {
      var k :| 0 <= k < |a + b| && (a + b)[k] == ListHeader;
      if k < |a| {
        assert a[k] == ListHeader;
      } else {
        assert b[k - |a|] == ListHeader;
      }
    }
  }

  // ---------------------------------------------------------------- round trip with the summary writer

  /** No separator, blank or digit in a residue name. */
  predicate PlainName(s: string) {
    forall j :: 0 <= j < |s| ==> !IsDigit(s[j]) && !IsSpace(s[j]) && s[j] != ':'
  }

  /** A one-letter chain, a name free of digits, blanks and colons, and a non-negative number. */
  predicate Printable(k: ResidueKey) {
    |k.chain| == 1 && !IsSpace(k.chain[0]) && k.chain[0] != ':' && PlainName(k.name) && k.num >= 0
  }

  predicate KeysPrintable(keys: seq<ResidueKey>) {
    forall j :: 0 <= j < |keys| ==> Printable(keys[j])
  }

  function Ids(keys: seq<ResidueKey>): (r: seq<ResidueId>)
    ensures |r| == |keys| && forall j :: 0 <= j < |keys| ==> r[j] == ResidueId(keys[j].chain, keys[j].num)
  {
    seq(|keys|, j requires 0 <= j < |keys| => ResidueId(keys[j].chain, keys[j].num))
  }

  /** The list header opens the list and a blank line is blank. */
  ghost predicate ReadsMarkers(read: Reader) {
    read(ResiduesHeader) == ListHeader && read("") == Empty
  }

  /** A written residue line reads back as its residue. */
  ghost predicate ReadsResidues(read: Reader) {
    forall k :: Printable(k) ==> read(ResidueLine(k)) == Candidate(Some(ResidueId(k.chain, k.num)))
  }

  /** No title line is the list header. */
  ghost predicate ReadsTitle(read: Reader) {
    forall j :: 0 <= j < |TitleLines| ==> read(TitleLines[j]) != ListHeader
  }

  /** No line before a site's residue list is the list header. */
  ghost predicate ReadsHeads(read: Reader) {
    forall i, p, fmt, j :: 0 <= j < |SiteHead(i, p, fmt)| ==> read(SiteHead(i, p, fmt)[j]) != ListHeader
  }

  /** A reader that sees the summary's lines as the parser does. */
  ghost predicate ReadsSummary(read: Reader) {
    ReadsMarkers(read) && ReadsResidues(read) && ReadsTitle(read) && ReadsHeads(read)
  }

  /** The parser's reading of every line the summary writer produces. */
  lemma KindReadsSummary()
    ensures ReadsSummary(Kind)
  {
    KindReadsMarkers();
    KindReadsResidues();
    KindReadsTitle();
    KindReadsHeads();
  }

  lemma KindReadsMarkers()
    ensures ReadsMarkers(Kind)
  {
    HeaderKind();
    EmptyKind();
  }

  lemma KindReadsResidues()
    ensures ReadsResidues(Kind)
  {
    forall k | Printable(k)
      ensures Kind(ResidueLine(k)) == Candidate(Some(ResidueId(k.chain, k.num)))
    {
      ResidueLineReads(k);
    }
  }

  lemma KindReadsTitle()
    ensures ReadsTitle(Kind)
  {
    TitleNeutral();
    forall j | 0 <= j < |TitleLines|
      ensures Kind(TitleLines[j]) != ListHeader
    {
      NotHeaderKind(TitleLines[j]);
    }
  }

  lemma KindReadsHeads()
    ensures ReadsHeads(Kind)
  {
    forall i, p, fmt, j | 0 <= j < |SiteHead(i, p, fmt)|
      ensures Kind(SiteHead(i, p, fmt)[j]) != ListHeader
    {
      HeadNeutral(i, p, fmt);
      NotHeaderKind(SiteHead(i, p, fmt)[j]);
    }
  }

  lemma NotHeaderKind(raw: string)
    requires !IsHeader(raw)
    ensures Kind(raw) != ListHeader
  {
  }

  /** A written residue line reads back as its residue. */
  lemma ResidueLineReads(k: ResidueKey)
    requires Printable(k)
    ensures Kind(ResidueLine(k)) == Candidate(Some(ResidueId(k.chain, k.num)))
  {
    var digits := NatToString(k.num);
    assert ResidueLine(k) == "  " + k.chain + ":" + k.name + digits;
    ResidueLineStrips(k.chain, k.name, digits);
    ResidueTextIsCandidate(k.chain, k.name + digits);
    KindCandidate(ResidueLine(k), k.chain + ":" + (k.name + digits));
    ResidueTextReads(k.chain, k.name, digits);
    NatToStringValue(k.num);
  }

  /**
   * A negative residue number is written with its minus sign, and the
   * digit filter drops the sign: the line reads back as the absolute value.
   */
  lemma NegativeNumberReadsUnsigned(k: ResidueKey, n: nat)
    requires |k.chain| == 1 && !IsSpace(k.chain[0]) && k.chain[0] != ':' && PlainName(k.name)
    requires k.num + n == 0 && n > 0
    ensures Kind(ResidueLine(k)) == Candidate(Some(ResidueId(k.chain, n)))
  {
    NegativeLine(k, n);
    SignedLineReads(k.chain, k.name, n);
  }

  /** A residue line with a minus sign between the name and the digits. */
  lemma SignedLineReads(chain: string, name: string, n: nat)
    requires |chain| == 1 && !IsSpace(chain[0]) && chain[0] != ':' && PlainName(name)
    ensures Kind("  " + chain + ":" + (name + "-") + NatToString(n)) == Candidate(Some(ResidueId(chain, n)))
  {
    var digits := NatToString(n);
    NatToStringValue(n);
    SignedName(name);
    ResidueLineStrips(chain, name + "-", digits);
    ResidueTextIsCandidate(chain, name + "-" + digits);
    KindCandidate("  " + chain + ":" + (name + "-") + digits, chain + ":" + (name + "-" + digits));
    ResidueTextReads(chain, name + "-", digits);
  }

  /** A minus sign after a plain name keeps it plain. */
  lemma SignedName(name: string)
    requires PlainName(name)
    ensures PlainName(name + "-")
  {
    var signed := name + "-";
    forall j | 0 <= j < |signed|
      ensures !IsDigit(signed[j]) && !IsSpace(signed[j]) && signed[j] != ':'
    {
      if j < |name| {
        assert signed[j] == name[j];
      }
    }
  }

  lemma NegativeLine(k: ResidueKey, n: nat)
    requires k.num + n == 0 && n > 0
    ensures ResidueLine(k) == "  " + k.chain + ":" + (k.name + "-") + NatToString(n)
  {
  }

  lemma KindCandidate(raw: string, line: string)
    requires Strip(raw) == line && line != ResiduesHeader && line != "" && !StartsWith(line, "Site")
    ensures Kind(raw) == Candidate(ResidueOf(line))
  {
  }

  /** The two-blank indent of a residue line goes under strip. */
  lemma ResidueLineStrips(chain: string, name: string, digits: string)
    requires |chain| == 1 && !IsSpace(chain[0])
    requires |digits| > 0 && forall j :: 0 <= j < |digits| ==> IsDigit(digits[j])
    ensures Strip("  " + chain + ":" + name + digits) == chain + ":" + (name + digits)
  {
    var s := chain + ":" + (name + digits);
    assert "  " + chain + ":" + name + digits == "  " + s;
    assert s[|s| - 1] == digits[|digits| - 1];
    StripIndented("  ", s);
  }

  /** A colon right after a one-letter chain rules out the header, blank and "Site" lines. */
  lemma ResidueTextIsCandidate(chain: string, rest: string)
    requires |chain| == 1
    ensures var s := chain + ":" + rest; s != ResiduesHeader && s != "" && !StartsWith(s, "Site")
  {
    var s := chain + ":" + rest;
    assert s[1] == ':';
  }

  lemma ResidueTextReads(chain: string, name: string, digits: string)
    requires |chain| == 1 && !IsSpace(chain[0]) && chain[0] != ':'
    requires PlainName(name)
    requires |digits| > 0 && forall j :: 0 <= j < |digits| ==> IsDigit(digits[j])
    ensures ResidueOf(chain + ":" + (name + digits)) == Some(ResidueId(chain, DigitsValue(digits)))
  {
    ResidueTextSplits(chain, name, digits);
    ResidueInfoDigits(name, digits);
    StripClean(chain);
  }

  lemma ResidueTextSplits(chain: string, name: string, digits: string)
    requires |chain| == 1 && chain[0] != ':'
    requires PlainName(name)
    requires forall j :: 0 <= j < |digits| ==> IsDigit(digits[j])
    ensures SplitsInTwo(chain + ":" + (name + digits))
    ensures Before(chain + ":" + (name + digits), ':') == chain && After(chain + ":" + (name + digits), ':') == name + digits
  {
    var info := name + digits;
    assert forall j :: 0 <= j < |info| ==> info[j] != ':' by {
      forall j | 0 <= j < |info|
        ensures info[j] != ':'
      {
        if j < |name| {
          assert info[j] == name[j];
        } else {
          assert info[j] == digits[j - |name|];
        }
      }
    }
    SplitJoined(chain, info);
  }

  /** The digits of a residue's name and number are the number's. */
  lemma ResidueInfoDigits(name: string, digits: string)
    requires PlainName(name)
    requires |digits| > 0 && forall j :: 0 <= j < |digits| ==> IsDigit(digits[j])
    ensures Digits(Strip(name + digits)) == digits
  {
    var info := name + digits;
    assert info[|info| - 1] == digits[|digits| - 1];
    assert info[0] == if |name| > 0 then name[0] else digits[0];
    StripClean(info);
    DigitsConcat(name, digits);
    DigitsOfNone(name);
    DigitsOfDigits(digits);
    assert "" + digits == digits;
  }

  /** A line that differs from the header at position `j`, with no blank at its ends before `n`, is not the header. */
  lemma NotHeader(line: string, n: nat, j: nat)
    requires j < n <= |line| && !IsSpace(line[0]) && !IsSpace(line[n - 1])
    requires j < |ResiduesHeader| && line[j] != ResiduesHeader[j]
    ensures !IsHeader(line)
  {
    assert StripLeft(line) == line;
    StripRightKeeps(line, n);
  }

  lemma {:induction false} StripRightKeeps(s: string, n: nat)
    requires 0 < n <= |s| && !IsSpace(s[n - 1])
    ensures |StripRight(s)| >= n && StripRight(s)[..n] == s[..n]
  {
    if IsSpace(s[|s| - 1]) {
      StripRightKeeps(s[..|s| - 1], n);
    }
  }

  /** A line whose first character is neither blank nor the header's is not the header. */
  lemma FirstNotHeader(line: string)
    requires |line| > 0 && !IsSpace(line[0]) && line[0] != 'B'
    ensures !IsHeader(line)
  {
    NotHeader(line, 1, 0);
  }

  lemma HeaderKind()
    ensures Kind(ResiduesHeader) == ListHeader
  {
    StripClean(ResiduesHeader);
  }

  lemma EmptyKind()
    ensures Kind("") == Empty
  {
  }

  predicate NoHeaderLine(lines: seq<string>) {
    forall k :: 0 <= k < |lines| ==> !IsHeader(lines[k])
  }

  lemma NoHeaderConcat(a: seq<string>, b: seq<string>)
    requires NoHeaderLine(a) && NoHeaderLine(b)
    ensures NoHeaderLine(a + b)
  {
    forall k | 0 <= k < |a + b|
      ensures !IsHeader((a + b)[k])
    {
      if k < |a| {
        assert (a + b)[k] == a[k];
      } else {
        assert (a + b)[k] == b[k - |a|];
      }
    }
  }

  lemma TitleNeutral()
    ensures NoHeaderLine(TitleLines)
  {
    TitleHeadNotHeader();
    TitleRuleNotHeader();
    NoHeaderThree(TitleLines[0], TitleLines[1], TitleLines[2]);
  }

  lemma NoHeaderThree(a: string, b: string, c: string)
    requires !IsHeader(a) && !IsHeader(b) && c == ""
    ensures NoHeaderLine([a, b, c])
  {
    EmptyNotHeader();
    forall k | 0 <= k < 3
      ensures !IsHeader([a, b, c][k])
    {
      if k == 0 {
        assert [a, b, c][k] == a;
      } else if k == 1 {
        assert [a, b, c][k] == b;
      } else {
        assert [a, b, c][k] == c;
      }
    }
  }

  lemma NoHeaderFour(a: string, b: string, c: string, d: string)
    requires !IsHeader(a) && !IsHeader(b) && !IsHeader(c) && !IsHeader(d)
    ensures NoHeaderLine([a, b, c, d])
  {
    forall k | 0 <= k < 4
      ensures !IsHeader([a, b, c, d][k])
    {
      if k == 0 {
        assert [a, b, c, d][k] == a;
      } else if k == 1 {
        assert [a, b, c, d][k] == b;
      } else if k == 2 {
        assert [a, b, c, d][k] == c;
      } else {
        assert [a, b, c, d][k] == d;
      }
    }
  }

  lemma EmptyNotHeader()
    ensures !IsHeader("")
  {
    assert |Strip("")| == 0;
  }

  lemma TitleHeadNotHeader()
    ensures !IsHeader(TitleLines[0])
  {
    FirstNotHeader(TitleLines[0]);
  }

  lemma TitleRuleNotHeader()
    ensures !IsHeader(TitleLines[1])
  {
    FirstNotHeader(TitleLines[1]);
  }

  /** A line that starts with a neither blank nor 'B' text is not the header. */
  lemma PrefixNotHeader(pre: string, rest: string)
    requires |pre| > 0 && !IsSpace(pre[0]) && pre[0] != 'B'
    ensures !IsHeader(pre + rest)
  {
    var line := pre + rest;
    assert line[0] == pre[0];
    FirstNotHeader(line);
  }

  /** None of the lines before a site's residue list is the list header. */
  lemma HeadNeutral(i: nat, p: Pocket, fmt: Format)
    ensures NoHeaderLine(SiteHead(i, p, fmt))
  {
    var a := ["Site " + NatToString(i) + ":", MethodsLine(p),
              "Consensus Score: " + fmt(p.consensus, 2),
              "Binding Potential Score: " + fmt(p.finalScore, 2)];
    var b := if p.druggability.Some? then ["Druggability: " + fmt(p.druggability.value, 2)] else [];
    var c := if p.knowledge.Some? then ["Knowledge-based Score: " + fmt(p.knowledge.value, 2)] else [];
    var d := ["Size: " + NatToString(p.size),
              "Center: " + fmt(p.center.x, 3) + ", " + fmt(p.center.y, 3) + ", " + fmt(p.center.z, 3),
              ""];
    assert SiteHead(i, p, fmt) == a + b + c + d;
    ScoreLinesNeutral(i, p, fmt);
    OptionalLinesNeutral(p, fmt);
    TailLinesNeutral(p, fmt);
    NoHeaderConcat(a, b);
    NoHeaderConcat(a + b, c);
    NoHeaderConcat(a + b + c, d);
  }

  /** The size line is third from the end of a site's head. */
  lemma SizeInHead(i: nat, p: Pocket, fmt: Format)
    ensures |SiteHead(i, p, fmt)| >= 3
    ensures SiteHead(i, p, fmt)[|SiteHead(i, p, fmt)| - 3] == "Size: " + NatToString(p.size)
  {
    var a := ["Site " + NatToString(i) + ":", MethodsLine(p),
              "Consensus Score: " + fmt(p.consensus, 2),
              "Binding Potential Score: " + fmt(p.finalScore, 2)];
    var b := if p.druggability.Some? then ["Druggability: " + fmt(p.druggability.value, 2)] else [];
    var c := if p.knowledge.Some? then ["Knowledge-based Score: " + fmt(p.knowledge.value, 2)] else [];
    var d := ["Size: " + NatToString(p.size),
              "Center: " + fmt(p.center.x, 3) + ", " + fmt(p.center.y, 3) + ", " + fmt(p.center.z, 3),
              ""];
    assert SiteHead(i, p, fmt) == (a + b + c) + d;
  }

  lemma ScoreLinesNeutral(i: nat, p: Pocket, fmt: Format)
    ensures NoHeaderLine(["Site " + NatToString(i) + ":", MethodsLine(p),
                          "Consensus Score: " + fmt(p.consensus, 2),
                          "Binding Potential Score: " + fmt(p.finalScore, 2)])
  {
    SiteLineNotHeader(NatToString(i));
    MethodsNotHeader(p);
    ConsensusNotHeader(fmt(p.consensus, 2));
    BindingNotHeader(fmt(p.finalScore, 2));
    NoHeaderFour("Site " + NatToString(i) + ":", MethodsLine(p),
                 "Consensus Score: " + fmt(p.consensus, 2),
                 "Binding Potential Score: " + fmt(p.finalScore, 2));
  }

  lemma SiteLineNotHeader(n: string)
    ensures !IsHeader("Site " + n + ":")
  {
    assert "Site " + n + ":" == "Site " + (n + ":");
    PrefixNotHeader("Site ", n + ":");
  }

  lemma MethodsNotHeader(p: Pocket)
    ensures !IsHeader(MethodsLine(p))
  {
    assert MethodsLine(p)[0] == 'D';
    FirstNotHeader(MethodsLine(p));
  }

  lemma ConsensusNotHeader(rest: string)
    ensures !IsHeader("Consensus Score: " + rest)
  {
    PrefixNotHeader("Consensus Score: ", rest);
  }

  lemma BindingNotHeader(rest: string)
    ensures !IsHeader("Binding Potential Score: " + rest)
  {
    var line := "Binding Potential Score: " + rest;
    assert line[0] == 'B' && line[8] == 'P';
    NotHeader(line, 9, 8);
  }

  lemma OptionalLinesNeutral(p: Pocket, fmt: Format)
    ensures NoHeaderLine(if p.druggability.Some? then ["Druggability: " + fmt(p.druggability.value, 2)] else [])
    ensures NoHeaderLine(if p.knowledge.Some? then ["Knowledge-based Score: " + fmt(p.knowledge.value, 2)] else [])
  {
    if p.druggability.Some? {
      PrefixNotHeader("Druggability: ", fmt(p.druggability.value, 2));
    }
    if p.knowledge.Some? {
      PrefixNotHeader("Knowledge-based Score: ", fmt(p.knowledge.value, 2));
    }
  }

  lemma TailLinesNeutral(p: Pocket, fmt: Format)
    ensures NoHeaderLine(["Size: " + NatToString(p.size),
                          "Center: " + fmt(p.center.x, 3) + ", " + fmt(p.center.y, 3) + ", " + fmt(p.center.z, 3),
                          ""])
  {
    PrefixNotHeader("Size: ", NatToString(p.size));
    var xyz := fmt(p.center.x, 3) + ", " + fmt(p.center.y, 3) + ", " + fmt(p.center.z, 3);
    assert "Center: " + fmt(p.center.x, 3) + ", " + fmt(p.center.y, 3) + ", " + fmt(p.center.z, 3) == "Center: " + xyz;
    PrefixNotHeader("Center: ", xyz);
  }

  /** A site's size line reads as a residue named "Size". */
  lemma SizeLineRead(size: nat)
    ensures Kind("Size: " + NatToString(size)) == Candidate(Some(ResidueId("Size", size)))
  {
    var digits := NatToString(size);
    var line := "Size: " + digits;
    SizeLineForm(digits);
    NatToStringValue(size);
    SizeReads(digits, line);
    KindOfResidueLine(line, ResidueId("Size", size));
  }

  lemma SizeReads(digits: string, line: string)
    requires Numeral(digits) && line == "Size" + ": " + digits
    ensures CandidateLine(line) && ResidueOf(line) == Some(ResidueId("Size", DigitsValue(digits)))
  {
    SizeLabel();
    NamedNumberReads("Size", digits, line);
  }

  lemma SizeLabel()
    ensures LabelName("Size")
  {
    assert "Size"[2] == 'z';
  }

  lemma SizeLineForm(digits: string)
    ensures "Size: " + digits == "Size" + ": " + digits
  {
  }

  /** A "name: number" line, with no colon in the name, reads as the residue (name, number). */
  /** A "name: number" line, with no colon in the name, reads as the residue (name, number). */
  lemma NamedNumberReads(name: string, digits: string, line: string)
    requires LabelName(name) && Numeral(digits) && line == name + ": " + digits
    ensures CandidateLine(line) && ResidueOf(line) == Some(ResidueId(name, DigitsValue(digits)))
  {
    NamedNumberText(name, digits);
    NamedNumberSplits(name, digits);
  }

  /** A colon-free label that neither starts like the header nor like a site title. */
  predicate LabelName(name: string) {
    && |name| >= 4 && name[..4] != "Site"
    && !IsSpace(name[0]) && name[0] != 'B' && !IsSpace(name[|name| - 1])
    && forall j :: 0 <= j < |name| ==> name[j] != ':'
  }

  predicate Numeral(digits: string) {
    |digits| > 0 && forall j :: 0 <= j < |digits| ==> IsDigit(digits[j])
  }

  /** A stripped line that the loop reads as a candidate residue. */
  predicate CandidateLine(line: string) {
    Strip(line) == line && line != ResiduesHeader && line != "" && !StartsWith(line, "Site")
  }

  lemma KindOfResidueLine(line: string, r: ResidueId)
    requires CandidateLine(line) && ResidueOf(line) == Some(r)
    ensures Kind(line) == Candidate(Some(r))
  {
  }

  lemma NamedNumberText(name: string, digits: string)
    requires LabelName(name) && Numeral(digits)
    ensures CandidateLine(name + ": " + digits)
  {
    var line := name + ": " + digits;
    assert line[0] == name[0];
    assert line[|line| - 1] == digits[|digits| - 1];
    StripClean(line);
    assert line[..4] == name[..4];
    PrefixNotHeader(name, ": " + digits);
    assert name + (": " + digits) == line;
  }

  lemma NamedNumberSplits(name: string, digits: string)
    requires LabelName(name) && Numeral(digits)
    ensures ResidueOf(name + ": " + digits) == Some(ResidueId(name, DigitsValue(digits)))
  {
    var info := " " + digits;
    NamedNumberHalves(name, digits);
    StripIndented(" ", digits);
    StripClean(name);
    DigitsOfDigits(digits);
    ResidueOfParts(name + ": " + digits, name, info, digits);
  }

  lemma NamedNumberHalves(name: string, digits: string)
    requires forall j :: 0 <= j < |name| ==> name[j] != ':'
    requires forall j :: 0 <= j < |digits| ==> IsDigit(digits[j])
    ensures SplitsInTwo(name + ": " + digits)
    ensures Before(name + ": " + digits, ':') == name && After(name + ": " + digits, ':') == " " + digits
  {
    var info := " " + digits;
    assert name + ": " + digits == name + ":" + info;
    forall j | 0 <= j < |info|
      ensures info[j] != ':'
    {
      if j > 0 {
        assert info[j] == digits[j - 1];
      }
    }
    SplitJoined(name, info);
  }

  /** A line split once by a colon, with a clean name before it and a number after it. */
  lemma ResidueOfParts(line: string, chain: string, info: string, digits: string)
    requires SplitsInTwo(line) && Before(line, ':') == chain && After(line, ':') == info
    requires Strip(chain) == chain && Strip(info) == digits && Digits(digits) == digits && |digits| > 0
    ensures ResidueOf(line) == Some(ResidueId(chain, DigitsValue(digits)))
  {
  }

  // ---------------------------------------------------------------- the round trips, for any such reader

  /** Inside the list, each residue line adds its residue, whichever parser reads it. */
  lemma {:induction false} ResidueLinesRead(acc: seq<ResidueId>, keys: seq<ResidueKey>, read: Reader, clearOnBlank: bool)
    requires ReadsSummary(read)
    requires KeysPrintable(keys)
    ensures Run(Section(true, acc), KindsOf(ResidueLines(keys), read), clearOnBlank) == Section(true, acc + Ids(keys))
  {
    if |keys| > 0 {
      var n := |keys| - 1;
      var lines := ResidueLines(keys);
      assert lines[..n] == ResidueLines(keys[..n]);
      assert Ids(keys) == Ids(keys[..n]) + [ResidueId(keys[n].chain, keys[n].num)];
      ResidueLinesRead(acc, keys[..n], read, clearOnBlank);
      assert read(lines[n]) == Candidate(Some(ResidueId(keys[n].chain, keys[n].num)));
    }
  }

  lemma NoHeaderKinds(lines: seq<string>, read: Reader)
    requires forall k :: 0 <= k < |lines| ==> read(lines[k]) != ListHeader
    ensures !HasHeader(KindsOf(lines, read))
  {
    forall k | 0 <= k < |lines|
      ensures KindsOf(lines, read)[k] != ListHeader
    {
      KindsAt(lines, read, k);
    }
  }

  /**
   * Reading one site block from outside the list adds exactly the block's
   * residues; the list is left open as written and closed when a blank
   * line ends it.
   */
  lemma SiteBlockRead(acc: seq<ResidueId>, i: nat, p: Pocket, keys: seq<ResidueKey>, fmt: Format,
                      read: Reader, clearOnBlank: bool)
    requires ReadsSummary(read)
    requires KeysPrintable(keys)
    ensures Run(Section(false, acc), KindsOf(SiteLines(i, p, keys, fmt), read), clearOnBlank)
      == Section(!clearOnBlank, acc + Ids(keys))
  {
    var h := SiteHead(i, p, fmt);
    var head := KindsOf(h, read);
    var body := KindsOf(ResidueLines(keys), read);
    KindsConcat(h, [ResiduesHeader], read);
    KindsConcat(h + [ResiduesHeader], ResidueLines(keys), read);
    KindsConcat(h + [ResiduesHeader] + ResidueLines(keys), [""], read);
    KindsSingle(ResiduesHeader, read);
    KindsSingle("", read);
    var st := Section(false, acc);
    NoHeaderKinds(h, read);
    NoHeaderKeepsClosed(st, head, clearOnBlank);
    RunConcat(st, head, [ListHeader], clearOnBlank);
    RunSingle(st, ListHeader, clearOnBlank);
    RunConcat(st, head + [ListHeader], body, clearOnBlank);
    ResidueLinesRead(acc, keys, read, clearOnBlank);
    RunConcat(st, head + [ListHeader] + body, [Empty], clearOnBlank);
    RunSingle(Section(true, acc + Ids(keys)), Empty, clearOnBlank);
  }

  /** Every residue key of every pocket prints back legibly. */
  predicate AllPrintable(ps: seq<Pocket>, nearby: Point -> seq<Neighbour>) {
    forall i :: 0 <= i < |ps| ==> KeysPrintable(ResiduesOf(ps[i], nearby))
  }

  /** The residues of all sites, in file order. */
  function AllIds(ps: seq<Pocket>, nearby: Point -> seq<Neighbour>): seq<ResidueId> {
    if |ps| == 0 then [] else AllIds(ps[..|ps| - 1], nearby) + Ids(ResiduesOf(ps[|ps| - 1], nearby))
  }

  lemma TitleRead(read: Reader, clearOnBlank: bool)
    requires ReadsSummary(read)
    ensures Run(Closed, KindsOf(TitleLines, read), clearOnBlank) == Closed
  {
    NoHeaderKinds(TitleLines, read);
    NoHeaderKeepsClosed(Closed, KindsOf(TitleLines, read), clearOnBlank);
  }

  /** The title lines leave the list as it was: closed. */
  lemma SummaryStart(ps: seq<Pocket>, nearby: Point -> seq<Neighbour>, fmt: Format, read: Reader, clearOnBlank: bool)
    requires ReadsSummary(read)
    ensures Run(Closed, KindsOf(Summary(ps, nearby, fmt), read), clearOnBlank)
      == Run(Closed, KindsOf(Sites(ps, nearby, fmt), read), clearOnBlank)
  {
    KindsConcat(TitleLines, Sites(ps, nearby, fmt), read);
    TitleRead(read, clearOnBlank);
    RunConcat(Closed, KindsOf(TitleLines, read), KindsOf(Sites(ps, nearby, fmt), read), clearOnBlank);
  }

  /** As written, a one-site summary leaves the list open, holding the site's residues. */
  lemma SingleSiteRead(p: Pocket, nearby: Point -> seq<Neighbour>, fmt: Format, read: Reader)
    requires ReadsSummary(read)
    requires AllPrintable([p], nearby)
    ensures Run(Closed, KindsOf(Summary([p], nearby, fmt), read), false) == Section(true, Ids(ResiduesOf(p, nearby)))
  {
    var keys := ResiduesOf(p, nearby);
    assert KeysPrintable(keys) by {
      assert [p][0] == p;
    }
    OneSite(p, nearby, fmt);
    SummaryStart([p], nearby, fmt, read, false);
    SiteBlockRead([], 1, p, keys, fmt, read, false);
    EmptyPrefix(Ids(keys));
  }

  lemma EmptyPrefix<T>(a: seq<T>)
    ensures [] + a == a
  {
  }

  lemma OneSite(p: Pocket, nearby: Point -> seq<Neighbour>, fmt: Format)
    ensures Sites([p], nearby, fmt) == SiteLines(1, p, ResiduesOf(p, nearby), fmt)
  {
    assert [p][..0] == [];
    assert Sites([], nearby, fmt) == [];
  }

  /** With the list closed at blank lines, the site blocks read back as all their residues. */
  lemma {:induction false} SitesRead(ps: seq<Pocket>, nearby: Point -> seq<Neighbour>, fmt: Format, read: Reader)
    requires ReadsSummary(read)
    requires AllPrintable(ps, nearby)
    ensures Run(Closed, KindsOf(Sites(ps, nearby, fmt), read), true) == Section(false, AllIds(ps, nearby))
  {
    if |ps| > 0 {
      var n := |ps| - 1;
      var init := ps[..n];
      assert AllPrintable(init, nearby) by {
        assert forall i :: 0 <= i < n ==> init[i] == ps[i];
      }
      SitesRead(init, nearby, fmt, read);
      var keys := ResiduesOf(ps[n], nearby);
      assert KeysPrintable(keys);
      var block := SiteLines(|ps|, ps[n], keys, fmt);
      KindsConcat(Sites(init, nearby, fmt), block, read);
      RunConcat(Closed, KindsOf(Sites(init, nearby, fmt), read), KindsOf(block, read), true);
      SiteBlockRead(AllIds(init, nearby), |ps|, ps[n], keys, fmt, read, true);
    }
  }

  lemma SummaryRead(ps: seq<Pocket>, nearby: Point -> seq<Neighbour>, fmt: Format, read: Reader)
    requires ReadsSummary(read)
    requires AllPrintable(ps, nearby)
    ensures Run(Closed, KindsOf(Summary(ps, nearby, fmt), read), true) == Section(false, AllIds(ps, nearby))
  {
    SummaryStart(ps, nearby, fmt, read, true);
    SitesRead(ps, nearby, fmt, read);
  }

  /** A one-site summary, read as written, gives back exactly the site's residues. */
  lemma SingleSiteRoundTrip(p: Pocket, nearby: Point -> seq<Neighbour>, fmt: Format)
    requires AllPrintable([p], nearby)
    ensures Parse(Summary([p], nearby, fmt)).0 == Ids(ResiduesOf(p, nearby))
  {
    KindReadsSummary();
    SingleSiteRead(p, nearby, fmt, Kind);
  }

  /** With the list closed at blank lines, a summary of any number of sites reads back as all their residues. */
  lemma SummaryRoundTrip(ps: seq<Pocket>, nearby: Point -> seq<Neighbour>, fmt: Format)
    requires AllPrintable(ps, nearby)
    ensures ParseFixed(Summary(ps, nearby, fmt)).0 == AllIds(ps, nearby)
  {
    KindReadsSummary();
    SummaryRead(ps, nearby, fmt, Kind);
  }

  /**
   * As written, a second site's "Size: n" line is read as the residue
   * ("Size", n), which the corrected parser does not report: no chain is
   * called "Size".
   */
  lemma TwoSitesMisread(p1: Pocket, p2: Pocket, nearby: Point -> seq<Neighbour>, fmt: Format)
    requires AllPrintable([p1, p2], nearby)
    ensures ResidueId("Size", p2.size) in Parse(Summary([p1, p2], nearby, fmt)).0
    ensures ResidueId("Size", p2.size) !in ParseFixed(Summary([p1, p2], nearby, fmt)).0
  {
    assert AllPrintable([p1], nearby) by {
      assert [p1][0] == [p1, p2][0];
    }
    KindReadsSummary();
    SizeLineRead(p2.size);
    SecondSizeRead(p1, p2, nearby, fmt, Kind);
    SummaryRoundTrip([p1, p2], nearby, fmt);
    AllIdsChains([p1, p2], nearby);
  }

  lemma SecondSizeRead(p1: Pocket, p2: Pocket, nearby: Point -> seq<Neighbour>, fmt: Format, read: Reader)
    requires ReadsSummary(read)
    requires AllPrintable([p1], nearby)
    requires read("Size: " + NatToString(p2.size)) == Candidate(Some(ResidueId("Size", p2.size)))
    ensures ResidueId("Size", p2.size) in Run(Closed, KindsOf(Summary([p1, p2], nearby, fmt), read), false).residues
  {
    var block := SiteLines(2, p2, ResiduesOf(p2, nearby), fmt);
    SecondBlock(p1, p2, nearby, fmt);
    KindsConcat(Summary([p1], nearby, fmt), block, read);
    SingleSiteRead(p1, nearby, fmt, read);
    RunConcat(Closed, KindsOf(Summary([p1], nearby, fmt), read), KindsOf(block, read), false);
    var h := SiteHead(2, p2, fmt);
    var j := |h| - 3;
    SizeInHead(2, p2, fmt);
    assert block[j] == h[j];
    KindsAt(block, read, j);
    CandidateKept(Section(true, Ids(ResiduesOf(p1, nearby))), KindsOf(block, read), j, ResidueId("Size", p2.size));
  }

  lemma SecondBlock(p1: Pocket, p2: Pocket, nearby: Point -> seq<Neighbour>, fmt: Format)
    ensures Summary([p1, p2], nearby, fmt) == Summary([p1], nearby, fmt) + SiteLines(2, p2, ResiduesOf(p2, nearby), fmt)
  {
    var ps := [p1, p2];
    assert ps[..1] == [p1];
    var block := SiteLines(2, p2, ResiduesOf(p2, nearby), fmt);
    assert Sites(ps, nearby, fmt) == Sites([p1], nearby, fmt) + block;
    AppendAssoc(TitleLines, Sites([p1], nearby, fmt), block);
  }

  /** As written, a candidate residue read anywhere once the list is open is reported. */
  lemma {:induction false} CandidateKept(st: Section, ks: seq<LineKind>, j: nat, r: ResidueId)
    requires st.open && j < |ks| && ks[j] == Candidate(Some(r))
    ensures r in Run(st, ks, false).residues
  {
    var n := |ks| - 1;
    SectionNeverCloses(st, ks[..n]);
    if j < n {
      assert ks[..n][j] == ks[j];
      CandidateKept(st, ks[..n], j, r);
    }
  }

  /** Every residue the corrected parser reports for such a summary has a one-letter chain. */
  lemma {:induction false} AllIdsChains(ps: seq<Pocket>, nearby: Point -> seq<Neighbour>)
    requires AllPrintable(ps, nearby)
    ensures forall r :: r in AllIds(ps, nearby) ==> |r.chain| == 1
  {
    if |ps| > 0 {
      var n := |ps| - 1;
      assert AllPrintable(ps[..n], nearby) by {
        assert forall i :: 0 <= i < n ==> ps[..n][i] == ps[i];
      }
      AllIdsChains(ps[..n], nearby);
      var keys := ResiduesOf(ps[n], nearby);
      forall r | r in Ids(keys)
        ensures |r.chain| == 1
      {
        var j :| 0 <= j < |keys| && Ids(keys)[j] == r;
        assert Printable(keys[j]);
      }
    }
  }
}
