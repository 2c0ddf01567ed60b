/**
 * The parsed structure as the core sees it, and the fixed residue tables
 * of structure.py: the twenty standard amino acids, the Kyte-Doolittle
 * hydrophobicity scale and the simple charge table.
 */
module Protein {
  import opened Wrappers
  import opened Geometry
  import opened Text

  type NonNeg = r: real | r >= 0.0

  /** An atom: its name, its coordinate and whether it belongs to a HETATM residue. */
  datatype Atom = Atom(name: string, coord: Point, hetero: bool)

  datatype Residue = Residue(chain: string, num: int, name: string, atoms: seq<Atom>)

  /** One record of the accessibility service: a residue (by position) and its relative exposed surface. */
  datatype DsspEntry = DsspEntry(residue: nat, relAsa: real)

  /** The first model of the structure, with the accessibility data when that service succeeded. */
  datatype Structure = Structure(residues: seq<Residue>, dssp: Option<seq<DsspEntry>>)

  /**
   * A residue returned by the 8 A neighbour search around a point, with the
   * distance from that point to the residue's closest atom.
   */
  datatype Neighbour = Neighbour(chain: string, num: int, name: string, dist: NonNeg)

  /** `(chain_id, res_id, res_name)`, the tuple `get_pocket_residues` returns. */
  datatype ResidueKey = ResidueKey(chain: string, num: int, name: string)

  function AllAtoms(residues: seq<Residue>): seq<Atom> {
    if |residues| == 0 then [] else AllAtoms(residues[..|residues| - 1]) + residues[|residues| - 1].atoms
  }

  function Coords(atoms: seq<Atom>): (r: seq<Point>)
    ensures |r| == |atoms|
    ensures forall i :: 0 <= i < |atoms| ==> r[i] == atoms[i].coord
  {
    seq(|atoms|, i requires 0 <= i < |atoms| => atoms[i].coord)
  }

  const StandardNames: set<string> := {
    "ALA", "ARG", "ASN", "ASP", "CYS", "GLN", "GLU", "GLY", "HIS", "ILE",
    "LEU", "LYS", "MET", "PHE", "PRO", "SER", "THR", "TRP", "TYR", "VAL"
  }

  /** The Kyte & Doolittle scale; `None` for names it does not list. */
  function KyteDoolittle(name: string): (h: Option<real>)
    ensures h.Some? ==> -4.5 <= h.value <= 4.5
    ensures h.Some? <==> name in StandardNames
  {
    match name
    case "ILE" => Some(4.5)
    case "VAL" => Some(4.2)
    case "LEU" => Some(3.8)
    case "PHE" => Some(2.8)
    case "CYS" => Some(2.5)
    case "MET" => Some(1.9)
    case "ALA" => Some(1.8)
    case "GLY" => Some(-0.4)
    case "THR" => Some(-0.7)
    case "SER" => Some(-0.8)
    case "TRP" => Some(-0.9)
    case "TYR" => Some(-1.3)
    case "PRO" => Some(-1.6)
    case "HIS" => Some(-3.2)
    case "GLU" => Some(-3.5)
    case "GLN" => Some(-3.5)
    case "ASP" => Some(-3.5)
    case "ASN" => Some(-3.5)
    case "LYS" => Some(-3.9)
    case "ARG" => Some(-4.5)
    case _ => None
  }

  /** The charge table; `None` for names it does not list. */
  function Charge(name: string): (q: Option<real>)
    ensures q.Some? ==> -1.0 <= q.value <= 1.0
    ensures q.Some? ==> name in StandardNames
  {
    match name
    case "ARG" => Some(1.0)
    case "LYS" => Some(1.0)
    case "HIS" => Some(0.5)
    case "ASP" => Some(-1.0)
    case "GLU" => Some(-1.0)
    case "SER" => Some(0.1)
    case "THR" => Some(0.1)
    case "ASN" => Some(0.1)
    case "GLN" => Some(0.1)
    case "TYR" => Some(0.1)
    case _ => None
  }

  /** Python's ordering of `(chain, number, name)` tuples. */
  predicate KeyLess(a: ResidueKey, b: ResidueKey) {
    LexLess(a.chain, b.chain)
    || (a.chain == b.chain && (a.num < b.num || (a.num == b.num && LexLess(a.name, b.name))))
  }

  lemma KeyLessTransitive(a: ResidueKey, b: ResidueKey, c: ResidueKey)
    requires KeyLess(a, b) && KeyLess(b, c)
    ensures KeyLess(a, c)
  {
    if LexLess(a.chain, b.chain) && LexLess(b.chain, c.chain) {
      LexTransitive(a.chain, b.chain, c.chain);
    } else if a.chain == b.chain && b.chain == c.chain && a.num == b.num && b.num == c.num {
      LexTransitive(a.name, b.name, c.name);
    }
  }

  lemma KeyLessTotal(a: ResidueKey, b: ResidueKey)
    requires a != b
    ensures KeyLess(a, b) || KeyLess(b, a)
  {
    if a.chain != b.chain {
      LexTotal(a.chain, b.chain);
    } else if a.num == b.num {
      LexTotal(a.name, b.name);
    }
  }

  lemma KeyLessIrreflexive(a: ResidueKey)
    ensures !KeyLess(a, a)
  {
    LexIrreflexive(a.chain);
    LexIrreflexive(a.name);
  }
}
