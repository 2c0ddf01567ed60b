/**
 * The regular lattice laid over a bounding box, `np.arange` axis lengths, and
 * the decomposition of a linear sample index into a lattice cell
 * (the same code in structure.py and finder.py).
 */
module Grid {
  import opened Geometry

  datatype Grid = Grid(origin: Point, step: real, nx: nat, ny: nat, nz: nat)

  datatype Cell = Cell(i: int, j: int, k: int)

  /** Number of lattice points, `len(x) * len(y) * len(z)`. */
  function Size(g: Grid): nat {
    g.nx * (g.ny * g.nz)
  }

  predicate InGrid(g: Grid, c: Cell) {
    0 <= c.i < g.nx && 0 <= c.j < g.ny && 0 <= c.k < g.nz
  }

  /** `i = idx // (ny*nz); j = (idx % (ny*nz)) // nz; k = idx % nz`. */
  function Decompose(g: Grid, idx: nat): Cell
    requires g.ny * g.nz > 0
  {
    Cell(idx / (g.ny * g.nz), (idx % (g.ny * g.nz)) / g.nz, idx % g.nz)
  }

  /** Row-major linear index of a cell. */
  function Compose(g: Grid, c: Cell): int {
    c.i * (g.ny * g.nz) + c.j * g.nz + c.k
  }

  /** Coordinates `(x[i], y[j], z[k])` of a cell. */
  function PointAt(g: Grid, c: Cell): Point {
    Point(g.origin.x + (c.i as real) * g.step,
          g.origin.y + (c.j as real) * g.step,
          g.origin.z + (c.k as real) * g.step)
  }

  lemma MulLe(a: int, b: int, c: int)
    requires 0 <= c && a <= b
    ensures a * c <= b * c
  {
    assert b * c - a * c == (b - a) * c;
  }

  /** Division with remainder is unique. */
  lemma DivModUnique(n: int, d: int, q: int, r: int)
    requires d > 0 && 0 <= r < d && n == d * q + r
    ensures n / d == q && n % d == r
  {
    var q', r' := n / d, n % d;
    assert n == d * q' + r' && 0 <= r' < d;
    if q > q' {
      MulLe(q' + 1, q, d);
    } else if q < q' {
      MulLe(q + 1, q', d);
    }
  }

  /** An index below `b * d` has quotient below `b`. */
  lemma DivBelow(n: int, d: int, b: int)
    requires d > 0 && 0 <= n < b * d
    ensures 0 <= n / d < b
  {
    if n / d >= b {
      MulLe(b, n / d, d);
    }
  }

  lemma PositiveFactors(a: int, b: int)
    requires a >= 0 && b >= 0 && a * b > 0
    ensures a > 0 && b > 0
  {
  }

  lemma PositiveProduct(a: int, b: int)
    requires a > 0 && b > 0
    ensures a * b > 0
  {
    MulLe(1, a, b);
  }

  /** The arithmetic core of `DecomposeInGrid`, on plain integers. */
  lemma DecomposeIndex(idx: int, nx: int, ny: int, nz: int)
    requires 0 <= idx < nx * (ny * nz) && nx >= 0 && ny >= 0 && nz >= 0
    ensures ny * nz > 0 && nz > 0
    ensures 0 <= idx / (ny * nz) < nx
    ensures 0 <= (idx % (ny * nz)) / nz < ny
    ensures idx % nz == (idx % (ny * nz)) % nz
    ensures idx / (ny * nz) * (ny * nz) + (idx % (ny * nz)) / nz * nz + idx % nz == idx
  {
    var m := ny * nz;
    PositiveFactors(nx, m);
    PositiveFactors(ny, nz);
    var i, rem := idx / m, idx % m;
    DivBelow(idx, m, nx);
    var j, k := rem / nz, rem % nz;
    DivBelow(rem, nz, ny);
    assert idx == m * i + rem;
    assert rem == nz * j + k;
    assert m * i == nz * (ny * i);
    DivModUnique(idx, nz, ny * i + j, k);
  }

  /**
   * Every index below the lattice size decomposes into a cell of the
   * lattice that composes back to it: the bounds guard right after the
   * decomposition never fires.
   */
  lemma DecomposeInGrid(g: Grid, idx: nat)
    requires idx < Size(g)
    ensures g.ny * g.nz > 0
    ensures InGrid(g, Decompose(g, idx))
    ensures Compose(g, Decompose(g, idx)) == idx
  {
    DecomposeIndex(idx, g.nx, g.ny, g.nz);
  }

  /** Every cell of the lattice is the decomposition of its own index. */
  lemma ComposeInRange(g: Grid, c: Cell)
    requires InGrid(g, c)
    ensures 0 <= Compose(g, c) < Size(g)
    ensures g.ny * g.nz > 0
    ensures Decompose(g, Compose(g, c) as nat) == c
  {
    var m := g.ny * g.nz;
    MulLe(c.j + 1, g.ny, g.nz);
    var inner := c.j * g.nz + c.k;
    assert 0 <= c.j * g.nz;
    assert 0 <= inner < m;
    MulLe(c.i + 1, g.nx, m);
    assert 0 <= c.i * m;
    assert Size(g) == g.nx * m;
    var n := Compose(g, c);
    assert n == m * c.i + inner;
    DivModUnique(n, m, c.i, inner);
    DivModUnique(inner, g.nz, c.j, c.k);
    assert m * c.i == g.nz * (g.ny * c.i);
    DivModUnique(n, g.nz, g.ny * c.i + c.j, c.k);
  }

  /** `ceil` of a real number. */
  function Ceil(x: real): (r: int)
    ensures x <= r as real < x + 1.0
  {
    if x == x.Floor as real then x.Floor else x.Floor + 1
  }

  /** Length of `np.arange(lo, hi, step)` for a positive step. */
  function AxisCount(lo: real, hi: real, step: real): (n: nat)
    requires step > 0.0
    ensures n > 0 <==> lo < hi
  {
    if hi <= lo then 0
    else
      var c := Ceil((hi - lo) / step);
      assert c > 0;
      c
  }

  function MinOf(s: seq<real>): (r: real)
    requires |s| > 0
    ensures forall i :: 0 <= i < |s| ==> r <= s[i]
  {
    if |s| == 1 then s[0]
    else
      var m := MinOf(s[..|s| - 1]);
      if s[|s| - 1] < m then s[|s| - 1] else m
  }

  function MaxOf(s: seq<real>): (r: real)
    requires |s| > 0
    ensures forall i :: 0 <= i < |s| ==> s[i] <= r
  {
    if |s| == 1 then s[0]
    else
      var m := MaxOf(s[..|s| - 1]);
      if s[|s| - 1] > m then s[|s| - 1] else m
  }

  function Xs(ps: seq<Point>): seq<real> { seq(|ps|, i requires 0 <= i < |ps| => ps[i].x) }
  function Ys(ps: seq<Point>): seq<real> { seq(|ps|, i requires 0 <= i < |ps| => ps[i].y) }
  function Zs(ps: seq<Point>): seq<real> { seq(|ps|, i requires 0 <= i < |ps| => ps[i].z) }

  /**
   * The lattice over the bounding box of `coords` padded by `padding` on
   * every side: `np.arange(min - padding, max + padding, step)` per axis.
   */
  function GridAround(coords: seq<Point>, padding: real, step: real): (g: Grid)
    requires |coords| > 0 && step > 0.0 && padding > 0.0
    ensures g.step == step && Size(g) > 0
  {
    var lo := Point(MinOf(Xs(coords)) - padding, MinOf(Ys(coords)) - padding, MinOf(Zs(coords)) - padding);
    var hi := Point(MaxOf(Xs(coords)) + padding, MaxOf(Ys(coords)) + padding, MaxOf(Zs(coords)) + padding);
    assert Xs(coords)[0] == coords[0].x && Ys(coords)[0] == coords[0].y && Zs(coords)[0] == coords[0].z;
    var g := Grid(lo, step, AxisCount(lo.x, hi.x, step), AxisCount(lo.y, hi.y, step), AxisCount(lo.z, hi.z, step));
    PositiveProduct(g.ny, g.nz);
    PositiveProduct(g.nx, g.ny * g.nz);
    g
  }

  /**
   * What `np.random.choice(size, size=min(cap, size), replace=False)` can
   * return: `min(cap, size)` distinct indices below `size`.
   */
  predicate ValidSample(indices: seq<nat>, cap: nat, size: nat) {
    && |indices| == (if cap < size then cap else size)
    && (forall s :: 0 <= s < |indices| ==> indices[s] < size)
    && (forall s, t :: 0 <= s < t < |indices| ==> indices[s] != indices[t])
  }

  /** A sample of distinct indices visits distinct lattice cells. */
  lemma SampleCellsDistinct(g: Grid, indices: seq<nat>, cap: nat, s: nat, t: nat)
    requires ValidSample(indices, cap, Size(g))
    requires s < t < |indices|
    ensures g.ny * g.nz > 0
    ensures Decompose(g, indices[s]) != Decompose(g, indices[t])
  {
    DecomposeInGrid(g, indices[s]);
    DecomposeInGrid(g, indices[t]);
  }
}
