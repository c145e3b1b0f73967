/** Spreading the avalanches of a track's ions over a grid of cells below the strips. Each
    ion visits only a window of cells around it; the window must miss nothing. */
module AvalancheGrid {
  import opened Numeric
  import opened RealAlgebra
  import opened Rows

  /** `nx` times `ny` cells of size `xbw` times `ybw`, from the corner (`xl`, `yb`). */
  datatype Grid = Grid(xl: real, yb: real, xbw: real, ybw: real, nx: nat, ny: nat)
  {
    ghost predicate Valid() { xbw > 0.0 && ybw > 0.0 }

    function CenterX(jx: int): real { xl + (jx as real + 0.5) * xbw }

    function CellArea(): real { xbw * ybw }

    function CenterY(jy: int): real { yb + (jy as real + 0.5) * ybw }
  }

  /** An ion in the strip frame: where it arrives, how far its avalanche reaches, and the
      amplitude and squared width of the profile (their square roots and pi are inputs). */
  datatype Ion = Ion(x: real, y: real, snorm: real, r2: real, amplitude: real, sigma2: real)
  {
    ghost predicate Valid() { snorm > 0.0 && r2 == snorm * snorm && sigma2 > 0.0 }
  }

  /** What an ion leaves in a cell whose centre is at squared distances `xd2`, `yd2`. */
  function Share(ion: Ion, xd2: real, yd2: real): real
    requires ion.sigma2 > 0.0 && xd2 >= 0.0 && yd2 >= 0.0
  {
    if xd2 + yd2 <= ion.r2 then ion.amplitude / (xd2 + yd2 + ion.sigma2) else 0.0
  }

  /** The deposit in cell (`jx`, `jy`), with no window involved. */
  function Deposit(g: Grid, ion: Ion, jx: int, jy: int): real
    requires ion.sigma2 > 0.0
  {
    Share(ion, Square(ion.x - g.CenterX(jx)), Square(ion.y - g.CenterY(jy)))
  }

  // ---- the window ----------------------------------------------------------------

  function Bin(x: real, low: real, width: real): int
    requires width > 0.0
  {
    Trunc((x - low) / width)
  }

  function Reach(snorm: real, width: real): int
    requires width > 0.0
  {
    Trunc(snorm / width + 1.0)
  }

  function WindowLow(x: real, low: real, width: real, snorm: real): int
    requires width > 0.0
  {
    var j := Bin(x, low, width) - Reach(snorm, width);
    if j > 0 then j else 0
  }

  function WindowHigh(x: real, low: real, width: real, snorm: real, n: nat): int
    requires width > 0.0
  {
    var j := Bin(x, low, width) + Reach(snorm, width) + 1;
    if j < n then j else n
  }

  /** A cell of the grid outside the window is farther from the ion than `snorm`, also for an
      ion left of the grid, whose bin the cast rounds up instead of down. */
  lemma {:induction false} OutsideWindowIsFar(x: real, low: real, width: real, snorm: real, r2: real, n: nat, j: int, center: real)
    requires width > 0.0 && snorm > 0.0 && r2 == snorm * snorm
    requires 0 <= j < n && center == low + (j as real + 0.5) * width
    requires !(WindowLow(x, low, width, snorm) <= j < WindowHigh(x, low, width, snorm, n))
    ensures Square(x - center) > r2
  {
    var u, s := (x - low) / width, snorm / width;
    var ix, dx := Bin(x, low, width), Reach(snorm, width);
    assert u * width == x - low && s * width == snorm;
    SameSign(s, width);
    var c := j as real + 0.5;
    assert s < dx as real;
    if j < ix - dx {
      assert ix > 0 && u - c > s;
      FarAway(u - c, s, width, snorm, x - center, r2);
    } else {
      assert j >= ix + dx + 1 && c - u > s;
      FarAway(c - u, s, width, snorm, center - x, r2);
      NegatedSquare(x - center, center - x);
    }
  }

  lemma NegatedSquare(d: real, e: real)
    requires d == -e
    ensures Square(d) == Square(e)
  {
  }

  lemma FarAway(d: real, s: real, width: real, snorm: real, dw: real, r2: real)
    requires width > 0.0 && s > 0.0 && d > s && s * width == snorm && dw == d * width && r2 == snorm * snorm
    ensures Square(dw) > r2
  {
    ScaleOrder(width, s, d);
    MulPositive(s, width);
    SquareOrder(snorm, dw);
  }

  lemma SquareOrder(a: real, b: real)
    requires 0.0 < a < b
    ensures a * a < b * b
  {
    ScaleOrder(a, a, b);
    ScaleOrder(b, a, b);
  }

  ghost predicate InWindow(g: Grid, ion: Ion, jx: int, jy: int)
    requires g.Valid()
  {
    && WindowLow(ion.x, g.xl, g.xbw, ion.snorm) <= jx < WindowHigh(ion.x, g.xl, g.xbw, ion.snorm, g.nx)
    && WindowLow(ion.y, g.yb, g.ybw, ion.snorm) <= jy < WindowHigh(ion.y, g.yb, g.ybw, ion.snorm, g.ny)
  }

  lemma OutsideInX(g: Grid, ion: Ion, jx: int)
    requires g.Valid() && ion.Valid() && 0 <= jx < g.nx
    requires !(WindowLow(ion.x, g.xl, g.xbw, ion.snorm) <= jx < WindowHigh(ion.x, g.xl, g.xbw, ion.snorm, g.nx))
    ensures Square(ion.x - g.CenterX(jx)) > ion.r2
  {
    OutsideWindowIsFar(ion.x, g.xl, g.xbw, ion.snorm, ion.r2, g.nx, jx, g.CenterX(jx));
  }

  lemma OutsideInY(g: Grid, ion: Ion, jy: int)
    requires g.Valid() && ion.Valid() && 0 <= jy < g.ny
    requires !(WindowLow(ion.y, g.yb, g.ybw, ion.snorm) <= jy < WindowHigh(ion.y, g.yb, g.ybw, ion.snorm, g.ny))
    ensures Square(ion.y - g.CenterY(jy)) > ion.r2
  {
    OutsideWindowIsFar(ion.y, g.yb, g.ybw, ion.snorm, ion.r2, g.ny, jy, g.CenterY(jy));
  }

  /** What lies outside the window would have received nothing. */
  lemma OutsideWindowIsEmpty(g: Grid, ion: Ion, jx: int, jy: int)
    requires g.Valid() && ion.Valid() && 0 <= jx < g.nx && 0 <= jy < g.ny && !InWindow(g, ion, jx, jy)
    ensures Deposit(g, ion, jx, jy) == 0.0
  {
    if !(WindowLow(ion.x, g.xl, g.xbw, ion.snorm) <= jx < WindowHigh(ion.x, g.xl, g.xbw, ion.snorm, g.nx)) {
      OutsideInX(g, ion, jx);
    } else {
      OutsideInY(g, ion, jy);
    }
    FarMeansNothing(ion, Square(ion.x - g.CenterX(jx)), Square(ion.y - g.CenterY(jy)));
  }

  lemma FarMeansNothing(ion: Ion, xd2: real, yd2: real)
    requires ion.Valid() && xd2 >= 0.0 && yd2 >= 0.0
    requires xd2 > ion.r2 || yd2 > ion.r2
    ensures Share(ion, xd2, yd2) == 0.0
  {
  }

  // ---- tables --------------------------------------------------------------------

  /** A value for every cell. */
  type Table = seq<seq<real>>

  ghost predicate Shaped(t: Table, g: Grid)
  {
    |t| == g.nx && forall i :: 0 <= i < g.nx ==> |t[i]| == g.ny
  }

  /** Mentioning a cell makes the tables below say what they hold there. */
  ghost predicate Cell(jx: int, jy: int) { true }

  ghost predicate Tabulates(t: Table, g: Grid, ion: Ion)
    requires ion.sigma2 > 0.0
  {
    && Shaped(t, g)
    && forall i, k {:trigger Cell(i, k)} ::
         Cell(i, k) && 0 <= i < g.nx && 0 <= k < g.ny ==> t[i][k] == Deposit(g, ion, i, k)
  }

  lemma MakeTable(g: Grid, ion: Ion) returns (t: Table)
    requires ion.sigma2 > 0.0
    ensures Tabulates(t, g, ion)
  {
    t := seq(g.nx, i requires 0 <= i < g.nx => seq(g.ny, k requires 0 <= k < g.ny => Deposit(g, ion, i, k)));
  }

  /** The grid array holds the table `t`. */
  ghost predicate Holds(a: seq<real>, g: Grid, t: Table)
    requires |a| == Cells(g.nx, g.ny) && Shaped(t, g)
  {
    forall i: nat :: i < g.nx ==> Row(a, i, g.nx, g.ny) == t[i]
  }

  /** `t` with `d` added to the cells of the rectangle. */
  ghost function Plus(g: Grid, t: Table, d: Table, xlo: int, xhi: int, ylo: int, yhi: int): (r: Table)
    requires Shaped(t, g) && Shaped(d, g)
    ensures Shaped(r, g)
    ensures forall i, k :: 0 <= i < g.nx && 0 <= k < g.ny ==>
              r[i][k] == if xlo <= i < xhi && ylo <= k < yhi then t[i][k] + d[i][k] else t[i][k]
  {
    seq(g.nx, i requires 0 <= i < g.nx =>
      seq(g.ny, k requires 0 <= k < g.ny => if xlo <= i < xhi && ylo <= k < yhi then t[i][k] + d[i][k] else t[i][k]))
  }

  lemma SameTable(g: Grid, t: Table, u: Table)
    requires Shaped(t, g) && Shaped(u, g)
    requires forall i, k :: 0 <= i < g.nx && 0 <= k < g.ny ==> t[i][k] == u[i][k]
    ensures t == u
  {
    forall i | 0 <= i < g.nx
      ensures t[i] == u[i]
    {
      assert forall k :: 0 <= k < g.ny ==> t[i][k] == u[i][k];
    }
  }

  /** `t` with `amount` added to one cell. */
  ghost function Bump(g: Grid, t: Table, jx: nat, jy: nat, amount: real): (r: Table)
    requires Shaped(t, g) && jx < g.nx && jy < g.ny
    ensures Shaped(r, g)
    ensures forall i, k :: 0 <= i < g.nx && 0 <= k < g.ny ==>
              r[i][k] == if i == jx && k == jy then t[i][k] + amount else t[i][k]
  {
    t[jx := t[jx][jy := t[jx][jy] + amount]]
  }

  lemma NothingYet(g: Grid, t: Table, d: Table, xlo: int, xhi: int, ylo: int, yhi: int)
    requires Shaped(t, g) && Shaped(d, g) && (xhi <= xlo || yhi <= ylo)
    ensures Plus(g, t, d, xlo, xhi, ylo, yhi) == t
  {
    SameTable(g, Plus(g, t, d, xlo, xhi, ylo, yhi), t);
  }

  lemma NextCell(g: Grid, t: Table, d: Table, jx: nat, lo: nat, jy: nat)
    requires Shaped(t, g) && Shaped(d, g) && jx < g.nx && lo <= jy < g.ny
    ensures Plus(g, t, d, jx, jx + 1, lo, jy + 1) == Bump(g, Plus(g, t, d, jx, jx + 1, lo, jy), jx, jy, d[jx][jy])
  {
    var before, after := Plus(g, t, d, jx, jx + 1, lo, jy), Plus(g, t, d, jx, jx + 1, lo, jy + 1);
    SameTable(g, after, Bump(g, before, jx, jy, d[jx][jy]));
  }

  lemma NextColumn(g: Grid, t: Table, d: Table, xlo: nat, jx: nat, ylo: int, yhi: int)
    requires Shaped(t, g) && Shaped(d, g) && xlo <= jx
    ensures Plus(g, Plus(g, t, d, xlo, jx, ylo, yhi), d, jx, jx + 1, ylo, yhi) == Plus(g, t, d, xlo, jx + 1, ylo, yhi)
  {
    SameTable(g, Plus(g, Plus(g, t, d, xlo, jx, ylo, yhi), d, jx, jx + 1, ylo, yhi), Plus(g, t, d, xlo, jx + 1, ylo, yhi));
  }

  /** Adding inside the window adds everything: outside it there is nothing to add. */
  lemma WindowIsAll(g: Grid, ion: Ion, t: Table, d: Table)
    requires g.Valid() && ion.Valid() && Shaped(t, g) && Tabulates(d, g, ion)
    ensures Plus(g, t, d, WindowLow(ion.x, g.xl, g.xbw, ion.snorm), WindowHigh(ion.x, g.xl, g.xbw, ion.snorm, g.nx),
                 WindowLow(ion.y, g.yb, g.ybw, ion.snorm), WindowHigh(ion.y, g.yb, g.ybw, ion.snorm, g.ny))
            == Plus(g, t, d, 0, g.nx, 0, g.ny)
  {
    forall i, k | 0 <= i < g.nx && 0 <= k < g.ny && !InWindow(g, ion, i, k)
      ensures d[i][k] == 0.0
    {
      assert Cell(i, k);
      OutsideWindowIsEmpty(g, ion, i, k);
    }
    SameTable(g, Plus(g, t, d, WindowLow(ion.x, g.xl, g.xbw, ion.snorm), WindowHigh(ion.x, g.xl, g.xbw, ion.snorm, g.nx),
                      WindowLow(ion.y, g.yb, g.ybw, ion.snorm), WindowHigh(ion.y, g.yb, g.ybw, ion.snorm, g.ny)),
              Plus(g, t, d, 0, g.nx, 0, g.ny));
  }

  // ---- filling -------------------------------------------------------------------

  /** `fSumA[jx_base + jy] += amount`. */
  method AddCell(a: array<real>, g: Grid, jx: nat, jy: nat, amount: real, ghost t: Table)
    requires a.Length == Cells(g.nx, g.ny) && jx < g.nx && jy < g.ny && Shaped(t, g) && Holds(a[..], g, t)
    modifies a
    ensures Holds(a[..], g, Bump(g, t, jx, jy, amount))
  {
    RowsApart(jx, g.nx, g.ny);
    RowAt(a[..], jx, g.nx, g.ny, jy);
    CellsIs(jx, g.ny);
    ghost var was := a[..];
    var base := jx * g.ny;
    assert Row(was, jx, g.nx, g.ny)[jy] == t[jx][jy];
    a[base + jy] := a[base + jy] + amount;
    forall i: nat | i < g.nx
      ensures Row(a[..], i, g.nx, g.ny) == Bump(g, t, jx, jy, amount)[i]
    {
      RowUpdate(was, a[..], jx, jy, g.nx, g.ny, a[base + jy], i);
    }
  }

  /** One cell of the window: the circle test and the deposit. */
  method VisitCell(a: array<real>, g: Grid, ion: Ion, jx: nat, jy: nat, xd2: real, yc: real, ghost t: Table, ghost d: Table)
    requires g.Valid() && ion.sigma2 > 0.0 && a.Length == Cells(g.nx, g.ny) && jx < g.nx && jy < g.ny
    requires Shaped(t, g) && Holds(a[..], g, t) && Tabulates(d, g, ion)
    requires xd2 == Square(ion.x - g.CenterX(jx)) && yc == g.CenterY(jy)
    modifies a
    ensures Holds(a[..], g, Bump(g, t, jx, jy, d[jx][jy]))
  {
    var yd2 := Square(ion.y - yc);
    assert d[jx][jy] == Share(ion, xd2, yd2) by {
      assert Cell(jx, jy);
    }
    if xd2 + yd2 <= ion.r2 {
      AddCell(a, g, jx, jy, ion.amplitude / (xd2 + yd2 + ion.sigma2), t);
    } else {
      SameTable(g, Bump(g, t, jx, jy, 0.0), t);
    }
  }

  /** One column of the window: `yc` runs along with `jy`. */
  method FillColumn(a: array<real>, g: Grid, ion: Ion, jx: nat, xd2: real, lo: nat, hi: int, ghost t: Table, ghost d: Table)
    requires g.Valid() && ion.sigma2 > 0.0 && a.Length == Cells(g.nx, g.ny) && jx < g.nx && hi <= g.ny
    requires Shaped(t, g) && Holds(a[..], g, t) && Tabulates(d, g, ion)
    requires xd2 == Square(ion.x - g.CenterX(jx))
    modifies a
    ensures Holds(a[..], g, Plus(g, t, d, jx, jx + 1, lo, hi))
  {
    var jy := lo;
    var yc := g.CenterY(jy);
    ghost var now := t;
    NothingYet(g, t, d, jx, jx + 1, lo, jy);
    while jy < hi
      invariant if lo <= hi then lo <= jy <= hi else jy == lo
      invariant yc == g.CenterY(jy)
      invariant now == Plus(g, t, d, jx, jx + 1, lo, jy) && Holds(a[..], g, now)
    {
      VisitCell(a, g, ion, jx, jy, xd2, yc, now, d);
      NextCell(g, t, d, jx, lo, jy);
      now := Plus(g, t, d, jx, jx + 1, lo, jy + 1);
      NextCenter(g, jx, jy);
      jy, yc := jy + 1, yc + g.ybw;
    }
    if hi < lo {
      NothingYet(g, t, d, jx, jx + 1, lo, hi);
    }
    assert now == Plus(g, t, d, jx, jx + 1, lo, hi);
  }

  /** One ion: the columns of the window, `xc` running along with `jx`. */
  method FillIon(a: array<real>, g: Grid, ion: Ion, ghost t: Table, ghost d: Table)
    requires g.Valid() && ion.Valid() && a.Length == Cells(g.nx, g.ny)
    requires Shaped(t, g) && Holds(a[..], g, t) && Tabulates(d, g, ion)
    modifies a
    ensures Holds(a[..], g, Plus(g, t, d, 0, g.nx, 0, g.ny))
  {
    var xlo, xhi := WindowLow(ion.x, g.xl, g.xbw, ion.snorm), WindowHigh(ion.x, g.xl, g.xbw, ion.snorm, g.nx);
    var ylo, yhi := WindowLow(ion.y, g.yb, g.ybw, ion.snorm), WindowHigh(ion.y, g.yb, g.ybw, ion.snorm, g.ny);
    WindowIsAll(g, ion, t, d);
    FillWindow(a, g, ion, xlo, xhi, ylo, yhi, t, d);
  }

  method FillWindow(a: array<real>, g: Grid, ion: Ion, xlo: nat, xhi: int, ylo: nat, yhi: int, ghost t: Table, ghost d: Table)
    requires g.Valid() && ion.sigma2 > 0.0 && a.Length == Cells(g.nx, g.ny) && xhi <= g.nx && yhi <= g.ny
    requires Shaped(t, g) && Holds(a[..], g, t) && Tabulates(d, g, ion)
    modifies a
    ensures Holds(a[..], g, Plus(g, t, d, xlo, xhi, ylo, yhi))
  {
    var jx := xlo;
    var xc := g.CenterX(jx);
    ghost var now := t;
    NothingYet(g, t, d, xlo, jx, ylo, yhi);
    while jx < xhi
      invariant if xlo <= xhi then xlo <= jx <= xhi else jx == xlo
      invariant xc == g.CenterX(jx)
      invariant now == Plus(g, t, d, xlo, jx, ylo, yhi) && Holds(a[..], g, now)
    {
      NextColumn(g, t, d, xlo, jx, ylo, yhi);
      FillColumn(a, g, ion, jx, Square(ion.x - xc), ylo, yhi, now, d);
      now := Plus(g, t, d, xlo, jx + 1, ylo, yhi);
      NextCenter(g, jx, ylo);
      jx, xc := jx + 1, xc + g.xbw;
    }
    if xhi < xlo {
      NothingYet(g, t, d, xlo, xhi, ylo, yhi);
    }
    assert now == Plus(g, t, d, xlo, xhi, ylo, yhi);
  }

  ghost predicate AllValid(ions: seq<Ion>)
  {
    forall i :: 0 <= i < |ions| ==> ions[i].Valid()
  }

  /** What all ions leave in a cell: a scan of the whole grid for every ion gives this. */
  ghost function Collected(g: Grid, ions: seq<Ion>, n: nat, jx: int, jy: int): real
    requires n <= |ions| && AllValid(ions)
  {
    if n == 0 then 0.0 else Collected(g, ions, n - 1, jx, jy) + Deposit(g, ions[n - 1], jx, jy)
  }

  ghost predicate Collects(t: Table, g: Grid, ions: seq<Ion>, n: nat)
    requires n <= |ions| && AllValid(ions)
  {
    && Shaped(t, g)
    && forall i, k {:trigger Cell(i, k)} ::
         Cell(i, k) && 0 <= i < g.nx && 0 <= k < g.ny ==> t[i][k] == Collected(g, ions, n, i, k)
  }

  lemma CollectsNext(g: Grid, ions: seq<Ion>, n: nat, t: Table, d: Table)
    requires n < |ions| && AllValid(ions)
    requires Collects(t, g, ions, n) && Tabulates(d, g, ions[n])
    ensures Collects(Plus(g, t, d, 0, g.nx, 0, g.ny), g, ions, n + 1)
  {
  }

  /** All ions over a zeroed grid. */
  method FillGrid(g: Grid, ions: seq<Ion>) returns (a: array<real>, ghost t: Table)
    requires g.Valid() && AllValid(ions)
    ensures fresh(a) && a.Length == Cells(g.nx, g.ny)
    ensures Collects(t, g, ions, |ions|) && Holds(a[..], g, t)
  {
    a := new real[Cells(g.nx, g.ny)](_ => 0.0);
    t := seq(g.nx, i requires 0 <= i < g.nx => seq(g.ny, k requires 0 <= k < g.ny => 0.0));
    forall i: nat | i < g.nx
      ensures Row(a[..], i, g.nx, g.ny) == t[i]
    {
      RowOfConstant(a[..], i, g.nx, g.ny, 0.0);
    }
    for n := 0 to |ions|
      invariant a.Length == Cells(g.nx, g.ny) && fresh(a)
      invariant Collects(t, g, ions, n) && Holds(a[..], g, t)
    {
      ghost var d := MakeTable(g, ions[n]);
      FillIon(a, g, ions[n], t, d);
      CollectsNext(g, ions, n, t, d);
      t := Plus(g, t, d, 0, g.nx, 0, g.ny);
    }
  }

  /** So every cell of the array is what the scan without windows would have put there. */
  lemma {:induction false} GridIsFullScan(g: Grid, ions: seq<Ion>, a: seq<real>, t: Table, jx: nat, jy: nat)
    requires AllValid(ions)
    requires |a| == Cells(g.nx, g.ny) && Collects(t, g, ions, |ions|) && Holds(a, g, t) && jx < g.nx && jy < g.ny
    ensures Row(a, jx, g.nx, g.ny)[jy] == Collected(g, ions, |ions|, jx, jy)
  {
    assert Cell(jx, jy);
  }

  /** Stepping by the bin width goes from one cell centre to the next. */
  lemma NextCenter(g: Grid, jx: int, jy: int)
    ensures g.CenterX(jx) + g.xbw == g.CenterX(jx + 1) && g.CenterY(jy) + g.ybw == g.CenterY(jy + 1)
  {
    Dist(g.xbw, jx as real + 0.5, 1.0);
    Dist(g.ybw, jy as real + 0.5, 1.0);
  }
}
