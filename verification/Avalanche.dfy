/** The avalanche model of one readout plane: which strips the avalanche region touches, the
    grid below those strips, and the hit that comes out. Coordinates are in the strip frame,
    all in one unit of length. */
module Avalanche {
  import opened Numeric
  import opened RealAlgebra
  import opened Rows
  import opened GEMPlane
  import AvalancheGrid
  import AvalancheHit
  import StripPlane
  import GEMHit

  // ---- the region ----------------------------------------------------------------

  datatype Region = OutOfSector | Region(x0: real, y0: real, x1: real, y1: real)

  predicate Between(v: real, a: real, b: real) { Lesser(a, b) <= v <= Greater(a, b) }

  /** Within `margin` of the rectangle spanned by the track's two ends. */
  predicate InBand(xi: Point, xo: Point, margin: real, p: Point)
  {
    && Lesser(xi.x, xo.x) - margin <= p.x <= Greater(xi.x, xo.x) + margin
    && Lesser(xi.y, xo.y) - margin <= p.y <= Greater(xi.y, xo.y) + margin
  }

  predicate InRectangle(x0: real, y0: real, x1: real, y1: real, p: Point)
  {
    x0 <= p.x <= x1 && y0 <= p.y <= y1
  }

  ghost predicate IsRegion(r: Region, xi: Point, xo: Point, margin: real, gl: Point, gu: Point)
  {
    match r
    case OutOfSector => forall p :: !(InBand(xi, xo, margin, p) && InRectangle(gl.x, gl.y, gu.x, gu.y, p))
    case Region(x0, y0, x1, y1) =>
      && x0 <= x1 && y0 <= y1
      && forall p :: InRectangle(x0, y0, x1, y1, p) <==> InBand(xi, xo, margin, p) && InRectangle(gl.x, gl.y, gu.x, gu.y, p)
  }

  /** The avalanche region: the band around the track, cut off at the chamber's limits; none
      exactly when the two have no point in common. */
  method AvaRegion(xi: Point, xo: Point, margin: real, gl: Point, gu: Point) returns (r: Region)
    requires margin >= 0.0 && gl.x <= gu.x && gl.y <= gu.y
    ensures IsRegion(r, xi, xo, margin, gl, gu)
  {
    var x0, x1 := Limits(xi.x, xo.x, margin);
    var y0, y1 := Limits(xi.y, xo.y, margin);
    if x1 < gl.x || x0 > gu.x || y1 < gl.y || y0 > gu.y {
      return OutOfSector;
    }
    if x0 < gl.x { x0 := gl.x; }
    if y0 < gl.y { y0 := gl.y; }
    if x1 > gu.x { x1 := gu.x; }
    if y1 > gu.y { y1 := gu.y; }
    r := Region(x0, y0, x1, y1);
    assert InRectangle(x0, y0, x1, y1, Point(x0, y0));
    assert InBand(xi, xo, margin, Point(x0, y0)) && InRectangle(gl.x, gl.y, gu.x, gu.y, Point(x0, y0));
  }

  method Limits(a: real, b: real, margin: real) returns (lo: real, hi: real)
    ensures lo == Lesser(a, b) - margin && hi == Greater(a, b) + margin
  {
    if a < b {
      lo, hi := a - margin, b + margin;
    } else {
      hi, lo := a + margin, b - margin;
    }
  }

  // ---- which strips --------------------------------------------------------------

  datatype Range = Missed | Touched(iL: int, iU: int)

  ghost predicate InBox(pl: GEMPlane, p: Point)
    reads pl
  {
    pl.box.Contains(StripToPlane(pl.angle, p))
  }

  lemma HasStrips(pl: GEMPlane)
    requires pl.Valid()
    ensures pl.fNStrips > 0
  {
    SameSign(pl.fNStrips as real, pl.fSPitch);
  }

  lemma NearestMonotone(pl: GEMPlane, a: int, x: real, b: int, y: real)
    requires pl.fSPitch > 0.0 && pl.Nearest(a, x) && pl.Nearest(b, y) && x <= y
    ensures a <= b
  {
    EdgesOrdered(pl, b, a);
    ClampedMonotone(pl.fNStrips, pl.fSBeg, pl.UpperEdge(pl.fNStrips - 1), a, x, pl.LowerEdge(a), pl.UpperEdge(a),
                    b, y, pl.LowerEdge(b), pl.UpperEdge(b));
  }

  lemma ClampedMonotone(n: int, beg: real, end: real, a: int, x: real, la: real, ua: real, b: int, y: real, lb: real, ub: real)
    requires 0 <= a < n && 0 <= b < n && x <= y
    requires Clamped(a, n, x, beg, end, la, ua) && Clamped(b, n, y, beg, end, lb, ub)
    requires b < a ==> ub <= la
    ensures a <= b
  {
  }

  lemma OnStripIsNearest(pl: GEMPlane, x: real, strip: int)
    requires pl.fSPitch > 0.0 && 0 <= strip < pl.fNStrips && pl.LowerEdge(strip) <= x < pl.UpperEdge(strip)
    ensures pl.Nearest(strip, x)
  {
    EdgesOrdered(pl, 0, strip);
    EdgesOrdered(pl, strip, pl.fNStrips - 1);
  }

  /** A corner's strip: found by `GetStrip`, or -1 outside the box. */
  method CornerStripOrNone(pl: GEMPlane, p: Point) returns (strip: int)
    requires pl.Valid()
    ensures strip == -1 <==> !InBox(pl, p)
    ensures strip != -1 ==> pl.Nearest(strip, p.x)
  {
    strip := pl.GetStrip(p.x, p.y);
    if strip != -1 {
      OnStripIsNearest(pl, p.x, strip);
    }
  }

  method NearestStrip(pl: GEMPlane, x: real) returns (strip: int)
    requires pl.Valid()
    ensures pl.Nearest(strip, x)
  {
    HasStrips(pl);
    strip := pl.GetStripInRange(x);
  }

  /** The strips between two corners of the region. Nothing is touched when both corners are
      outside the box; a single corner outside is moved to the nearest strip. */
  method TouchedStrips(pl: GEMPlane, p0: Point, p1: Point) returns (r: Range)
    requires pl.Valid()
    ensures r.Missed? <==> !InBox(pl, p0) && !InBox(pl, p1)
    ensures r.Touched? ==> 0 <= r.iL <= r.iU < pl.fNStrips
    ensures r.Touched? ==> pl.Nearest(r.iL, Lesser(p0.x, p1.x)) && pl.Nearest(r.iU, Greater(p0.x, p1.x))
  {
    var iL := CornerStripOrNone(pl, p0);
    var iU := CornerStripOrNone(pl, p1);
    if iL < 0 && iU < 0 {
      return Missed;
    }
    if iL < 0 {
      iL := NearestStrip(pl, p0.x);
    } else if iU < 0 {
      iU := NearestStrip(pl, p1.x);
    }
    if p0.x <= p1.x {
      NearestMonotone(pl, iL, p0.x, iU, p1.x);
    } else {
      NearestMonotone(pl, iU, p1.x, iL, p0.x);
    }
    if iL > iU {
      iL, iU := iU, iL;
    }
    r := Touched(iL, iU);
  }

  function Lesser(a: real, b: real): real { if a < b then a else b }

  function Greater(a: real, b: real): real { if a < b then b else a }

  // ---- what two corners cover ----------------------------------------------------

  /** The strips and the grid are laid out from two opposite corners of the region. The other
      two corners fall between these along the strip numbers exactly when cosine and sine
      differ in sign, and across exactly when they agree. */
  lemma OtherCornersAlong(a: Angle, x0: real, y0: real, x1: real, y1: real)
    requires x0 < x1 && y0 < y1
    ensures var p0, p1 := PlaneToStrip(a, Point(x0, y0)), PlaneToStrip(a, Point(x1, y1));
            var q0, q1 := PlaneToStrip(a, Point(x0, y1)), PlaneToStrip(a, Point(x1, y0));
            Between(q0.x, p0.x, p1.x) && Between(q1.x, p0.x, p1.x) <==> a.c * a.s <= 0.0
  {
    MinusBetween(a.c, a.s, x0, y0, x1, y1);
  }

  lemma OtherCornersAcross(a: Angle, x0: real, y0: real, x1: real, y1: real)
    requires x0 < x1 && y0 < y1
    ensures var p0, p1 := PlaneToStrip(a, Point(x0, y0)), PlaneToStrip(a, Point(x1, y1));
            var q0, q1 := PlaneToStrip(a, Point(x0, y1)), PlaneToStrip(a, Point(x1, y0));
            Between(q0.y, p0.y, p1.y) && Between(q1.y, p0.y, p1.y) <==> a.c * a.s >= 0.0
  {
    PlusBetween(a.s, a.c, x0, y0, x1, y1);
    assert a.s * a.c == a.c * a.s;
  }

  lemma PlusBetween(c: real, s: real, x0: real, y0: real, x1: real, y1: real)
    requires x0 < x1 && y0 < y1
    ensures (Between(Plus(c, x0, s, y1), Plus(c, x0, s, y0), Plus(c, x1, s, y1)) &&
             Between(Plus(c, x1, s, y0), Plus(c, x0, s, y0), Plus(c, x1, s, y1))) <==> c * s >= 0.0
  {
    SumsBetween(c, s, x0, y0, x1, y1, c * x0, c * x1, s * y0, s * y1, c * s);
  }

  lemma MinusBetween(c: real, s: real, x0: real, y0: real, x1: real, y1: real)
    requires x0 < x1 && y0 < y1
    ensures (Between(Minus(c, x0, s, y1), Minus(c, x0, s, y0), Minus(c, x1, s, y1)) &&
             Between(Minus(c, x1, s, y0), Minus(c, x0, s, y0), Minus(c, x1, s, y1))) <==> c * s <= 0.0
  {
    var n := -s;
    PlusBetween(c, n, x0, y0, x1, y1);
    Dist(c, s, 0.0);
    MinusIsPlus(c, x0, s, y0, n);
    MinusIsPlus(c, x0, s, y1, n);
    MinusIsPlus(c, x1, s, y0, n);
    MinusIsPlus(c, x1, s, y1, n);
  }

  lemma MinusIsPlus(c: real, x: real, s: real, y: real, n: real)
    requires n == -s
    ensures Minus(c, x, s, y) == Plus(c, x, n, y)
  {
    Dist(y, s, 0.0);
  }

  lemma SumsBetween(c: real, s: real, x0: real, y0: real, x1: real, y1: real,
                    cx0: real, cx1: real, sy0: real, sy1: real, cs: real)
    requires x0 < x1 && y0 < y1 && cs == c * s
    requires cx0 == c * x0 && cx1 == c * x1 && sy0 == s * y0 && sy1 == s * y1
    ensures Between(cx0 + sy1, cx0 + sy0, cx1 + sy1) && Between(cx1 + sy0, cx0 + sy0, cx1 + sy1) <==> cs >= 0.0
  {
    DifferenceSign(c, x0, x1, cx0, cx1);
    DifferenceSign(s, y0, y1, sy0, sy1);
    BothBetween(cx0, cx1, sy0, sy1);
    Signs(c, s, cs);
  }

  lemma BothBetween(x0: real, x1: real, y0: real, y1: real)
    ensures Between(x0 + y1, x0 + y0, x1 + y1) && Between(x1 + y0, x0 + y0, x1 + y1) <==>
            (x0 <= x1 && y0 <= y1) || (x1 <= x0 && y1 <= y0)
  {
  }

  lemma DifferenceSign(c: real, lo: real, hi: real, cLo: real, cHi: real)
    requires lo < hi && cLo == c * lo && cHi == c * hi
    ensures cLo <= cHi <==> c >= 0.0
    ensures cHi <= cLo <==> c <= 0.0
  {
    var d := hi - lo;
    assert c * d == cHi - cLo;
    SameSign(c, d);
  }

  lemma Signs(c: real, s: real, cs: real)
    requires cs == c * s
    ensures cs <= 0.0 <==> (c >= 0.0 && s <= 0.0) || (c <= 0.0 && s >= 0.0)
    ensures cs >= 0.0 <==> (c >= 0.0 && s >= 0.0) || (c <= 0.0 && s <= 0.0)
  {
    if s > 0.0 {
      SameSign(c, s);
    } else if s < 0.0 {
      var n := -s;
      SameSign(c, n);
      assert c * n == -cs;
    }
  }

  /** So strips and grid reach all four corners exactly when the strips run along the edges of
      the chamber. */
  lemma AllCornersIff(a: Angle, x0: real, y0: real, x1: real, y1: real)
    requires x0 < x1 && y0 < y1
    ensures var p0, p1 := PlaneToStrip(a, Point(x0, y0)), PlaneToStrip(a, Point(x1, y1));
            (forall p :: p == Point(x0, y1) || p == Point(x1, y0) ==>
               var q := PlaneToStrip(a, p); Between(q.x, p0.x, p1.x) && Between(q.y, p0.y, p1.y))
            <==> a.c * a.s == 0.0
  {
    OtherCornersAlong(a, x0, y0, x1, y1);
    OtherCornersAcross(a, x0, y0, x1, y1);
    var p0, p1 := PlaneToStrip(a, Point(x0, y0)), PlaneToStrip(a, Point(x1, y1));
    var q0, q1 := Point(x0, y1), Point(x1, y0);
    if forall p :: p == q0 || p == q1 ==> var q := PlaneToStrip(a, p); Between(q.x, p0.x, p1.x) && Between(q.y, p0.y, p1.y) {
      assert q0 == Point(x0, y1) && q1 == Point(x1, y0);
    }
  }

  /** A point between the two corners has its strip among those touched. */
  lemma BetweenIsTouched(pl: GEMPlane, r: Range, p0: Point, p1: Point, q: Point, strip: int)
    requires pl.fSPitch > 0.0 && r.Touched? && Between(q.x, p0.x, p1.x) && pl.Nearest(strip, q.x)
    requires pl.Nearest(r.iL, Lesser(p0.x, p1.x)) && pl.Nearest(r.iU, Greater(p0.x, p1.x))
    ensures r.iL <= strip <= r.iU
  {
    NearestMonotone(pl, r.iL, Lesser(p0.x, p1.x), strip, q.x);
    NearestMonotone(pl, strip, q.x, r.iU, Greater(p0.x, p1.x));
  }

  /** An oblique plane whose touched strips miss two corners of the region from (0, 0) to
      (4, 3): both corners used lie at 0, the others at -2.4 and 2.4. */
  lemma ObliqueCornersMissed(pl: GEMPlane, r: Range, low: int, high: int)
    requires pl.angle == Angle(0.6, 0.8) && 0.0 < pl.fSPitch <= 2.4 && r.Touched?
    requires pl.fSBeg <= -2.4 && 2.4 < pl.UpperEdge(pl.fNStrips - 1)
    requires var p0, p1 := PlaneToStrip(pl.angle, Point(0.0, 0.0)), PlaneToStrip(pl.angle, Point(4.0, 3.0));
             pl.Nearest(r.iL, Lesser(p0.x, p1.x)) && pl.Nearest(r.iU, Greater(p0.x, p1.x))
    requires pl.Nearest(low, PlaneToStrip(pl.angle, Point(0.0, 3.0)).x)
    requires pl.Nearest(high, PlaneToStrip(pl.angle, Point(4.0, 0.0)).x)
    ensures low < r.iL == r.iU < high
  {
    ObliqueCorners();
    NearestMonotone(pl, r.iL, 0.0, r.iU, 0.0);
    NearestMonotone(pl, r.iU, 0.0, r.iL, 0.0);
    PitchApart(pl, low, -2.4, r.iL, 0.0);
    PitchApart(pl, r.iU, 0.0, high, 2.4);
  }

  lemma ObliqueCorners()
    ensures PlaneToStrip(Angle(0.6, 0.8), Point(0.0, 0.0)) == Point(0.0, 0.0)
    ensures PlaneToStrip(Angle(0.6, 0.8), Point(4.0, 3.0)) == Point(0.0, 5.0)
    ensures PlaneToStrip(Angle(0.6, 0.8), Point(0.0, 3.0)) == Point(-2.4, 1.8)
    ensures PlaneToStrip(Angle(0.6, 0.8), Point(4.0, 0.0)) == Point(2.4, 3.2)
  {
  }

  /** Points a pitch apart are on different strips. */
  lemma PitchApart(pl: GEMPlane, a: int, x: real, b: int, y: real)
    requires pl.fSPitch > 0.0 && pl.Nearest(a, x) && pl.Nearest(b, y) && x + pl.fSPitch <= y
    requires pl.fSBeg <= x && y < pl.UpperEdge(pl.fNStrips - 1)
    ensures a < b
  {
    EdgesOrdered(pl, b, a);
  }

  // ---- how far across ------------------------------------------------------------

  /** Whole steps across the region, and how many; both ends are multiples of the step. */
  method StepsAcross(ys0: real, ys1: real, yq: real) returns (yb: real, yt: real, ny: int)
    requires yq > 0.0
    ensures yb <= Lesser(ys0, ys1) < yb + yq && yt - yq < Greater(ys0, ys1) <= yt
    ensures ny >= 0 && yt - yb == Times(ny, yq)
    ensures ny == 0 <==> ys0 == ys1 && IsMultiple(ys0, yq)
  {
    yb, yt := ys0, ys1;
    if yb > yt {
      yb, yt := yt, yb;
    }
    var lo, hi := (yb / yq).Floor, Ceil(yt / yq);
    var b, t := Times(lo, yq), Times(hi, yq);
    ny := Round((t - b) / yq);
    StepsAre(yb, yt, yq, lo, hi, b, t, ny);
    yb, yt := b, t;
  }

  lemma StepsAre(yb: real, yt: real, yq: real, lo: int, hi: int, b: real, t: real, ny: int)
    requires yq > 0.0 && yb <= yt && lo == (yb / yq).Floor && hi == Ceil(yt / yq)
    requires b == Times(lo, yq) && t == Times(hi, yq) && ny == Round((t - b) / yq)
    ensures b <= yb < b + yq && t - yq < yt <= t
    ensures ny >= 0 && t - b == Times(ny, yq)
    ensures ny == 0 <==> yb == yt && IsMultiple(yb, yq)
  {
    Multiples(yb, yt, yq, lo, hi);
    WholeSteps(yq, lo, hi);
  }

  /** A plane and a track for which the number of steps is 0: the corners (0, 0) and (3, 4) of
      a region have the same y along the strips of this angle, and it is a multiple of any step. */
  lemma NoStepsAcross(pl: GEMPlane, yq: real)
    requires pl.angle == Angle(0.6, -0.8) && pl.box.dx >= 0.0 && pl.box.dy >= 0.0
    ensures var p0, p1 := PlaneToStrip(pl.angle, Point(0.0, 0.0)), PlaneToStrip(pl.angle, Point(3.0, 4.0));
            InBox(pl, p0) && p0.y == p1.y && IsMultiple(p0.y, yq)
  {
    assert Times(0, yq) == 0.0;
  }

  ghost predicate IsMultiple(y: real, yq: real)
  {
    exists k: int :: y == Times(k, yq)
  }

  function Times(k: int, yq: real): real { yq * k as real }

  lemma Multiples(yb: real, yt: real, yq: real, lo: int, hi: int)
    requires yq > 0.0 && yb <= yt && lo == (yb / yq).Floor && hi == Ceil(yt / yq)
    ensures Times(lo, yq) <= yb < Times(lo, yq) + yq && Times(hi, yq) - yq < yt <= Times(hi, yq)
    ensures lo <= hi
    ensures lo == hi <==> yb == yt && IsMultiple(yb, yq)
  {
    StepBounds(yb / yq, lo as real, yq, yb);
    StepBounds(yt / yq, hi as real - 1.0, yq, yt);
    StepBounds(yt / yq, hi as real, yq, yt);
    QuotientOrder(yq, yb, yt);
    if yb == yt && IsMultiple(yb, yq) {
      var k: int :| yb == Times(k, yq);
      ScaleOrder(yq, k as real, yb / yq);
      ScaleOrder(yq, yb / yq, k as real);
    }
    if lo == hi {
      assert yb == Times(lo, yq);
    }
  }

  lemma WholeSteps(yq: real, lo: int, hi: int)
    requires yq > 0.0
    ensures Times(hi, yq) - Times(lo, yq) == Times(hi - lo, yq)
    ensures Round((Times(hi, yq) - Times(lo, yq)) / yq) == hi - lo
  {
    Dist(yq, hi as real, lo as real);
    QuotientIs(Times(hi - lo, yq), yq, (hi - lo) as real);
  }

  lemma QuotientIs(a: real, q: real, n: real)
    requires q > 0.0 && a == n * q
    ensures a / q == n
  {
    ScaleOrder(q, a / q, n);
    ScaleOrder(q, n, a / q);
  }

  // ---- the grid ------------------------------------------------------------------

  /** The columns of the grid, `steps` to a strip: each lies below the strip it is summed for. */
  lemma ColumnBelowStrip(pl: GEMPlane, g: AvalancheGrid.Grid, iL: int, j: nat, k: nat, steps: nat)
    requires pl.fSPitch > 0.0 && g.xbw > 0.0 && g.xl == pl.LowerEdge(iL)
    requires g.xbw * steps as real == pl.fSPitch && k < steps
    ensures pl.LowerEdge(iL + j) < g.CenterX(j * steps + k) < pl.UpperEdge(iL + j)
  {
    var w := g.xbw;
    var at := (k as real + 0.5) * w;
    WithinStep(k, steps, w, at, pl.fSPitch);
    ColumnCenter(pl.fSBeg, pl.fSPitch, iL, j, k, steps, w, g.xl, pl.LowerEdge(iL + j), g.CenterX(j * steps + k), at);
  }

  lemma WithinStep(k: nat, steps: nat, xbw: real, at: real, pitch: real)
    requires xbw > 0.0 && k < steps && xbw * steps as real == pitch && at == (k as real + 0.5) * xbw
    ensures 0.0 < at < pitch
  {
    var m := k as real + 0.5;
    ScaleOrder(xbw, 0.0, m);
    ScaleOrder(xbw, m, steps as real);
  }

  lemma ColumnCenter(beg: real, pitch: real, iL: int, j: nat, k: nat, steps: nat, xbw: real, xl: real,
                     lower: real, center: real, at: real)
    requires xbw * steps as real == pitch && xl == beg + iL as real * pitch && lower == beg + (iL + j) as real * pitch
    requires center == xl + ((j * steps + k) as real + 0.5) * xbw && at == (k as real + 0.5) * xbw
    ensures center == lower + at
  {
    Columns(j, k, steps, xbw, pitch);
    StripsAlong(beg, pitch, iL, j);
  }

  lemma Columns(j: nat, k: nat, steps: nat, xbw: real, pitch: real)
    requires xbw * steps as real == pitch
    ensures ((j * steps + k) as real + 0.5) * xbw == j as real * pitch + (k as real + 0.5) * xbw
  {
    var whole := j as real * steps as real;
    RealProduct(j, steps);
    Distribute(xbw, (j * steps + k) as real + 0.5, whole, k as real + 0.5);
    Reassociate(j as real, steps as real, xbw, pitch);
  }

  lemma Reassociate(a: real, b: real, c: real, p: real)
    requires c * b == p
    ensures (a * b) * c == a * p
  {
    assert (a * b) * c == a * (c * b);
  }

  lemma {:induction false} RealProduct(a: nat, b: nat)
    ensures (a * b) as real == a as real * b as real
  {
    if a > 0 {
      RealProduct(a - 1, b);
      assert a * b == (a - 1) * b + b;
      Dist(b as real, (a - 1) as real, 1.0);
    }
  }

  lemma StripsAlong(beg: real, pitch: real, i: int, j: int)
    ensures beg + (i + j) as real * pitch == beg + i as real * pitch + j as real * pitch
  {
    Dist(pitch, i as real, j as real);
  }

  lemma CellSize(width: real, n: nat, steps: nat, nx: nat, pitch: real)
    requires pitch > 0.0 && n > 0 && steps > 0 && nx == n * steps && width == n as real * pitch
    ensures nx > 0 && width / nx as real > 0.0 && width / nx as real * steps as real == pitch
  {
    RealProduct(n, steps);
    PositiveProduct(n, steps);
    var u := pitch / steps as real;
    QuotientOrder(steps as real, 0.0, pitch);
    assert u * steps as real == pitch;
    Reassociate(n as real, steps as real, u, pitch);
    assert u * nx as real == width;
    QuotientIs(width, nx as real, u);
  }

  lemma PositiveProduct(a: nat, b: nat)
    requires a > 0 && b > 0
    ensures a * b > 0
  {
  }

  // ---- one plane -----------------------------------------------------------------

  datatype Outcome =
    | Outside
    | AssertionFails
    | Digitized(hit: GEMHit.GEMHit)

  /** The track as the plane sees it: two corners and the ions, in the strip frame. */
  datatype Track = Track(p0: Point, p1: Point, ions: seq<AvalancheGrid.Ion>, t0: real, charge: real)

  datatype Settings = Settings(xSteps: nat, ySteps: nat, nsample: nat, converter: AvalancheHit.Converter)
  {
    ghost predicate Valid() { xSteps > 0 && ySteps > 0 && converter.Valid() }
  }

  ghost predicate PulseTable(pl: GEMPlane, pulses: seq<seq<real>>, nsample: nat)
    reads pl
  {
    Pulses(pulses, pl.fNStrips, nsample)
  }

  ghost predicate Pulses(pulses: seq<seq<real>>, nStrips: int, nsample: nat)
  {
    |pulses| == nStrips && forall i :: 0 <= i < |pulses| ==> |pulses[i]| == nsample
  }

  /** The grid covers the touched strips, and along them from the one corner to the other, in
      cells of equal size, `xSteps` columns to a strip. */
  ghost predicate Covers(pl: GEMPlane, r: Range, tr: Track, s: Settings, g: AvalancheGrid.Grid)
    requires r.Touched? && r.iL <= r.iU && s.Valid()
    reads pl
  {
    && g.Valid() && g.nx == Cells(r.iU - r.iL + 1, s.xSteps) && g.ny > 0
    && g.xl == pl.LowerEdge(r.iL) && g.xbw * s.xSteps as real == pl.fSPitch
    && g.yb <= Lesser(tr.p0.y, tr.p1.y) && Greater(tr.p0.y, tr.p1.y) <= g.yb + g.ny as real * g.ybw
  }

  /** The plane's grid, unless its assertion `ny > 0` fails. */
  method MakeGrid(pl: GEMPlane, r: Range, tr: Track, s: Settings) returns (ok: bool, g: AvalancheGrid.Grid)
    requires pl.fSPitch > 0.0 && s.Valid() && r.Touched? && r.iL <= r.iU
    ensures ok <==> !(tr.p0.y == tr.p1.y && IsMultiple(tr.p0.y, pl.fSPitch / s.ySteps as real))
    ensures ok ==> Covers(pl, r, tr, s, g)
  {
    var yq := pl.fSPitch / s.ySteps as real;
    QuotientOrder(s.ySteps as real, 0.0, pl.fSPitch);
    var yb, yt, ny := StepsAcross(tr.p0.y, tr.p1.y, yq);
    var xl, xr := pl.LowerEdge(r.iL), pl.UpperEdge(r.iU);
    var nx := (r.iU - r.iL + 1) * s.xSteps;
    StripsAlong(pl.fSBeg, pl.fSPitch, r.iL, r.iU - r.iL + 1);
    StripsAlong(pl.fSBeg, pl.fSPitch, r.iU, 1);
    CellsIs(r.iU - r.iL + 1, s.xSteps);
    CellSize(xr - xl, r.iU - r.iL + 1, s.xSteps, nx, pl.fSPitch);
    ok := nx > 0 && ny > 0;
    g := AvalancheGrid.Grid(xl, yb, 1.0, 1.0, 0, 0);
    if ok {
      QuotientIs(yt - yb, ny as real, yq);
      g := AvalancheGrid.Grid(xl, yb, (xr - xl) / nx as real, (yt - yb) / ny as real, nx, ny);
    }
  }

  /** The hit satisfies what `Cumulate` asserts of it. */
  lemma SignalsFit(iL: int, n: nat, s: Settings, pulses: seq<seq<real>>, us: seq<real>, hit: StripPlane.HitValue)
    requires s.Valid() && 0 <= iL <= iL + n <= |pulses| && |us| == n
    requires forall i :: 0 <= i < |pulses| ==> |pulses[i]| == s.nsample
    requires hit == AvalancheHit.PackedHit(s.converter, pulses[iL..iL + n], us, iL, hit.time)
    ensures StripPlane.Fits(hit, |pulses|, s.nsample)
    ensures AvalancheHit.Ascending(hit.signals)
    ensures forall i :: 0 <= i < |hit.signals| ==> StripPlane.Total(hit.signals[i].adc) > 0
  {
    var c, part := s.converter, pulses[iL..iL + n];
    AvalancheHit.PackedShape(c, part, us, iL, n);
    forall i | 0 <= i < |hit.signals|
      ensures StripPlane.FitsOne(hit.signals[i], |pulses|, s.nsample) && StripPlane.Total(hit.signals[i].adc) > 0
    {
      assert AvalancheHit.IsPacked(c, part, us, iL, n, hit.signals[i]);
    }
  }

  /** Every cell holds what a scan of the whole grid would have collected there. */
  ghost predicate FullyScanned(g: AvalancheGrid.Grid, ions: seq<AvalancheGrid.Ion>, cells: seq<real>)
    requires AvalancheGrid.AllValid(ions)
  {
    && |cells| == Cells(g.nx, g.ny)
    && forall jx: nat, jy: nat :: jx < g.nx && jy < g.ny ==>
         Row(cells, jx, g.nx, g.ny)[jy] == AvalancheGrid.Collected(g, ions, |ions|, jx, jy)
  }

  method FillCells(g: AvalancheGrid.Grid, ions: seq<AvalancheGrid.Ion>) returns (a: array<real>)
    requires g.Valid() && AvalancheGrid.AllValid(ions)
    ensures fresh(a) && FullyScanned(g, ions, a[..])
  {
    ghost var t;
    a, t := AvalancheGrid.FillGrid(g, ions);
    forall jx: nat, jy: nat | jx < g.nx && jy < g.ny
      ensures Row(a[..], jx, g.nx, g.ny)[jy] == AvalancheGrid.Collected(g, ions, |ions|, jx, jy)
    {
      AvalancheGrid.GridIsFullScan(g, ions, a[..], t, jx, jy);
    }
  }

  /** The hit holds the signals of `n` strips from `iL` on with charges `us`. */
  ghost predicate PacksAt(v: StripPlane.HitValue, s: Settings, pulses: seq<seq<real>>, iL: int, n: nat, us: seq<real>, t0: real)
    requires s.Valid() && 0 <= iL <= iL + n <= |pulses| && |us| == n
  {
    v == AvalancheHit.PackedHit(s.converter, pulses[iL..iL + n], us, iL, t0)
  }

  /** What the plane's hit records: the signals of `n` strips from `iL` on, whose charges are
      the cell sums below each strip times the cell area. */
  ghost predicate Recorded(hit: GEMHit.GEMHit, iL: int, n: nat, tr: Track, s: Settings, pulses: seq<seq<real>>,
                           g: AvalancheGrid.Grid, cells: seq<real>, us: seq<real>)
    requires s.Valid() && hit.Valid() && 0 <= iL <= iL + n <= |pulses| && |us| == n
    requires g.nx == Cells(n, s.xSteps) && |cells| == Cells(g.nx, g.ny)
    reads hit.Footprint()
  {
    && us == AvalancheHit.StripCharges(cells, s.xSteps, n, g.nx, g.ny, g.CellArea())
    && hit.fHitCharge == tr.charge
    && PacksAt(hit.Value(), s, pulses, iL, n, us, tr.t0)
  }

  method HitOnGrid(a: array<real>, iL: int, n: nat, tr: Track, s: Settings, pulses: seq<seq<real>>, g: AvalancheGrid.Grid)
    returns (hit: GEMHit.GEMHit, ghost us: seq<real>)
    requires s.Valid() && forall i :: 0 <= i < |pulses| ==> |pulses[i]| == s.nsample
    requires 0 <= iL <= iL + n <= |pulses| && g.nx == Cells(n, s.xSteps) && a.Length == Cells(g.nx, g.ny)
    ensures hit.Valid() && fresh(hit.Footprint()) && |us| == n && Recorded(hit, iL, n, tr, s, pulses, g, a[..], us)
  {
    hit, us := AvalancheHit.Pack(a, iL, n, s.xSteps, g.nx, g.ny, g.CellArea(),
                                 s.converter, pulses[iL..iL + n], s.nsample, tr.t0, tr.charge);
  }

  /** Strips, grid, cells, charges and hit fit together: the strips are those nearest to the two
      corners, the grid covers them, its cells are fully scanned, and the hit records them. */
  ghost predicate DigitizedFrom(pl: GEMPlane, tr: Track, s: Settings, pulses: seq<seq<real>>, hit: GEMHit.GEMHit,
                                r: Range, g: AvalancheGrid.Grid, cells: seq<real>, us: seq<real>)
    requires s.Valid() && AvalancheGrid.AllValid(tr.ions) && |pulses| == pl.fNStrips
    reads pl, hit.Footprint()
  {
    && hit.Valid() && r.Touched? && 0 <= r.iL <= r.iU < pl.fNStrips && |us| == r.iU - r.iL + 1
    && pl.Nearest(r.iL, Lesser(tr.p0.x, tr.p1.x)) && pl.Nearest(r.iU, Greater(tr.p0.x, tr.p1.x))
    && Covers(pl, r, tr, s, g) && FullyScanned(g, tr.ions, cells)
    && Recorded(hit, r.iL, r.iU - r.iL + 1, tr, s, pulses, g, cells, us)
  }

  method DigitizeStrips(pl: GEMPlane, r: Range, tr: Track, s: Settings, pulses: seq<seq<real>>, g: AvalancheGrid.Grid)
    returns (hit: GEMHit.GEMHit, ghost cells: seq<real>, ghost us: seq<real>)
    requires s.Valid() && AvalancheGrid.AllValid(tr.ions) && PulseTable(pl, pulses, s.nsample)
    requires r.Touched? && 0 <= r.iL <= r.iU < pl.fNStrips && Covers(pl, r, tr, s, g)
    requires pl.Nearest(r.iL, Lesser(tr.p0.x, tr.p1.x)) && pl.Nearest(r.iU, Greater(tr.p0.x, tr.p1.x))
    ensures fresh(hit.Footprint()) && DigitizedFrom(pl, tr, s, pulses, hit, r, g, cells, us)
  {
    var a := FillCells(g, tr.ions);
    cells := a[..];
    hit, us := HitOnGrid(a, r.iL, r.iU - r.iL + 1, tr, s, pulses, g);
  }

  /** One pass of the loop over a chamber's planes. */
  method AvaPlane(pl: GEMPlane, tr: Track, s: Settings, pulses: seq<seq<real>>)
    returns (outcome: Outcome, ghost r: Range, ghost g: AvalancheGrid.Grid, ghost cells: seq<real>, ghost us: seq<real>)
    requires pl.Valid() && s.Valid() && AvalancheGrid.AllValid(tr.ions) && PulseTable(pl, pulses, s.nsample)
    ensures outcome.Outside? <==> !InBox(pl, tr.p0) && !InBox(pl, tr.p1)
    ensures outcome.AssertionFails? <==>
            (InBox(pl, tr.p0) || InBox(pl, tr.p1)) && tr.p0.y == tr.p1.y && IsMultiple(tr.p0.y, pl.fSPitch / s.ySteps as real)
    ensures outcome.Digitized? ==>
            fresh(outcome.hit.Footprint()) && DigitizedFrom(pl, tr, s, pulses, outcome.hit, r, g, cells, us)
  {
    var touched := TouchedStrips(pl, tr.p0, tr.p1);
    var grid := AvalancheGrid.Grid(0.0, 0.0, 1.0, 1.0, 0, 0);
    r, g, cells, us := touched, grid, [], [];
    if touched.Missed? {
      return Outside, r, g, cells, us;
    }
    var ok;
    ok, grid := MakeGrid(pl, touched, tr, s);
    if !ok {
      return AssertionFails, r, g, cells, us;
    }
    g := grid;
    var hit;
    hit, cells, us := DigitizeStrips(pl, touched, tr, s, pulses, grid);
    outcome := Digitized(hit);
  }
}
