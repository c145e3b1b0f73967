/** What the avalanche model works on and what it fills in, in coordinates: the region, the
    track as a plane sees it, which planes are struck, and what a cell of the grid holds. */
module AvaExact {
  import opened RealAlgebra
  import opened GEMPlane
  import opened Avalanche
  import opened Digitizer
  import opened AvaModel
  import AvalancheGrid

  // ---- the region ----------------------------------------------------------------

  predicate IsLarger(v: real, a: real, b: real) { v >= a && v >= b && (v == a || v == b) }

  predicate IsSmaller(v: real, a: real, b: real) { v <= a && v <= b && (v == a || v == b) }

  /** One side of the region: from the smaller end less the margin, or the middle of the first
      strip, to the larger end plus the margin, or the middle of the last strip. */
  predicate Side(low: real, high: real, a: real, b: real, margin: real, n: int, pitch: real, beg: real)
  {
    && IsLarger(low, (if a < b then a else b) - margin, beg + pitch / 2.0)
    && IsSmaller(high, (if a < b then b else a) + margin, beg + (n as real - 0.5) * pitch)
  }

  /** The region of a hit has as its sides the track's ends widened by the margin and cut off
      at the middles of the outermost strips, x from the one plane and y from the other; there
      is none exactly when that leaves nothing. */
  lemma RegionIs(plx: GEMPlane, ply: GEMPlane, h: SimHit, margin: real, r: Region)
    requires plx.Valid() && ply.Valid() && margin >= 0.0 && RegionOf(plx, ply, h, margin, r)
    ensures r.Region? ==>
              && Side(r.x0, r.x1, h.entrance.x, h.exit.x, margin, plx.fNStrips, plx.fSPitch, plx.fSBeg)
              && Side(r.y0, r.y1, h.entrance.y, h.exit.y, margin, ply.fNStrips, ply.fSPitch, ply.fSBeg)
    ensures r.OutOfSector? <==>
              || Apart(h.entrance.x, h.exit.x, margin, plx.fNStrips, plx.fSPitch, plx.fSBeg)
              || Apart(h.entrance.y, h.exit.y, margin, ply.fNStrips, ply.fSPitch, ply.fSBeg)
  {
    var xi, xo := Point(h.entrance.x, h.entrance.y), Point(h.exit.x, h.exit.y);
    var gl, gu := Point(FirstMiddle(plx), FirstMiddle(ply)), Point(LastMiddle(plx), LastMiddle(ply));
    MiddlesAre(plx);
    MiddlesAre(ply);
    MiddlesOrdered(plx);
    MiddlesOrdered(ply);
    RegionSides(r, xi, xo, margin, gl, gu);
  }

  predicate Apart(a: real, b: real, margin: real, n: int, pitch: real, beg: real)
  {
    || (if a < b then b else a) + margin < beg + pitch / 2.0
    || (if a < b then a else b) - margin > beg + (n as real - 0.5) * pitch
  }

  lemma MiddlesAre(pl: GEMPlane)
    ensures FirstMiddle(pl) == pl.fSBeg + pl.fSPitch / 2.0
    ensures LastMiddle(pl) == pl.fSBeg + (pl.fNStrips as real - 0.5) * pl.fSPitch
  {
    var n, p := pl.fNStrips as real, pl.fSPitch;
    Dist(p, n - 1.0, 0.5);
    assert (n - 1.0) + 0.5 == n - 0.5;
    assert 0.0 * p == 0.0;
  }

  lemma RegionSides(r: Region, xi: Point, xo: Point, margin: real, gl: Point, gu: Point)
    requires margin >= 0.0 && gl.x <= gu.x && gl.y <= gu.y && IsRegion(r, xi, xo, margin, gl, gu)
    ensures r.Region? ==>
              && IsLarger(r.x0, Lesser(xi.x, xo.x) - margin, gl.x) && IsSmaller(r.x1, Greater(xi.x, xo.x) + margin, gu.x)
              && IsLarger(r.y0, Lesser(xi.y, xo.y) - margin, gl.y) && IsSmaller(r.y1, Greater(xi.y, xo.y) + margin, gu.y)
    ensures r.OutOfSector? <==>
              || Greater(xi.x, xo.x) + margin < gl.x || Lesser(xi.x, xo.x) - margin > gu.x
              || Greater(xi.y, xo.y) + margin < gl.y || Lesser(xi.y, xo.y) - margin > gu.y
  {
    var lo := Point(Greater(Lesser(xi.x, xo.x) - margin, gl.x), Greater(Lesser(xi.y, xo.y) - margin, gl.y));
    var hi := Point(Lesser(Greater(xi.x, xo.x) + margin, gu.x), Lesser(Greater(xi.y, xo.y) + margin, gu.y));
    match r {
      case OutOfSector =>
        assert !(InBand(xi, xo, margin, lo) && InRectangle(gl.x, gl.y, gu.x, gu.y, lo));
      case Region(x0, y0, x1, y1) =>
        assert InRectangle(x0, y0, x1, y1, Point(x0, y0)) && InRectangle(x0, y0, x1, y1, Point(x1, y1));
        assert InBand(xi, xo, margin, Point(x0, y0)) && InBand(xi, xo, margin, Point(x1, y1));
        assert InBand(xi, xo, margin, lo) && InRectangle(gl.x, gl.y, gu.x, gu.y, lo);
        assert InBand(xi, xo, margin, hi) && InRectangle(gl.x, gl.y, gu.x, gu.y, hi);
        assert InRectangle(x0, y0, x1, y1, lo) && InRectangle(x0, y0, x1, y1, hi);
    }
  }

  // ---- the track -----------------------------------------------------------------

  /** `q` is `p` turned by the strip angle. */
  predicate Turned(a: Angle, p: Point, q: Point)
  {
    q.x == a.c * p.x - a.s * p.y && q.y == a.s * p.x + a.c * p.y
  }

  /** `t` is the ion turned by the strip angle and otherwise as it was. */
  predicate TurnedIon(a: Angle, ion: AvalancheGrid.Ion, t: AvalancheGrid.Ion)
  {
    && Turned(a, Point(ion.x, ion.y), Point(t.x, t.y))
    && t.snorm == ion.snorm && t.r2 == ion.r2 && t.amplitude == ion.amplitude && t.sigma2 == ion.sigma2
  }

  lemma TurnedBy(a: Angle, p: Point)
    ensures Turned(a, p, PlaneToStrip(a, p))
  {
    FramesAre(a, p, Box(0.0, 0.0));
  }

  lemma IonIsTurned(a: Angle, ion: AvalancheGrid.Ion)
    ensures TurnedIon(a, ion, IonOn(a, ion))
  {
    TurnedBy(a, Point(ion.x, ion.y));
  }

  /** The track a plane sees has as many ions as came in, each turned by the strip angle and
      otherwise as it was, and the region's lower left and upper right corner, turned alike. */
  lemma TrackIsTurned(pl: GEMPlane, r: Region, ion: Ionization)
    requires r.Region?
    ensures var t := SeenBy(pl, r, ion);
            && |t.ions| == |ion.ions| && t.t0 == ion.t0 && t.charge == ion.charge
            && (forall i :: 0 <= i < |ion.ions| ==> TurnedIon(pl.angle, ion.ions[i], t.ions[i]))
            && Turned(pl.angle, Point(r.x0, r.y0), t.p0) && Turned(pl.angle, Point(r.x1, r.y1), t.p1)
  {
    forall i | 0 <= i < |ion.ions|
      ensures TurnedIon(pl.angle, ion.ions[i], IonOn(pl.angle, ion.ions[i]))
    {
      IonIsTurned(pl.angle, ion.ions[i]);
    }
    TurnedBy(pl.angle, Point(r.x0, r.y0));
    TurnedBy(pl.angle, Point(r.x1, r.y1));
  }

  /** Turned back, they are where they came in. */
  lemma TrackTurnsBack(pl: GEMPlane, r: Region, ion: Ionization)
    requires r.Region? && pl.angle.Valid()
    ensures var t := SeenBy(pl, r, ion);
            && |t.ions| == |ion.ions|
            && (forall i :: 0 <= i < |ion.ions| ==>
                  StripToPlane(pl.angle, Point(t.ions[i].x, t.ions[i].y)) == Point(ion.ions[i].x, ion.ions[i].y))
            && StripToPlane(pl.angle, t.p0) == Point(r.x0, r.y0) && StripToPlane(pl.angle, t.p1) == Point(r.x1, r.y1)
  {
    forall i | 0 <= i < |ion.ions|
      ensures StripToPlane(pl.angle, PlaneToStrip(pl.angle, Point(ion.ions[i].x, ion.ions[i].y))) ==
              Point(ion.ions[i].x, ion.ions[i].y)
    {
      RotationRoundTrip(pl.angle, Point(ion.ions[i].x, ion.ions[i].y));
    }
    RotationRoundTrip(pl.angle, Point(r.x0, r.y0));
    RotationRoundTrip(pl.angle, Point(r.x1, r.y1));
  }

  predicate OnPlane(box: Box, x: real, y: real)
  {
    -(box.dx / 2.0) <= x <= box.dx / 2.0 && -(box.dy / 2.0) <= y <= box.dy / 2.0
  }

  /** A hit gives a signal exactly when each plane's box holds one of the region's two corners. */
  lemma StrikesIff(plx: GEMPlane, ply: GEMPlane, r: Region, ion: Ionization)
    requires plx.angle.Valid() && ply.angle.Valid()
    ensures Strikes(plx, ply, r, ion) <==>
              && ion.ions != [] && r.Region?
              && (OnPlane(plx.box, r.x0, r.y0) || OnPlane(plx.box, r.x1, r.y1))
              && (OnPlane(ply.box, r.x0, r.y0) || OnPlane(ply.box, r.x1, r.y1))
  {
    if r.Region? {
      OutsideIff(plx, r, ion);
      OutsideIff(ply, r, ion);
    }
  }

  lemma OutsideIff(pl: GEMPlane, r: Region, ion: Ionization)
    requires r.Region? && pl.angle.Valid()
    ensures IsOutside(pl, SeenBy(pl, r, ion)) <==> !OnPlane(pl.box, r.x0, r.y0) && !OnPlane(pl.box, r.x1, r.y1)
  {
    TrackTurnsBack(pl, r, ion);
    FramesAre(pl.angle, Point(r.x0, r.y0), pl.box);
    FramesAre(pl.angle, Point(r.x1, r.y1), pl.box);
  }

  // ---- the grid ------------------------------------------------------------------

  /** What an ion leaves in a cell: with `dx`, `dy` from the ion to the middle of the cell, the
      profile at their squared length, up to the reach. */
  lemma DepositIs(g: AvalancheGrid.Grid, ion: AvalancheGrid.Ion, jx: int, jy: int, dx: real, dy: real, d2: real)
    requires ion.Valid() && d2 == dx * dx + dy * dy
    requires dx == ion.x - (g.xl + (jx as real + 0.5) * g.xbw) && dy == ion.y - (g.yb + (jy as real + 0.5) * g.ybw)
    ensures if d2 <= ion.snorm * ion.snorm
            then d2 + ion.sigma2 > 0.0 && AvalancheGrid.Deposit(g, ion, jx, jy) * (d2 + ion.sigma2) == ion.amplitude
            else AvalancheGrid.Deposit(g, ion, jx, jy) == 0.0
    ensures g.CellArea() == g.xbw * g.ybw
  {
    assert Square(dx) == dx * dx && Square(dy) == dy * dy;
    assert AvalancheGrid.Deposit(g, ion, jx, jy) == AvalancheGrid.Share(ion, Square(dx), Square(dy));
  }
}
