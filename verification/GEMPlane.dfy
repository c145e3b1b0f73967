/** Strip geometry of a GEM readout plane: how many strips a box needs at a given strip
    angle, and which strip a point belongs to. The angle enters as its cosine and sine. */
module GEMPlane {
  import opened Numeric
  import opened RealAlgebra

  function Abs(v: real): real { if v < 0.0 then -v else v }

  /** The rectangle `TSBSBox` centred on the plane's origin. */
  datatype Box = Box(dx: real, dy: real)
  {
    predicate Contains(p: Point)
    {
      !(Abs(p.x) > dx / 2.0 || Abs(p.y) > dy / 2.0)
    }
  }

  /** The strip direction: a point on the unit circle. */
  datatype Angle = Angle(c: real, s: real)
  {
    ghost predicate Valid() { c * c + s * s == 1.0 }
  }

  datatype Point = Point(x: real, y: real)

  function Plus(c: real, x: real, s: real, y: real): real { c * x + s * y }

  function Minus(c: real, x: real, s: real, y: real): real { c * x - s * y }

  function PlaneToStrip(a: Angle, p: Point): Point
  {
    Point(Minus(a.c, p.x, a.s, p.y), Plus(a.s, p.x, a.c, p.y))
  }

  function StripToPlane(a: Angle, p: Point): Point
  {
    Point(Plus(a.c, p.x, a.s, p.y), Minus(a.c, p.y, a.s, p.x))
  }

  /** The two frame changes undo each other. */
  lemma RotationRoundTrip(a: Angle, p: Point)
    requires a.Valid()
    ensures StripToPlane(a, PlaneToStrip(a, p)) == p
    ensures PlaneToStrip(a, StripToPlane(a, p)) == p
  {
    var u, v := PlaneToStrip(a, p), StripToPlane(a, p);
    UnitCombination(a.c, a.s, p.x, p.y, u.x, u.y);
    UnitCombination(a.c, a.s, p.y, p.x, v.y, v.x);
  }

  lemma UnitCombination(c: real, s: real, x: real, y: real, u: real, v: real)
    requires c * c + s * s == 1.0
    requires u == c * x - s * y && v == s * x + c * y
    ensures c * u + s * v == x && c * v - s * u == y
  {
    Dist(c, c * x, s * y);
    Dist(s, s * x, c * y);
    Dist(s, c * x, s * y);
    Dist(c, s * x, c * y);
    Assoc(c, s, y);
    Assoc(c, s, x);
    Assoc(c, c, x);
    Assoc(s, s, x);
    Assoc(c, c, y);
    Assoc(s, s, y);
    Dist(x, c * c, s * s);
    Dist(y, c * c, s * s);
    assert (c * c + s * s) * x == x;
    assert (c * c + s * s) * y == y;
  }

  /** Which way the frames are turned against each other, and what of the strip frame the
      box holds. */
  lemma FramesAre(a: Angle, p: Point, box: Box)
    ensures PlaneToStrip(a, p) == Point(a.c * p.x - a.s * p.y, a.s * p.x + a.c * p.y)
    ensures StripToPlane(a, p) == Point(a.c * p.x + a.s * p.y, a.c * p.y - a.s * p.x)
    ensures box.Contains(p) <==> -(box.dx / 2.0) <= p.x <= box.dx / 2.0 && -(box.dy / 2.0) <= p.y <= box.dy / 2.0
  {
    var hx, hy := box.dx / 2.0, box.dy / 2.0;
    assert Plus(a.c, p.x, a.s, p.y) == a.c * p.x + a.s * p.y;
  }

  // ---- counting strips -----------------------------------------------------------

  const ROUNDING_GUARD := 0.0000000001

  /** The strip number of a corner at `v` pitches from the origin: the cast drops the
      fraction, unless `round` comes out below `v` or no more than 1e-10 above it. There is
      no absolute value in that test, so right of the origin only a fraction within 1e-10 of
      the next integer rounds up, while left of it every fraction of a half or more does. */
  function CornerStrip(v: real): (n: int)
    ensures v >= 0.0 ==> n as real - 0.0000000001 < v <= (n + 1) as real - 0.0000000001
    ensures v < 0.0 ==> n as real - 0.5 < v <= n as real + 0.5
  {
    var t, r := Trunc(v), Round(v);
    assert v >= 0.0 ==> r == t || r == t + 1;
    assert v < 0.0 ==> r == t || r == t - 1;
    if Round(v) as real - v < ROUNDING_GUARD then Round(v) else Trunc(v)
  }

  lemma CornerStripMonotone(u: real, v: real)
    requires u <= v
    ensures CornerStrip(u) <= CornerStrip(v)
  {
  }

  /** Rounding up on the left makes good for cutting off on the right. */
  lemma OppositeCorners(v: real)
    requires v >= 0.0
    ensures 2.0 * v < (CornerStrip(v) - CornerStrip(-v) + 1) as real < 2.0 * v + 1.0 + 2.0 * ROUNDING_GUARD
  {
    var n, m := CornerStrip(v), -CornerStrip(-v);
    if v > 0.0 {
      assert m == n || m == n + 1;
    }
  }

  /** How far a rectangle of half sizes `hx`, `hy` reaches along the strip-number axis. */
  function Extent(a: Angle, hx: real, hy: real): (w: real)
    ensures w >= 0.0
  {
    Abs(Product(a.c, hx)) + Abs(Product(a.s, hy))
  }

  function HalfWidth(box: Box, a: Angle): real
  {
    Extent(a, box.dx / 2.0, box.dy / 2.0)
  }

  /** The strip coordinate of corner `i`. */
  function CornerX(a: Angle, hx: real, hy: real, i: nat): real
    requires i < 4
  {
    match i
    case 0 => PlaneToStrip(a, Point(hx, hy)).x
    case 1 => PlaneToStrip(a, Point(hx, -hy)).x
    case 2 => PlaneToStrip(a, Point(-hx, hy)).x
    case _ => PlaneToStrip(a, Point(-hx, -hy)).x
  }

  /** The corners are no farther out than the extent, and two of them are just there. */
  lemma CornersSpan(a: Angle, hx: real, hy: real)
    ensures forall i: nat :: i < 4 ==> -Extent(a, hx, hy) <= CornerX(a, hx, hy, i) <= Extent(a, hx, hy)
    ensures exists i: nat :: i < 4 && CornerX(a, hx, hy, i) == Extent(a, hx, hy)
    ensures exists i: nat :: i < 4 && CornerX(a, hx, hy, i) == -Extent(a, hx, hy)
  {
    CornerSigns(a.c, a.s, hx, hy, Product(a.c, hx), Product(a.s, hy));
    var p, q := Product(a.c, hx), Product(a.s, hy);
    assert CornerX(a, hx, hy, 0) == p - q;
    assert CornerX(a, hx, hy, 1) == p + q;
    assert CornerX(a, hx, hy, 2) == -p - q;
    assert CornerX(a, hx, hy, 3) == -p + q;
  }

  lemma CornerSigns(c: real, s: real, hx: real, hy: real, p: real, q: real)
    requires p == Product(c, hx) && q == Product(s, hy)
    ensures Minus(c, hx, s, hy) == p - q && Minus(c, hx, s, -hy) == p + q
    ensures Minus(c, -hx, s, hy) == -p - q && Minus(c, -hx, s, -hy) == -p + q
  {
    Dist(c, hx, 0.0);
    Dist(s, hy, 0.0);
  }

  /** The strip range of the four corners, `smax - smin + 1`. */
  method CountStrips(a: Angle, xs0: real, ys0: real, pitch: real) returns (n: int)
    requires pitch > 0.0
    ensures n == CornerStrip(Extent(a, xs0, ys0) / pitch) - CornerStrip(-(Extent(a, xs0, ys0) / pitch)) + 1
  {
    var smin, smax := 1_000_000_000, 0;
    ghost var w := Extent(a, xs0, ys0);
    ghost var lo, hi := CornerStrip(-(w / pitch)), CornerStrip(w / pitch);
    CornersSpan(a, xs0, ys0);
    PositiveQuotient(w, pitch);
    for i := 0 to 4
      invariant lo <= smin && 0 <= smax <= hi
      invariant forall k: nat :: k < i ==> smin <= CornerStrip(CornerX(a, xs0, ys0, k) / pitch) <= smax
    {
      var s := CornerStrip(CornerX(a, xs0, ys0, i) / pitch);
      CornerWithin(CornerX(a, xs0, ys0, i), w, pitch);
      if s < smin { smin := s; }
      if s > smax { smax := s; }
    }
    ghost var top: nat :| top < 4 && CornerX(a, xs0, ys0, top) == w;
    ghost var bottom: nat :| bottom < 4 && CornerX(a, xs0, ys0, bottom) == -w;
    CornerWithin(-w, w, pitch);
    n := smax - smin + 1;
  }

  lemma PositiveQuotient(w: real, pitch: real)
    requires pitch > 0.0 && w >= 0.0
    ensures w / pitch >= 0.0
  {
    QuotientOrder(pitch, 0.0, w);
  }

  lemma CornerWithin(x: real, w: real, pitch: real)
    requires pitch > 0.0 && -w <= x <= w
    ensures CornerStrip(-(w / pitch)) <= CornerStrip(x / pitch) <= CornerStrip(w / pitch)
    ensures -w / pitch == -(w / pitch)
  {
    QuotientOrder(pitch, -w, x);
    QuotientOrder(pitch, w, w);
    QuotientOrder(pitch, x, w);
    CornerStripMonotone(-w / pitch, x / pitch);
    CornerStripMonotone(x / pitch, w / pitch);
  }

  // ---- finding strips ------------------------------------------------------------

  /** What `ReadGeometry` establishes: `n` strips, centred, together wider than the box. */
  ghost predicate Laid(box: Box, a: Angle, n: int, pitch: real, beg: real)
  {
    && a.Valid() && pitch > 0.0
    && beg == -(n as real * pitch) * 0.5
    && 2.0 * HalfWidth(box, a) < n as real * pitch
  }

  lemma CountSuffices(box: Box, a: Angle, n: int, pitch: real)
    requires a.Valid() && pitch > 0.0
    requires n == CornerStrip(HalfWidth(box, a) / pitch) - CornerStrip(-(HalfWidth(box, a) / pitch)) + 1
    ensures Laid(box, a, n, pitch, -(n as real * pitch) * 0.5)
    ensures var v := HalfWidth(box, a) / pitch; 2.0 * v < n as real < 2.0 * v + 1.0 + 2.0 * ROUNDING_GUARD
  {
    var w := HalfWidth(box, a);
    PositiveQuotient(w, pitch);
    OppositeCorners(w / pitch);
    WideEnough(w, w / pitch, n as real, pitch);
  }

  class GEMPlane {
    var box: Box
    var angle: Angle
    var fNStrips: int
    var fSPitch: real
    var fSBeg: real

    ghost predicate Valid()
      reads this
    {
      Laid(box, angle, fNStrips, fSPitch, fSBeg)
    }

    constructor ReadGeometry(b: Box, a: Angle, pitch: real)
      requires a.Valid() && pitch > 0.0
      ensures Valid() && box == b && angle == a && fSPitch == pitch
      ensures 2.0 * (HalfWidth(b, a) / pitch) < fNStrips as real
              < 2.0 * (HalfWidth(b, a) / pitch) + 1.0 + 2.0 * ROUNDING_GUARD
    {
      box, angle, fSPitch := b, a, pitch;
      var n := CountStrips(a, b.dx / 2.0, b.dy / 2.0, pitch);
      fNStrips := n;
      fSBeg := -(n as real * pitch) * 0.5;
      CountSuffices(b, a, n, pitch);
    }

    function LowerEdge(strip: int): real
      reads this
    {
      fSBeg + strip as real * fSPitch
    }

    function UpperEdge(strip: int): real
      reads this
    {
      LowerEdge(strip) + fSPitch
    }

    method GetStripUnchecked(x: real) returns (strip: int)
      requires fSPitch > 0.0
      ensures x >= fSBeg ==> 0 <= strip && LowerEdge(strip) <= x < UpperEdge(strip)
      ensures x < fSBeg ==> strip <= 0 && LowerEdge(strip) - fSPitch < x <= LowerEdge(strip)
    {
      strip := Trunc((x - fSBeg) / fSPitch);
      StripEdges(x, fSBeg, fSPitch);
    }

    /** `strip` is where `x` falls, or the strip nearest to it when it falls beside the plane. */
    ghost predicate Nearest(strip: int, x: real)
      reads this
    {
      && 0 <= strip < fNStrips
      && Clamped(strip, fNStrips, x, fSBeg, UpperEdge(fNStrips - 1), LowerEdge(strip), UpperEdge(strip))
    }

    /** The nearest legal strip to any point. */
    method GetStripInRange(x: real) returns (strip: int)
      requires fSPitch > 0.0 && fNStrips > 0
      ensures Nearest(strip, x)
    {
      strip := GetStripUnchecked(x);
      ClampToRange(this, x, strip);
      if strip < 0 { strip := 0; }
      if strip >= fNStrips { strip := fNStrips - 1; }
    }

    /** A point outside the box gets -1; a point in the box always gets a legal strip,
        namely the one it lies on. */
    method GetStrip(x: real, y: real) returns (strip: int)
      requires Valid()
      ensures var p := StripToPlane(angle, Point(x, y));
              if -(box.dx / 2.0) <= p.x <= box.dx / 2.0 && -(box.dy / 2.0) <= p.y <= box.dy / 2.0
              then box.Contains(p) && 0 <= strip < fNStrips && LowerEdge(strip) <= x < UpperEdge(strip)
              else !box.Contains(p) && strip == -1
    {
      var p := StripToPlane(angle, Point(x, y));
      FramesAre(angle, p, box);
      if !box.Contains(p) {
        return -1;
      }
      strip := GetStripUnchecked(x);
      InsideIsOnStrip(this, Point(x, y), strip);
    }
  }

  lemma WideEnough(w: real, v: real, n: real, pitch: real)
    requires pitch > 0.0 && v == w / pitch && 2.0 * v < n
    ensures 2.0 * w < n * pitch
  {
    assert v * pitch == w;
    var d := n - 2.0 * v;
    assert d * pitch == n * pitch - 2.0 * w;
    SameSign(d, pitch);
  }

  lemma StripEdges(x: real, beg: real, pitch: real)
    requires pitch > 0.0
    ensures var k := Trunc((x - beg) / pitch);
            && (x >= beg ==> 0 <= k && beg + k as real * pitch <= x < beg + k as real * pitch + pitch)
            && (x < beg ==> k <= 0 && beg + k as real * pitch - pitch < x <= beg + k as real * pitch)
  {
    var q := (x - beg) / pitch;
    var k := Trunc(q);
    ScaleOrder(pitch, 0.0, q);
    StepBounds(q, k as real, pitch, x - beg);
    StepBounds(q, k as real - 1.0, pitch, x - beg);
  }

  lemma StepBounds(q: real, k: real, pitch: real, d: real)
    requires pitch > 0.0 && d == q * pitch
    ensures k <= q <==> k * pitch <= d
    ensures k < q <==> k * pitch < d
    ensures q < k + 1.0 <==> d < k * pitch + pitch
    ensures q <= k + 1.0 <==> d <= k * pitch + pitch
    ensures (k + 1.0) * pitch == k * pitch + pitch
  {
    var up, down := k + 1.0 - q, q - k;
    assert up * pitch == k * pitch + pitch - d;
    assert down * pitch == d - k * pitch;
    SameSign(up, pitch);
    SameSign(down, pitch);
  }

  ghost predicate Clamped(strip: int, n: int, x: real, beg: real, end: real, lower: real, upper: real)
  {
    if x < beg then strip == 0
    else if x >= end then strip == n - 1
    else lower <= x < upper
  }

  lemma EdgeOrder(beg: real, pitch: real, a: int, b: int, la: real, lb: real)
    requires pitch > 0.0 && la == beg + a as real * pitch && lb == beg + b as real * pitch
    ensures a <= b <==> la <= lb
    ensures a < b <==> la + pitch <= lb
  {
    var d := (b - a) as real;
    assert d * pitch == lb - la;
    ScaleOrder(pitch, 0.0, d);
    ScaleOrder(pitch, 1.0, d);
  }

  lemma EdgesOrdered(pl: GEMPlane, a: int, b: int)
    requires pl.fSPitch > 0.0
    ensures a <= b <==> pl.LowerEdge(a) <= pl.LowerEdge(b)
    ensures a < b <==> pl.UpperEdge(a) <= pl.LowerEdge(b)
    ensures a <= b <==> pl.UpperEdge(a) <= pl.UpperEdge(b)
    ensures pl.LowerEdge(0) == pl.fSBeg
  {
    EdgeOrder(pl.fSBeg, pl.fSPitch, a, b, pl.LowerEdge(a), pl.LowerEdge(b));
  }

  lemma ClampToRange(pl: GEMPlane, x: real, strip: int)
    requires pl.fSPitch > 0.0 && pl.fNStrips > 0
    requires if x >= pl.fSBeg then 0 <= strip && pl.LowerEdge(strip) <= x < pl.UpperEdge(strip) else strip <= 0
    ensures pl.Nearest(if strip < 0 then 0 else if strip >= pl.fNStrips then pl.fNStrips - 1 else strip, x)
  {
    EdgesOrdered(pl, strip, pl.fNStrips - 1);
    EdgesOrdered(pl, pl.fNStrips - 1, strip);
  }

  lemma {:induction false} InsideIsOnStrip(pl: GEMPlane, p: Point, strip: int)
    requires pl.Valid() && pl.box.Contains(StripToPlane(pl.angle, p))
    requires p.x >= pl.fSBeg ==> 0 <= strip && pl.LowerEdge(strip) <= p.x < pl.UpperEdge(strip)
    ensures 0 <= strip < pl.fNStrips && pl.LowerEdge(strip) <= p.x < pl.UpperEdge(strip)
  {
    InsideStrips(pl.box, pl.angle, pl.fNStrips, pl.fSPitch, pl.fSBeg, p, strip, pl.LowerEdge(strip));
  }

  /** A point of the box is no farther along the strip axis than the half width. */
  lemma {:induction false} InsideExtent(a: Angle, hx: real, hy: real, p: Point)
    requires a.Valid()
    requires Abs(StripToPlane(a, p).x) <= hx && Abs(StripToPlane(a, p).y) <= hy
    ensures -Extent(a, hx, hy) <= p.x <= Extent(a, hx, hy)
  {
    var q := StripToPlane(a, p);
    RotationRoundTrip(a, p);
    BoundedCombination(a.c, a.s, q.x, q.y, hx, hy);
  }

  lemma BoundedCombination(c: real, s: real, x: real, y: real, hx: real, hy: real)
    requires Abs(x) <= hx && Abs(y) <= hy
    ensures -(Abs(Product(c, hx)) + Abs(Product(s, hy))) <= Minus(c, x, s, y) <= Abs(Product(c, hx)) + Abs(Product(s, hy))
  {
    ScaledBound(c, x, hx, c * x, c * hx);
    ScaledBound(s, y, hy, s * y, s * hy);
  }

  /** So it lies between the lower edge of strip 0 and the upper edge of the last strip. */
  lemma {:induction false} InsideStrips(box: Box, a: Angle, n: int, pitch: real, beg: real, p: Point, strip: int, lower: real)
    requires Laid(box, a, n, pitch, beg) && box.Contains(StripToPlane(a, p)) && lower == beg + strip as real * pitch
    ensures beg <= p.x
    ensures lower <= p.x ==> strip < n
  {
    InsideExtent(a, box.dx / 2.0, box.dy / 2.0, p);
    if lower <= p.x {
      EdgeOrder(beg, pitch, n, strip, beg + n as real * pitch, lower);
    }
  }

  lemma ScaledBound(c: real, x: real, h: real, cx: real, ch: real)
    requires Abs(x) <= h && cx == c * x && ch == c * h
    ensures -Abs(ch) <= cx <= Abs(ch)
  {
    if c > 0.0 {
      ScaleWithin(c, x, h, cx, ch);
    } else if c < 0.0 {
      var n := -c;
      Dist(x, c, 0.0);
      Dist(h, c, 0.0);
      ScaleWithin(n, x, h, -cx, -ch);
    }
  }

  lemma ScaleWithin(c: real, x: real, h: real, cx: real, ch: real)
    requires c > 0.0 && -h <= x <= h && cx == c * x && ch == c * h
    ensures -ch <= cx <= ch
  {
    var low := -h;
    ScaleOrder(c, x, h);
    ScaleOrder(c, low, x);
    Dist(c, h, 0.0);
  }
}
