/** The straight-line fit of a track: weighted least squares in x and y against z. */
module TrackFit {
  import opened RealAlgebra

  /** One measurement in one projection: position `u` at `z`, with weight `w`. */
  datatype Sample = Sample(u: real, z: real, w: real)

  ghost predicate Weighted(s: seq<Sample>)
  {
    forall i :: 0 <= i < |s| ==> s[i].w > 0.0
  }

  /** The sums that make up one block of the normal equations. */
  datatype Moments = Moments(s0: real, s1: real, s2: real, b0: real, b1: real)

  function AddSample(m: Moments, p: Sample): Moments
  {
    Moments(m.s0 + p.w, m.s1 + p.w * p.z, m.s2 + p.w * (p.z * p.z), m.b0 + p.w * p.u, m.b1 + p.w * p.u * p.z)
  }

  function MomentsOf(s: seq<Sample>): Moments
  {
    if s == [] then Moments(0.0, 0.0, 0.0, 0.0, 0.0) else AddSample(MomentsOf(s[..|s| - 1]), s[|s| - 1])
  }

  lemma SquarePositive(a: real)
    requires a != 0.0
    ensures Square(a) > 0.0
  {
    SameSigns(a, a, Square(a));
  }

  lemma SameSigns(a: real, b: real, product: real)
    requires (a > 0.0 && b > 0.0) || (a < 0.0 && b < 0.0)
    requires product == a * b
    ensures product > 0.0
  {
    if a > 0.0 {
      MulPositive(a, b);
    } else {
      MulPositive(-a, -b);
      assert (-a) * (-b) == a * b;
    }
  }

  // ---- the determinant -----------------------------------------------------------

  function Det(m: Moments): real { m.s0 * m.s2 - m.s1 * m.s1 }

  /** The weighted spread of the samples about `z`. */
  function Spread(s: seq<Sample>, z: real): real
  {
    if s == [] then 0.0 else Spread(s[..|s| - 1], z) + s[|s| - 1].w * Square(s[|s| - 1].z - z)
  }

  lemma SpreadStep(s0: real, s1: real, s2: real, w: real, zi: real, z: real, before: real, after: real)
    requires before == s2 - 2.0 * (z * s1) + (z * z) * s0
    requires after == (s2 + w * (zi * zi)) - 2.0 * (z * (s1 + w * zi)) + (z * z) * (s0 + w)
    ensures after == before + w * Square(zi - z)
  {
    Dist(z, s1, w * zi);
    Dist(z * z, s0, w);
    assert Square(zi - z) == zi * zi - 2.0 * (z * zi) + z * z;
    Dist(w, zi * zi - 2.0 * (z * zi), z * z);
    Dist(w, zi * zi, 2.0 * (z * zi));
    Assoc(z, w, zi);
    assert w * (2.0 * (z * zi)) == 2.0 * (w * (z * zi));
  }

  /** The spread about `z`, from the moments. */
  function Around(m: Moments, z: real): real
  {
    m.s2 - 2.0 * (z * m.s1) + (z * z) * m.s0
  }

  lemma AroundNext(m: Moments, p: Sample, z: real)
    ensures Around(AddSample(m, p), z) == Around(m, z) + p.w * Square(p.z - z)
  {
    SpreadStep(m.s0, m.s1, m.s2, p.w, p.z, z, Around(m, z), Around(AddSample(m, p), z));
  }

  lemma {:induction false} SpreadIs(s: seq<Sample>, z: real)
    ensures Spread(s, z) == Around(MomentsOf(s), z)
  {
    if s != [] {
      SpreadIs(s[..|s| - 1], z);
      AroundNext(MomentsOf(s[..|s| - 1]), s[|s| - 1], z);
    }
  }

  /** Not all samples are at `z`. */
  ghost predicate Elsewhere(s: seq<Sample>, z: real)
  {
    exists i :: 0 <= i < |s| && s[i].z != z
  }

  lemma {:induction false} SpreadSign(s: seq<Sample>, z: real)
    requires Weighted(s)
    ensures Spread(s, z) >= 0.0 && (Spread(s, z) > 0.0 <==> Elsewhere(s, z))
  {
    if s != [] {
      var n := |s| - 1;
      SpreadSign(s[..n], z);
      WeightedSquare(s[n].w, s[n].z - z);
      assert Elsewhere(s[..n], z) ==> Elsewhere(s, z);
      assert s[n].z != z ==> Elsewhere(s, z);
    }
  }

  lemma WeightedSquare(w: real, d: real)
    requires w > 0.0
    ensures w * Square(d) >= 0.0 && (w * Square(d) > 0.0 <==> d != 0.0)
  {
    if d != 0.0 {
      SquarePositive(d);
      MulPositive(w, Square(d));
    }
  }

  /** Each sample adds its weight times the spread of the others about it. */
  lemma DetStep(m: Moments, p: Sample, spread: real)
    requires spread == Around(m, p.z)
    ensures Det(AddSample(m, p)) == Det(m) + p.w * spread
  {
    DetExpand(m.s0, m.s1, m.s2, p.w, p.z, p.z * p.z, spread);
  }

  lemma DetExpand(s0: real, s1: real, s2: real, w: real, z: real, zz: real, spread: real)
    requires zz == z * z && spread == s2 - 2.0 * (z * s1) + zz * s0
    ensures (s0 + w) * (s2 + w * zz) - (s1 + w * z) * (s1 + w * z) == s0 * s2 - s1 * s1 + w * spread
  {
  }

  ghost predicate TwoPlaces(s: seq<Sample>)
  {
    exists i, j :: 0 <= i < j < |s| && s[i].z != s[j].z
  }

  lemma PositiveSum(before: real, w: real, spread: real, after: real)
    requires before >= 0.0 && w > 0.0 && spread >= 0.0 && after == before + w * spread
    ensures after >= 0.0 && (after > 0.0 <==> before > 0.0 || spread > 0.0)
  {
    if spread > 0.0 {
      MulPositive(w, spread);
    }
  }

  lemma DetNext(m: Moments, s: seq<Sample>, p: Sample)
    requires m == MomentsOf(s) && Weighted(s) && p.w > 0.0 && Det(m) >= 0.0
    ensures Det(AddSample(m, p)) >= 0.0 && (Det(AddSample(m, p)) > 0.0 <==> Det(m) > 0.0 || Elsewhere(s, p.z))
  {
    SpreadIs(s, p.z);
    SpreadSign(s, p.z);
    DetStep(m, p, Spread(s, p.z));
    PositiveSum(Det(m), p.w, Spread(s, p.z), Det(AddSample(m, p)));
  }

  /** With positive weights the block is nonsingular exactly when two samples differ in z. */
  lemma {:induction false} DetSign(s: seq<Sample>)
    requires Weighted(s)
    ensures Det(MomentsOf(s)) >= 0.0 && (Det(MomentsOf(s)) > 0.0 <==> TwoPlaces(s))
  {
    if s != [] {
      var n := |s| - 1;
      DetSign(s[..n]);
      DetNext(MomentsOf(s[..n]), s[..n], s[n]);
      TwoPlacesNext(s, n);
    }
  }

  lemma TwoPlacesNext(s: seq<Sample>, n: nat)
    requires n == |s| - 1
    ensures TwoPlaces(s) <==> TwoPlaces(s[..n]) || Elsewhere(s[..n], s[n].z)
  {
    if TwoPlaces(s) {
      var i, j :| 0 <= i < j < |s| && s[i].z != s[j].z;
      if j < n {
        assert s[..n][i].z != s[..n][j].z;
      } else {
        assert s[..n][i].z != s[n].z;
      }
    }
    if TwoPlaces(s[..n]) {
      var i, j :| 0 <= i < j < n && s[..n][i].z != s[..n][j].z;
      assert s[i].z != s[j].z;
    }
    if Elsewhere(s[..n], s[n].z) {
      var i :| 0 <= i < n && s[..n][i].z != s[n].z;
      assert s[i].z != s[n].z;
    }
  }

  // ---- least squares -------------------------------------------------------------

  /** How far a sample is from the line `c + d * z`. */
  function Residual(p: Sample, c: real, d: real): real { p.u - (c + d * p.z) }

  function Chi2(s: seq<Sample>, c: real, d: real): real
  {
    if s == [] then 0.0 else Chi2(s[..|s| - 1], c, d) + s[|s| - 1].w * Square(Residual(s[|s| - 1], c, d))
  }

  /** The two normal equations of a block. */
  predicate Solves(m: Moments, c: real, d: real)
  {
    c * m.s0 + d * m.s1 == m.b0 && c * m.s1 + d * m.s2 == m.b1
  }

  /** The weighted residuals, summed plainly and against z. */
  function Sum0(s: seq<Sample>, c: real, d: real): real
  {
    if s == [] then 0.0 else Sum0(s[..|s| - 1], c, d) + s[|s| - 1].w * Residual(s[|s| - 1], c, d)
  }

  function Sum1(s: seq<Sample>, c: real, d: real): real
  {
    if s == [] then 0.0 else Sum1(s[..|s| - 1], c, d) + s[|s| - 1].w * Residual(s[|s| - 1], c, d) * s[|s| - 1].z
  }

  function Excess0(m: Moments, c: real, d: real): real { m.b0 - (c * m.s0 + d * m.s1) }

  function Excess1(m: Moments, c: real, d: real): real { m.b1 - (c * m.s1 + d * m.s2) }

  lemma Excess0Step(b: real, s: real, t: real, u: real, w: real, wz: real, z: real, c: real, d: real, before: real, after: real)
    requires wz == w * z && before == b - (c * s + d * t) && after == b + w * u - (c * (s + w) + d * (t + wz))
    ensures after == before + w * (u - (c + d * z))
  {
    Dist(c, s, w);
    Dist(d, t, wz);
    Dist(w, u, c + d * z);
    Dist(w, c, d * z);
    Assoc(w, d, z);
  }

  lemma Excess1Step(b: real, s: real, t: real, u: real, w: real, wz: real, wzz: real, z: real, c: real, d: real, before: real, after: real)
    requires wz == w * z && wzz == w * (z * z)
    requires before == b - (c * s + d * t) && after == b + w * u * z - (c * (s + wz) + d * (t + wzz))
    ensures after == before + w * (u - (c + d * z)) * z
  {
    Dist(c, s, wz);
    Dist(d, t, wzz);
    Dist(w, u, c + d * z);
    Dist(w, c, d * z);
    Dist(z, w * u, w * (c + d * z));
    Dist(z, w * c, w * (d * z));
    assert (w * c) * z == c * (w * z);
    assert (w * (d * z)) * z == d * (w * (z * z));
  }

  lemma ExcessNext(m: Moments, p: Sample, c: real, d: real)
    ensures Excess0(AddSample(m, p), c, d) == Excess0(m, c, d) + p.w * Residual(p, c, d)
    ensures Excess1(AddSample(m, p), c, d) == Excess1(m, c, d) + p.w * Residual(p, c, d) * p.z
  {
    var n := AddSample(m, p);
    Excess0Step(m.b0, m.s0, m.s1, p.u, p.w, p.w * p.z, p.z, c, d, Excess0(m, c, d), Excess0(n, c, d));
    Excess1Step(m.b1, m.s1, m.s2, p.u, p.w, p.w * p.z, p.w * (p.z * p.z), p.z, c, d, Excess1(m, c, d), Excess1(n, c, d));
  }

  lemma {:induction false} SumsAreExcess(s: seq<Sample>, c: real, d: real)
    ensures Sum0(s, c, d) == Excess0(MomentsOf(s), c, d) && Sum1(s, c, d) == Excess1(MomentsOf(s), c, d)
  {
    if s != [] {
      var m, p := MomentsOf(s[..|s| - 1]), s[|s| - 1];
      SumsAreExcess(s[..|s| - 1], c, d);
      ExcessNext(m, p, c, d);
      assert MomentsOf(s) == AddSample(m, p);
    }
  }

  /** The weighted square of the line `a + b * z` over the samples. */
  function Lean(w: real, z: real, a: real, b: real): real { w * Square(a + b * z) }

  function Tilt(s: seq<Sample>, a: real, b: real): real
  {
    if s == [] then 0.0 else Tilt(s[..|s| - 1], a, b) + Lean(s[|s| - 1].w, s[|s| - 1].z, a, b)
  }

  lemma {:induction false} TiltNonNegative(s: seq<Sample>, a: real, b: real)
    requires Weighted(s)
    ensures Tilt(s, a, b) >= 0.0
  {
    if s != [] {
      TiltNonNegative(s[..|s| - 1], a, b);
      WeightedSquare(s[|s| - 1].w, a + b * s[|s| - 1].z);
    }
  }

  lemma ShiftOne(p: Sample, c: real, d: real, a: real, b: real, e: real, f: real)
    requires e == Residual(p, c, d) && f == Residual(p, c + a, d + b)
    ensures p.w * Square(f) == p.w * Square(e) - 2.0 * (a * (p.w * e)) - 2.0 * (b * (p.w * e * p.z)) + Lean(p.w, p.z, a, b)
  {
    var t := a + b * p.z;
    Dist(p.z, d, b);
    assert f == e - t;
    SquareOfDifference(p.w, e, t);
    Dist(p.w * e, a, b * p.z);
    assert (p.w * e) * (b * p.z) == b * (p.w * e * p.z);
    assert (p.w * e) * a == a * (p.w * e);
  }

  lemma SquareOfDifference(w: real, e: real, t: real)
    ensures w * Square(e - t) == w * Square(e) - 2.0 * ((w * e) * t) + w * Square(t)
  {
    assert Square(e - t) == Square(e) - 2.0 * (e * t) + Square(t);
    Dist(w, Square(e) - 2.0 * (e * t), Square(t));
    Dist(w, Square(e), 2.0 * (e * t));
    assert w * (2.0 * (e * t)) == 2.0 * ((w * e) * t);
  }

  /** Chi square for a shifted and an unshifted line, with the sums that make the difference. */
  datatype Parts = Parts(shifted: real, chi2: real, sum0: real, sum1: real, tilt: real)

  predicate Balanced(q: Parts, a: real, b: real)
  {
    q.shifted == q.chi2 - 2.0 * (a * q.sum0) - 2.0 * (b * q.sum1) + q.tilt
  }

  function Plus(q: Parts, r: Parts): Parts
  {
    Parts(q.shifted + r.shifted, q.chi2 + r.chi2, q.sum0 + r.sum0, q.sum1 + r.sum1, q.tilt + r.tilt)
  }

  lemma BalancedPlus(q: Parts, r: Parts, a: real, b: real)
    requires Balanced(q, a, b) && Balanced(r, a, b)
    ensures Balanced(Plus(q, r), a, b)
  {
    Dist(a, q.sum0, r.sum0);
    Dist(b, q.sum1, r.sum1);
  }

  function PartsOf(s: seq<Sample>, c: real, d: real, a: real, b: real): Parts
  {
    Parts(Chi2(s, c + a, d + b), Chi2(s, c, d), Sum0(s, c, d), Sum1(s, c, d), Tilt(s, a, b))
  }

  function PartsOfOne(p: Sample, c: real, d: real, a: real, b: real): Parts
  {
    Parts(p.w * Square(Residual(p, c + a, d + b)), p.w * Square(Residual(p, c, d)),
          p.w * Residual(p, c, d), p.w * Residual(p, c, d) * p.z, Lean(p.w, p.z, a, b))
  }

  lemma PartsSnoc(s: seq<Sample>, c: real, d: real, a: real, b: real)
    requires s != []
    ensures PartsOf(s, c, d, a, b) == Plus(PartsOf(s[..|s| - 1], c, d, a, b), PartsOfOne(s[|s| - 1], c, d, a, b))
  {
  }

  lemma {:induction false} ChiShift(s: seq<Sample>, c: real, d: real, a: real, b: real)
    ensures Balanced(PartsOf(s, c, d, a, b), a, b)
  {
    if s != [] {
      var p := s[|s| - 1];
      ChiShift(s[..|s| - 1], c, d, a, b);
      ShiftOne(p, c, d, a, b, Residual(p, c, d), Residual(p, c + a, d + b));
      BalancedPlus(PartsOf(s[..|s| - 1], c, d, a, b), PartsOfOne(p, c, d, a, b), a, b);
      PartsSnoc(s, c, d, a, b);
    }
  }

  ghost predicate Minimises(s: seq<Sample>, c: real, d: real)
  {
    forall c', d' :: Chi2(s, c, d) <= Chi2(s, c', d')
  }

  lemma SolvedHasNoExcess(m: Moments, c: real, d: real, e0: real, e1: real)
    requires Solves(m, c, d) && e0 == Excess0(m, c, d) && e1 == Excess1(m, c, d)
    ensures e0 == 0.0 && e1 == 0.0
  {
  }

  lemma NoExcess(s: seq<Sample>, c: real, d: real)
    requires Solves(MomentsOf(s), c, d)
    ensures Sum0(s, c, d) == 0.0 && Sum1(s, c, d) == 0.0
  {
    SumsAreExcess(s, c, d);
    SolvedHasNoExcess(MomentsOf(s), c, d, Sum0(s, c, d), Sum1(s, c, d));
  }

  lemma BalancedWithoutSums(q: Parts, a: real, b: real)
    requires Balanced(q, a, b) && q.sum0 == 0.0 && q.sum1 == 0.0
    ensures q.shifted == q.chi2 + q.tilt
  {
  }

  /** A solution of the normal equations fits at least as well as any other line. */
  lemma {:induction false} SolutionMinimises(s: seq<Sample>, c: real, d: real)
    requires Weighted(s) && Solves(MomentsOf(s), c, d)
    ensures Minimises(s, c, d)
  {
    NoExcess(s, c, d);
    forall c', d'
      ensures Chi2(s, c, d) <= Chi2(s, c', d')
    {
      Beats(s, c, d, c', d', c' - c, d' - d);
    }
  }

  lemma Beats(s: seq<Sample>, c: real, d: real, c': real, d': real, a: real, b: real)
    requires Weighted(s) && Sum0(s, c, d) == 0.0 && Sum1(s, c, d) == 0.0
    requires c' == c + a && d' == d + b
    ensures Chi2(s, c', d') == Chi2(s, c, d) + Tilt(s, a, b) >= Chi2(s, c, d)
  {
    ChiShift(s, c, d, a, b);
    BalancedWithoutSums(PartsOf(s, c, d, a, b), a, b);
    TiltNonNegative(s, a, b);
  }

  lemma LeanScale(w: real, z: real, t: real, a: real, b: real, tt: real)
    requires tt == t * t
    ensures Lean(w, z, t * a, t * b) == tt * Lean(w, z, a, b)
  {
    var q := a + b * z;
    Dist(t, a, b * z);
    Assoc(t, b, z);
    SquareScale(t, q, tt, t * a + (t * b) * z);
    Assoc(w, tt, Square(q));
  }

  lemma SquareScale(t: real, q: real, tt: real, tq: real)
    requires tt == t * t && tq == t * q
    ensures Square(tq) == tt * Square(q)
  {
    assert (t * q) * (t * q) == (t * t) * (q * q);
  }

  lemma {:induction false} TiltScale(s: seq<Sample>, t: real, a: real, b: real, tt: real)
    requires tt == t * t
    ensures Tilt(s, t * a, t * b) == tt * Tilt(s, a, b)
  {
    if s != [] {
      var before, p := s[..|s| - 1], s[|s| - 1];
      TiltScale(before, t, a, b, tt);
      LeanScale(p.w, p.z, t, a, b, tt);
      ScaledSum(tt, Tilt(before, a, b), Lean(p.w, p.z, a, b), Tilt(before, t * a, t * b), Lean(p.w, p.z, t * a, t * b));
    }
  }

  lemma ScaledSum(tt: real, x: real, y: real, x': real, y': real)
    requires x' == tt * x && y' == tt * y
    ensures x' + y' == tt * (x + y)
  {
  }

  /** A step small enough not to overshoot. */
  lemma StepSize(g: real, tilt: real) returns (t: real)
    requires g > 0.0 && tilt >= 0.0
    ensures t > 0.0 && t * tilt <= g
  {
    t := g / (tilt + g);
    assert t * (tilt + g) == g;
    SameSign(t, tilt + g);
    MulPositive(t, g);
    Dist(t, tilt, g);
  }

  lemma Lower(t: real, g: real, tilt: real, tt: real)
    requires t > 0.0 && g > 0.0 && t * tilt <= g && tt == t * t
    ensures -2.0 * (t * g) + tt * tilt < 0.0
  {
    MulPositive(t, g);
    var short := g - t * tilt;
    assert tt * tilt == t * (t * tilt);
    Dist(t, g, t * tilt);
    if short > 0.0 {
      MulPositive(t, short);
    }
  }

  /** A line that does not solve the normal equations can be improved. */
  lemma Improve(s: seq<Sample>, c: real, d: real, g0: real, g1: real) returns (c': real, d': real)
    requires Weighted(s) && g0 == Sum0(s, c, d) && g1 == Sum1(s, c, d) && (g0 != 0.0 || g1 != 0.0)
    ensures Chi2(s, c', d') < Chi2(s, c, d)
  {
    var g, tilt := Square(g0) + Square(g1), Tilt(s, g0, g1);
    SomeSlope(g0, g1);
    TiltNonNegative(s, g0, g1);
    var t := StepSize(g, tilt);
    c', d' := c + t * g0, d + t * g1;
    StepDown(s, c, d, g0, g1, g, tilt, t, t * t);
  }

  lemma SomeSlope(g0: real, g1: real)
    requires g0 != 0.0 || g1 != 0.0
    ensures Square(g0) + Square(g1) > 0.0
  {
    if g0 != 0.0 {
      SquarePositive(g0);
    } else {
      SquarePositive(g1);
    }
  }

  lemma StepDown(s: seq<Sample>, c: real, d: real, g0: real, g1: real, g: real, tilt: real, t: real, tt: real)
    requires g0 == Sum0(s, c, d) && g1 == Sum1(s, c, d) && g == Square(g0) + Square(g1) && tilt == Tilt(s, g0, g1)
    requires t > 0.0 && g > 0.0 && t * tilt <= g && tt == t * t
    ensures Chi2(s, c + t * g0, d + t * g1) < Chi2(s, c, d)
  {
    ChiShift(s, c, d, t * g0, t * g1);
    TiltScale(s, t, g0, g1, tt);
    Lower(t, g, tilt, tt);
    Descends(PartsOf(s, c, d, t * g0, t * g1), t, g0, g1, g, tilt, tt);
  }

  lemma Descends(q: Parts, t: real, g0: real, g1: real, g: real, tilt: real, tt: real)
    requires Balanced(q, t * g0, t * g1) && q.sum0 == g0 && q.sum1 == g1 && q.tilt == tt * tilt
    requires g == Square(g0) + Square(g1) && -2.0 * (t * g) + tt * tilt < 0.0
    ensures q.shifted < q.chi2
  {
    assert (t * g0) * g0 == t * Square(g0);
    assert (t * g1) * g1 == t * Square(g1);
    Distribute(t, g, Square(g0), Square(g1));
  }

  lemma SolvesIffNoExcess(m: Moments, c: real, d: real, e0: real, e1: real)
    requires e0 == Excess0(m, c, d) && e1 == Excess1(m, c, d)
    ensures Solves(m, c, d) <==> e0 == 0.0 && e1 == 0.0
  {
  }

  /** The best lines are exactly the solutions of the normal equations. */
  lemma {:induction false} MinimisesIffSolves(s: seq<Sample>, c: real, d: real)
    requires Weighted(s)
    ensures Minimises(s, c, d) <==> Solves(MomentsOf(s), c, d)
  {
    if Solves(MomentsOf(s), c, d) {
      SolutionMinimises(s, c, d);
    }
    if !Solves(MomentsOf(s), c, d) {
      SumsAreExcess(s, c, d);
      SolvesIffNoExcess(MomentsOf(s), c, d, Sum0(s, c, d), Sum1(s, c, d));
      var c', d' := Improve(s, c, d, Sum0(s, c, d), Sum1(s, c, d));
      assert Chi2(s, c', d') < Chi2(s, c, d);
    }
  }

  // ---- one solution --------------------------------------------------------------

  lemma OneSolution(m: Moments, c: real, d: real, c': real, d': real)
    requires Det(m) > 0.0 && Solves(m, c, d) && Solves(m, c', d')
    ensures c == c' && d == d'
  {
    Homogeneous(m.s0, m.s1, m.s2, c - c', d - d', c, d, c', d');
    OnlyZero(m.s0, m.s1, m.s2, c - c', d - d', Det(m));
  }

  lemma Homogeneous(s0: real, s1: real, s2: real, x: real, y: real, c: real, d: real, c': real, d': real)
    requires x == c - c' && y == d - d'
    requires c * s0 + d * s1 == c' * s0 + d' * s1 && c * s1 + d * s2 == c' * s1 + d' * s2
    ensures x * s0 + y * s1 == 0.0 && x * s1 + y * s2 == 0.0
  {
    Dist(s0, c, c');
    Dist(s1, d, d');
    Dist(s1, c, c');
    Dist(s2, d, d');
  }

  /** A nonsingular block sends nothing but zero to zero. */
  lemma OnlyZero(s0: real, s1: real, s2: real, x: real, y: real, det: real)
    requires det > 0.0 && det == s0 * s2 - s1 * s1
    requires x * s0 + y * s1 == 0.0 && x * s1 + y * s2 == 0.0
    ensures x == 0.0 && y == 0.0
  {
    Eliminate(s0, s1, s2, x, y, x * s0 + y * s1, x * s1 + y * s2);
    assert x * det == 0.0 && y * det == 0.0;
    SameSign(x, det);
    SameSign(y, det);
  }

  lemma Eliminate(s0: real, s1: real, s2: real, x: real, y: real, p: real, q: real)
    requires p == x * s0 + y * s1 && q == x * s1 + y * s2
    ensures x * (s0 * s2 - s1 * s1) == p * s2 - q * s1
    ensures y * (s0 * s2 - s1 * s1) == q * s0 - p * s1
  {
  }

  /** Cramer's rule. */
  lemma CramerSolves(m: Moments, c: real, d: real)
    requires Det(m) != 0.0
    requires c == (m.b0 * m.s2 - m.b1 * m.s1) / Det(m) && d == (m.b1 * m.s0 - m.b0 * m.s1) / Det(m)
    ensures Solves(m, c, d)
  {
    var det := Det(m);
    assert c * det == m.b0 * m.s2 - m.b1 * m.s1 && d * det == m.b1 * m.s0 - m.b0 * m.s1;
    CramerLeft(m, c, d, det);
    Cancel(c * m.s0 + d * m.s1, m.b0, det);
    Cancel(c * m.s1 + d * m.s2, m.b1, det);
  }

  lemma CramerLeft(m: Moments, c: real, d: real, det: real)
    requires det == Det(m) && c * det == m.b0 * m.s2 - m.b1 * m.s1 && d * det == m.b1 * m.s0 - m.b0 * m.s1
    ensures (c * m.s0 + d * m.s1) * det == m.b0 * det
    ensures (c * m.s1 + d * m.s2) * det == m.b1 * det
  {
    Swap(c, m.s0, det, m.b0 * m.s2 - m.b1 * m.s1);
    Swap(d, m.s1, det, m.b1 * m.s0 - m.b0 * m.s1);
    Swap(c, m.s1, det, m.b0 * m.s2 - m.b1 * m.s1);
    Swap(d, m.s2, det, m.b1 * m.s0 - m.b0 * m.s1);
    Dist(det, c * m.s0, d * m.s1);
    Dist(det, c * m.s1, d * m.s2);
  }

  lemma Swap(c: real, s: real, det: real, r: real)
    requires c * det == r
    ensures (c * s) * det == r * s
  {
    assert (c * s) * det == (c * det) * s;
  }

  lemma Cancel(a: real, b: real, det: real)
    requires det != 0.0 && a * det == b * det
    ensures a == b
  {
    assert (a - b) * det == 0.0;
  }

  /** Samples on a line leave nothing over. */
  lemma {:induction false} OnLineNothingLeft(s: seq<Sample>, c: real, d: real)
    requires forall i :: 0 <= i < |s| ==> Residual(s[i], c, d) == 0.0
    ensures Sum0(s, c, d) == 0.0 && Sum1(s, c, d) == 0.0
  {
    if s != [] {
      OnLineNothingLeft(s[..|s| - 1], c, d);
      ZeroProduct(s[|s| - 1].w, Residual(s[|s| - 1], c, d), s[|s| - 1].z);
    }
  }

  lemma ZeroProduct(w: real, e: real, z: real)
    requires e == 0.0
    ensures w * e == 0.0 && w * e * z == 0.0
  {
  }

  lemma LineSolves(s: seq<Sample>, c: real, d: real)
    requires forall i :: 0 <= i < |s| ==> Residual(s[i], c, d) == 0.0
    ensures Solves(MomentsOf(s), c, d)
  {
    OnLineNothingLeft(s, c, d);
    SumsAreExcess(s, c, d);
  }

  /** An exact line is recovered. */
  lemma ExactLineRecovered(s: seq<Sample>, c: real, d: real, c': real, d': real)
    requires Weighted(s) && TwoPlaces(s) && forall i :: 0 <= i < |s| ==> Residual(s[i], c, d) == 0.0
    requires Solves(MomentsOf(s), c', d')
    ensures c' == c && d' == d
  {
    LineSolves(s, c, d);
    DetSign(s);
    OneSolution(MomentsOf(s), c, d, c', d');
  }
}
