/** The fit as the decoder carries it out: a 4 by 4 system for both projections at once. */
module TrackMatrix {
  import opened RealAlgebra
  import opened TrackFit

  datatype Measurement = Measurement(x: real, y: real, z: real, wx: real, wy: real)

  function XSamples(ps: seq<Measurement>): (s: seq<Sample>)
    ensures |s| == |ps| && forall i :: 0 <= i < |ps| ==> s[i] == Sample(ps[i].x, ps[i].z, ps[i].wx)
  {
    seq(|ps|, i requires 0 <= i < |ps| => Sample(ps[i].x, ps[i].z, ps[i].wx))
  }

  function YSamples(ps: seq<Measurement>): (s: seq<Sample>)
    ensures |s| == |ps| && forall i :: 0 <= i < |ps| ==> s[i] == Sample(ps[i].y, ps[i].z, ps[i].wy)
  {
    seq(|ps|, i requires 0 <= i < |ps| => Sample(ps[i].y, ps[i].z, ps[i].wy))
  }

  lemma SamplesNext(ps: seq<Measurement>, n: nat)
    requires n < |ps|
    ensures MomentsOf(XSamples(ps[..n + 1])) == AddSample(MomentsOf(XSamples(ps[..n])), Sample(ps[n].x, ps[n].z, ps[n].wx))
    ensures MomentsOf(YSamples(ps[..n + 1])) == AddSample(MomentsOf(YSamples(ps[..n])), Sample(ps[n].y, ps[n].z, ps[n].wy))
  {
    assert XSamples(ps[..n + 1])[..n] == XSamples(ps[..n]);
    assert YSamples(ps[..n + 1])[..n] == YSamples(ps[..n]);
  }

  // ---- the system ----------------------------------------------------------------

  ghost predicate Dimensioned(a: array2<real>, b: array<real>)
  {
    a.Length0 == 4 && a.Length1 == 4 && b.Length == 4
  }

  /** Rows and columns `k` and `k + 2` hold the block of one projection. */
  ghost predicate IsBlock(a: array2<real>, b: array<real>, k: nat, m: Moments)
    requires Dimensioned(a, b) && k < 2
    reads a, b
  {
    && a[k, k] == m.s0 && a[k, k + 2] == m.s1 && a[k + 2, k] == m.s1 && a[k + 2, k + 2] == m.s2
    && b[k] == m.b0 && b[k + 2] == m.b1
  }

  /** Nothing couples the two projections. */
  ghost predicate Uncoupled(a: array2<real>)
    requires a.Length0 == 4 && a.Length1 == 4
    reads a
  {
    a[0, 1] == a[0, 3] == a[1, 0] == a[1, 2] == a[2, 1] == a[2, 3] == a[3, 0] == a[3, 2] == 0.0
  }

  ghost predicate IsNormal(a: array2<real>, b: array<real>, mx: Moments, my: Moments)
    requires Dimensioned(a, b)
    reads a, b
  {
    IsBlock(a, b, 0, mx) && IsBlock(a, b, 1, my) && Uncoupled(a)
  }

  datatype Line = Line(X: real, Y: real, Xp: real, Yp: real)

  function RowTimes(a: array2<real>, i: nat, v: Line): real
    requires i < a.Length0 && a.Length1 == 4
    reads a
  {
    v.X * a[i, 0] + v.Y * a[i, 1] + v.Xp * a[i, 2] + v.Yp * a[i, 3]
  }

  /** `v` solves the system. */
  ghost predicate SolvesSystem(a: array2<real>, b: array<real>, v: Line)
    requires Dimensioned(a, b)
    reads a, b
  {
    && RowTimes(a, 0, v) == b[0] && RowTimes(a, 1, v) == b[1]
    && RowTimes(a, 2, v) == b[2] && RowTimes(a, 3, v) == b[3]
  }

  lemma Coupled(x: real, y: real, s: real, t: real, a: real, b: real, zero: real)
    requires zero == 0.0
    ensures x * s + a * zero + y * t + b * zero == x * s + y * t
    ensures a * zero + x * s + b * zero + y * t == x * s + y * t
  {
  }

  /** The system falls apart into the normal equations of the two projections. */
  lemma SystemSplits(a: array2<real>, b: array<real>, mx: Moments, my: Moments, v: Line)
    requires Dimensioned(a, b) && IsNormal(a, b, mx, my)
    ensures SolvesSystem(a, b, v) <==> Solves(mx, v.X, v.Xp) && Solves(my, v.Y, v.Yp)
  {
    Coupled(v.X, v.Xp, mx.s0, mx.s1, v.Y, v.Yp, 0.0);
    Coupled(v.X, v.Xp, mx.s1, mx.s2, v.Y, v.Yp, 0.0);
    Coupled(v.Y, v.Yp, my.s0, my.s1, v.X, v.Xp, 0.0);
    Coupled(v.Y, v.Yp, my.s1, my.s2, v.X, v.Xp, 0.0);
  }

  /** Adds to the block of one projection. */
  method AddToBlock(a: array2<real>, b: array<real>, k: nat, ghost m: Moments, ghost other: Moments,
                    w: real, wz: real, wzz: real, wu: real, wuz: real)
    requires Dimensioned(a, b) && k < 2 && IsBlock(a, b, k, m) && IsBlock(a, b, 1 - k, other) && Uncoupled(a)
    modifies a, b
    ensures IsBlock(a, b, k, Moments(m.s0 + w, m.s1 + wz, m.s2 + wzz, m.b0 + wu, m.b1 + wuz)) && Uncoupled(a)
    ensures IsBlock(a, b, 1 - k, other)
  {
    b[k] := b[k] + wu;
    b[k + 2] := b[k + 2] + wuz;
    a[k, k] := a[k, k] + w;
    a[k, k + 2] := a[k, k + 2] + wz;
    a[k + 2, k] := a[k + 2, k] + wz;
    a[k + 2, k + 2] := a[k + 2, k + 2] + wzz;
  }

  method AddMeasurement(a: array2<real>, b: array<real>, p: Measurement, ghost mx: Moments, ghost my: Moments)
    requires Dimensioned(a, b) && IsNormal(a, b, mx, my)
    modifies a, b
    ensures IsNormal(a, b, AddSample(mx, Sample(p.x, p.z, p.wx)), AddSample(my, Sample(p.y, p.z, p.wy)))
  {
    AddToBlock(a, b, 0, mx, my, p.wx, p.wx * p.z, p.wx * (p.z * p.z), p.wx * p.x, p.wx * p.x * p.z);
    AddToBlock(a, b, 1, my, AddSample(mx, Sample(p.x, p.z, p.wx)), p.wy, p.wy * p.z, p.wy * (p.z * p.z), p.wy * p.y, p.wy * p.y * p.z);
  }

  method NormalEquations(ps: seq<Measurement>) returns (a: array2<real>, b: array<real>)
    ensures Dimensioned(a, b) && fresh(a) && fresh(b)
    ensures IsNormal(a, b, MomentsOf(XSamples(ps)), MomentsOf(YSamples(ps)))
  {
    a := new real[4, 4]((i, j) => 0.0);
    b := new real[4](i => 0.0);
    for n := 0 to |ps|
      invariant IsNormal(a, b, MomentsOf(XSamples(ps[..n])), MomentsOf(YSamples(ps[..n])))
    {
      AddMeasurement(a, b, ps[n], MomentsOf(XSamples(ps[..n])), MomentsOf(YSamples(ps[..n])));
      SamplesNext(ps, n);
    }
    assert ps[..|ps|] == ps;
  }

  // ---- the fit -------------------------------------------------------------------

  datatype Fit = TooFew | Singular | Fitted(line: Line)

  ghost predicate AllWeighted(ps: seq<Measurement>)
  {
    forall i :: 0 <= i < |ps| ==> ps[i].wx > 0.0 && ps[i].wy > 0.0
  }

  ghost predicate TwoPlanes(ps: seq<Measurement>)
  {
    exists i, j :: 0 <= i < j < |ps| && ps[i].z != ps[j].z
  }

  lemma PlanesAreSamples(ps: seq<Measurement>)
    requires AllWeighted(ps)
    ensures Weighted(XSamples(ps)) && Weighted(YSamples(ps))
    ensures TwoPlaces(XSamples(ps)) <==> TwoPlanes(ps)
    ensures TwoPlaces(YSamples(ps)) <==> TwoPlanes(ps)
  {
    var xs, ys := XSamples(ps), YSamples(ps);
    if TwoPlanes(ps) {
      var i, j :| 0 <= i < j < |ps| && ps[i].z != ps[j].z;
      assert xs[i].z != xs[j].z && ys[i].z != ys[j].z;
    }
    if TwoPlaces(xs) {
      var i, j :| 0 <= i < j < |xs| && xs[i].z != xs[j].z;
      assert ps[i].z != ps[j].z;
    }
    if TwoPlaces(ys) {
      var i, j :| 0 <= i < j < |ys| && ys[i].z != ys[j].z;
      assert ps[i].z != ps[j].z;
    }
  }

  method SolveBlock(a: array2<real>, b: array<real>, k: nat, ghost m: Moments) returns (ok: bool, c: real, d: real)
    requires Dimensioned(a, b) && k < 2 && IsBlock(a, b, k, m)
    ensures ok <==> Det(m) != 0.0
    ensures ok ==> Solves(m, c, d)
  {
    ok, c, d := Cramer(Moments(a[k, k], a[k, k + 2], a[k + 2, k + 2], b[k], b[k + 2]));
  }

  method Cramer(m: Moments) returns (ok: bool, c: real, d: real)
    ensures ok <==> Det(m) != 0.0
    ensures ok ==> Solves(m, c, d)
  {
    var det := Det(m);
    ok, c, d := det != 0.0, 0.0, 0.0;
    if ok {
      c, d := (m.b0 * m.s2 - m.b1 * m.s1) / det, (m.b1 * m.s0 - m.b0 * m.s1) / det;
      CramerSolves(m, c, d);
    }
  }

  /** Less than two points give no line; points all at one z leave the matrix singular. Any
      other fit solves the system, is the only solution, and is the best line there is. */
  method Fit_3D_Track(ps: seq<Measurement>) returns (r: Fit)
    requires AllWeighted(ps)
    ensures r.TooFew? <==> |ps| < 2
    ensures r.Singular? <==> |ps| >= 2 && !TwoPlanes(ps)
    ensures r.Fitted? ==>
            && Solves(MomentsOf(XSamples(ps)), r.line.X, r.line.Xp) && Solves(MomentsOf(YSamples(ps)), r.line.Y, r.line.Yp)
            && Minimises(XSamples(ps), r.line.X, r.line.Xp) && Minimises(YSamples(ps), r.line.Y, r.line.Yp)
  {
    if |ps| < 2 {
      return TooFew;
    }
    var a, b := NormalEquations(ps);
    var okX, X, Xp := SolveBlock(a, b, 0, MomentsOf(XSamples(ps)));
    var okY, Y, Yp := SolveBlock(a, b, 1, MomentsOf(YSamples(ps)));
    NonsingularIff(ps);
    if !okX || !okY {
      return Singular;
    }
    r := Fitted(Line(X, Y, Xp, Yp));
    SolutionMinimises(XSamples(ps), X, Xp);
    SolutionMinimises(YSamples(ps), Y, Yp);
  }

  lemma NonsingularIff(ps: seq<Measurement>)
    requires AllWeighted(ps)
    ensures Weighted(XSamples(ps)) && Weighted(YSamples(ps))
    ensures Det(MomentsOf(XSamples(ps))) >= 0.0 && (Det(MomentsOf(XSamples(ps))) > 0.0 <==> TwoPlanes(ps))
    ensures Det(MomentsOf(YSamples(ps))) >= 0.0 && (Det(MomentsOf(YSamples(ps))) > 0.0 <==> TwoPlanes(ps))
  {
    PlanesAreSamples(ps);
    DetSign(XSamples(ps));
    DetSign(YSamples(ps));
  }

  /** The system has one solution exactly when two points differ in z. */
  lemma OneSolutionIff(ps: seq<Measurement>, a: array2<real>, b: array<real>, v: Line)
    requires AllWeighted(ps) && Dimensioned(a, b) && IsNormal(a, b, MomentsOf(XSamples(ps)), MomentsOf(YSamples(ps)))
    requires SolvesSystem(a, b, v)
    ensures TwoPlanes(ps) <==> forall v' :: SolvesSystem(a, b, v') ==> v' == v
  {
    var mx, my := MomentsOf(XSamples(ps)), MomentsOf(YSamples(ps));
    NonsingularIff(ps);
    if TwoPlanes(ps) {
      forall v' | SolvesSystem(a, b, v')
        ensures v' == v
      {
        OnlyLine(a, b, mx, my, v, v');
      }
    } else {
      var v' := OtherLine(a, b, mx, my, v);
      assert SolvesSystem(a, b, v') && v' != v;
    }
  }

  lemma OnlyLine(a: array2<real>, b: array<real>, mx: Moments, my: Moments, v: Line, v': Line)
    requires Dimensioned(a, b) && IsNormal(a, b, mx, my) && Det(mx) > 0.0 && Det(my) > 0.0
    requires SolvesSystem(a, b, v) && SolvesSystem(a, b, v')
    ensures v' == v
  {
    SystemSplits(a, b, mx, my, v);
    SystemSplits(a, b, mx, my, v');
    OneSolution(mx, v.X, v.Xp, v'.X, v'.Xp);
    OneSolution(my, v.Y, v.Yp, v'.Y, v'.Yp);
  }

  lemma OtherLine(a: array2<real>, b: array<real>, mx: Moments, my: Moments, v: Line) returns (v': Line)
    requires Dimensioned(a, b) && IsNormal(a, b, mx, my) && Det(mx) == 0.0 && SolvesSystem(a, b, v)
    ensures SolvesSystem(a, b, v') && v' != v
  {
    SystemSplits(a, b, mx, my, v);
    var c, d := AnotherSolution(mx, v.X, v.Xp);
    v' := Line(c, v.Y, d, v.Yp);
    SystemSplits(a, b, mx, my, v');
  }

  /** A singular block that can be solved at all can be solved in another way. */
  lemma AnotherSolution(m: Moments, c: real, d: real) returns (c': real, d': real)
    requires Det(m) == 0.0 && Solves(m, c, d)
    ensures Solves(m, c', d') && !(c' == c && d' == d)
  {
    if m.s0 == 0.0 && m.s1 == 0.0 {
      c', d' := c + 1.0, d;
    } else {
      c', d' := c + m.s1, d - m.s0;
      Dist(m.s0, c, m.s1);
      Dist(m.s1, d, m.s0);
      Dist(m.s1, c, m.s1);
      Dist(m.s2, d, m.s0);
    }
  }
}
