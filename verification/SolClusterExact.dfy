/** The cluster search in terms of strip numbers and amplitudes: where a cluster is put, and
    which runs are split. */
module SolClusterExact {
  import opened RealAlgebra
  import opened Sums
  import opened SolClusters
  import opened SolClusterResults

  // ---- the position --------------------------------------------------------------

  function Weighted(h: RawHit): real { h.strip as real * h.adc }

  lemma MomentOfHit(stripstart: real, pitch: real, h: RawHit)
    ensures PosMoment(stripstart, pitch)(h) == stripstart * h.adc + pitch * Weighted(h)
  {
    var p := Position(stripstart, pitch, h.strip);
    Dist(h.adc, stripstart, h.strip as real * pitch);
    Assoc(pitch, h.strip as real, h.adc);
    MomentIs(stripstart, pitch, h, p);
    assert Product(p, h.adc) == p * h.adc;
  }

  lemma {:induction false} MomentsAddUp(s: seq<RawHit>, stripstart: real, pitch: real)
    ensures Sum(s, PosMoment(stripstart, pitch)) == stripstart * Sum(s, Adc) + pitch * Sum(s, Weighted)
  {
    if s != [] {
      var n := |s| - 1;
      MomentsAddUp(s[..n], stripstart, pitch);
      MomentOfHit(stripstart, pitch, s[n]);
      assert Adc(s[n]) == s[n].adc;
      Distribute(stripstart, Sum(s, Adc), Sum(s[..n], Adc), s[n].adc);
      Distribute(pitch, Sum(s, Weighted), Sum(s[..n], Weighted), Weighted(s[n]));
    } else {
      assert stripstart * 0.0 == 0.0 && pitch * 0.0 == 0.0;
    }
  }

  /** A cluster lies at the amplitude-weighted mean of its strips' numbers, taken along the plane
      from its first strip in steps of the pitch. */
  lemma PositionIsMean(h0: seq<RawHit>, h: seq<RawHit>, bounds: seq<nat>, cs: seq<Cluster>,
                       stripstart: real, pitch: real, i: nat)
    requires Complete(h0, h, bounds, cs, stripstart, pitch) && i < |cs|
    ensures bounds[i] < bounds[i + 1] <= |h| && cs[i].charge == Sum(h[bounds[i]..bounds[i + 1]], Adc)
    ensures LocatedAt(cs[i].pos, cs[i].charge, stripstart, pitch, Sum(h[bounds[i]..bounds[i + 1]], Weighted))
  {
    SpanIsFinal(h0, h, bounds, cs, stripstart, pitch, i);
    MeanLocates(h[bounds[i]..bounds[i + 1]], stripstart, pitch, cs[i].pos, cs[i].charge);
  }

  predicate LocatedAt(pos: real, charge: real, stripstart: real, pitch: real, weighted: real)
  {
    pos * charge == stripstart * charge + pitch * weighted
  }

  lemma MeanLocates(s: seq<RawHit>, stripstart: real, pitch: real, pos: real, charge: real)
    requires charge == Sum(s, Adc) && charge > 0.0 && pos == Sum(s, PosMoment(stripstart, pitch)) / charge
    ensures LocatedAt(pos, charge, stripstart, pitch, Sum(s, Weighted))
  {
    MomentsAddUp(s, stripstart, pitch);
    Unquotient(pos, Sum(s, PosMoment(stripstart, pitch)), charge);
  }

  lemma Unquotient(q: real, m: real, e: real)
    requires e > 0.0 && q == m / e
    ensures q * e == m
  {
  }

  // ---- which runs are split ------------------------------------------------------

  /** At `j` the amplitude is below 90% of the earlier one at `i`, at `k` above 110% of the one
      at `j` before it. */
  predicate DropAndRise(h: seq<RawHit>, s: nat, e: nat, i: nat, j: nat, k: nat)
  {
    s <= i < j < k < e <= |h| && h[j].adc < 0.9 * h[i].adc && h[k].adc > 1.1 * h[j].adc
  }

  lemma {:induction false} PeakIsSome(h: seq<RawHit>, a: nat, b: nat) returns (i: nat)
    requires a < b <= |h| && Amplitudes(h)
    ensures a <= i < b && h[i].adc == Peak(h, a, b)
    decreases b - a
  {
    if b - 1 == a || h[b - 1].adc > Peak(h, a, b - 1) {
      i := b - 1;
    } else {
      i := PeakIsSome(h, a, b - 1);
    }
  }

  lemma {:induction false} ValleyIsSome(h: seq<RawHit>, a: nat, b: nat) returns (i: nat)
    requires a < b <= |h| && Amplitudes(h)
    ensures a <= i < b && h[i].adc == Valley(h, a, b)
    decreases b - a
  {
    if b - 1 == a || h[b - 1].adc < Valley(h, a, b - 1) {
      i := b - 1;
    } else {
      i := ValleyIsSome(h, a, b - 1);
    }
  }

  /** The verdict of one peak: no strip is below 90% of an earlier one. */
  lemma OnePeakIff(h: seq<RawHit>, s: nat, e: nat)
    requires s < e <= |h| && Amplitudes(h)
    ensures NoFall(h, s, e) <==> forall i, j :: s <= i < j < e ==> h[j].adc >= 0.9 * h[i].adc
  {
    if NoFall(h, s, e) {
      forall i, j | s <= i < j < e
        ensures h[j].adc >= 0.9 * h[i].adc
      {
        assert !Fall(h, s, j);
      }
    } else {
      var j :| s <= j < e && Fall(h, s, j);
      if j > s {
        var i := PeakIsSome(h, s, j);
        assert h[j].adc < 0.9 * h[i].adc;
      }
    }
  }

  /** The verdict of two peaks, with the shared strip at the valley. */
  lemma {:induction false} TwoPeaksSeen(h: seq<RawHit>, s: nat, e: nat, d: nat, u: nat, m: nat) returns (i: nat)
    requires s < e <= |h| && Amplitudes(h) && Verdict(h, s, e, 3, d, u, m)
    ensures DropAndRise(h, s, e, i, m, u)
  {
    i := PeakIsSome(h, s, d);
    assert Valley(h, d, u) <= h[d].adc;
  }

  lemma {:induction false} FirstFall(h: seq<RawHit>, s: nat, j: nat) returns (d: nat)
    requires s <= j < |h| && Fall(h, s, j)
    ensures s <= d <= j && NoFall(h, s, d) && Fall(h, s, d)
    decreases j - s
  {
    if NoFall(h, s, j) {
      d := j;
    } else {
      var i :| s <= i < j && Fall(h, s, i);
      d := FirstFall(h, s, i);
    }
  }

  lemma {:induction false} FirstRise(h: seq<RawHit>, d: nat, k: nat) returns (u: nat)
    requires d <= k < |h| && Rise(h, d, k)
    ensures d <= u <= k && NoRise(h, d, u) && Rise(h, d, u)
    decreases k - d
  {
    if NoRise(h, d, k) {
      u := k;
    } else {
      var i :| d <= i < k && Rise(h, d, i);
      u := FirstRise(h, d, i);
    }
  }

  lemma {:induction false} FirstBottom(h: seq<RawHit>, d: nat, u: nat) returns (m: nat)
    requires d < u <= |h| && Amplitudes(h)
    ensures Bottom(h, d, u, m)
    decreases u - d
  {
    if u - 1 == d || h[u - 1].adc < Valley(h, d, u - 1) {
      m := u - 1;
    } else {
      m := FirstBottom(h, d, u - 1);
    }
  }

  lemma {:induction false} TwoPeaksFound(h: seq<RawHit>, s: nat, e: nat, i: nat, j: nat, k: nat) returns (d: nat, u: nat, m: nat)
    requires Amplitudes(h) && DropAndRise(h, s, e, i, j, k)
    ensures Verdict(h, s, e, 3, d, u, m)
  {
    assert Peak(h, s, j) >= h[i].adc;
    d := FirstFall(h, s, j);
    assert Valley(h, d, k) <= h[j].adc;
    u := FirstRise(h, d, k);
    NoRiseYet(h, d);
    m := FirstBottom(h, d, u);
  }

  lemma NoRiseYet(h: seq<RawHit>, d: nat)
    requires d < |h| && Amplitudes(h)
    ensures !Rise(h, d, d)
  {
    assert Valley(h, d, d) == BIG;
  }

  /** A run is split exactly when it has more than seven strips and among them one below 90% of
      an earlier one, with one after it above 110% of that. */
  lemma DoublePeakIff(h: seq<RawHit>, s: nat, e: nat)
    requires Amplitudes(h)
    ensures DoublePeak(h, s, e) <==>
              && s < e <= |h| && RunStarts(h, s) && IsRun(h, s, e) && e - s > 7
              && exists i, j, k :: DropAndRise(h, s, e, i, j, k)
  {
    if DoublePeak(h, s, e) {
      var d, u, m :| Verdict(h, s, e, 3, d, u, m);
      var i := TwoPeaksSeen(h, s, e, d, u, m);
      assert DropAndRise(h, s, e, i, m, u);
    } else if s < e <= |h| && exists i, j, k :: DropAndRise(h, s, e, i, j, k) {
      var i, j, k :| DropAndRise(h, s, e, i, j, k);
      var d, u, m := TwoPeaksFound(h, s, e, i, j, k);
    }
  }
}
