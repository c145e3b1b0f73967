/** What a completed cluster search guarantees: charge, sizes, positions, uniqueness. */
module SolClusterResults {
  import opened RealAlgebra
  import opened Sums
  import opened SolClusters

  /** Everything on the plane has been cut. */
  ghost predicate Complete(h0: seq<RawHit>, h: seq<RawHit>, bounds: seq<nat>, cs: seq<Cluster>,
                           stripstart: real, pitch: real)
  {
    && Sorted(h0) && Amplitudes(h0)
    && Clustered(h0, h, bounds, cs, stripstart, pitch)
    && bounds[|cs|] == |h0|
  }

  // ---- the spans -----------------------------------------------------------------

  lemma BoundsSeparate(h0: seq<RawHit>, h: seq<RawHit>, bounds: seq<nat>, cs: seq<Cluster>,
                       stripstart: real, pitch: real, i: nat, k: nat)
    requires Complete(h0, h, bounds, cs, stripstart, pitch)
    requires i < |cs| && bounds[i] <= k < bounds[i + 1]
    ensures SplitAt(bounds, cs, k) <==> k == bounds[i] && i > 0 && cs[i - 1].kind == 3
  {
    if SplitAt(bounds, cs, k) {
      var j :| 0 <= j < |cs| && cs[j].kind == 3 && bounds[j + 1] == k;
      assert j + 1 == i;
    }
    if k == bounds[i] && i > 0 && cs[i - 1].kind == 3 {
      assert bounds[i - 1 + 1] == k;
    }
  }

  /** What cluster `i` was computed from is the final amplitudes of its span. */
  lemma SpanIsFinal(h0: seq<RawHit>, h: seq<RawHit>, bounds: seq<nat>, cs: seq<Cluster>,
                    stripstart: real, pitch: real, i: nat)
    requires Complete(h0, h, bounds, cs, stripstart, pitch) && i < |cs|
    ensures var a, b := bounds[i], bounds[i + 1];
            && a < b <= |h|
            && cs[i].charge == Sum(h[a..b], Adc) > 0.0
            && cs[i].pos == Sum(h[a..b], PosMoment(stripstart, pitch)) / cs[i].charge
            && cs[i].size == b - a + (if cs[i].kind == 3 then 1 else 0)
            && (cs[i].kind == 3 ==> b < |h|)
  {
    var a, b := bounds[i], bounds[i + 1];
    assert CutAt(h0, h, bounds, cs, i, stripstart, pitch);
    var end, d, u :| CutWithin(At(h0, h, a), a, b, cs[i], stripstart, pitch, end, d, u);
    SpanAsCut(h0, h, bounds, cs, stripstart, pitch, i);
  }

  lemma SpanAsCut(h0: seq<RawHit>, h: seq<RawHit>, bounds: seq<nat>, cs: seq<Cluster>,
                  stripstart: real, pitch: real, i: nat)
    requires Complete(h0, h, bounds, cs, stripstart, pitch) && i < |cs|
    ensures var a, b := bounds[i], bounds[i + 1]; a < b <= |h| && At(h0, h, a)[a..b] == h[a..b]
  {
    var a, b := bounds[i], bounds[i + 1];
    assert a < b <= |h0|;
    forall k | a < k < b
      ensures h0[k] == h[k]
    {
      BoundsSeparate(h0, h, bounds, cs, stripstart, pitch, i, k);
    }
    LaterStrips(h0, h, a, b);
  }

  lemma LaterStrips(h0: seq<RawHit>, h: seq<RawHit>, a: nat, b: nat)
    requires |h0| == |h| && a < b <= |h| && forall k :: a < k < b ==> h0[k] == h[k]
    ensures At(h0, h, a)[a..b] == h[a..b]
  {
  }

  // ---- charge --------------------------------------------------------------------

  function Charge(c: Cluster): real { c.charge }

  lemma PrefixSum(h: seq<RawHit>, a: nat, b: nat)
    requires a <= b <= |h|
    ensures Sum(h[..b], Adc) == Sum(h[..a], Adc) + Sum(h[a..b], Adc)
  {
    assert h[..b] == h[..a] + h[a..b];
    SumConcat(h[..a], h[a..b], Adc);
  }

  lemma {:induction false} ChargeOfPrefix(h0: seq<RawHit>, h: seq<RawHit>, bounds: seq<nat>, cs: seq<Cluster>,
                                          stripstart: real, pitch: real, n: nat)
    requires Complete(h0, h, bounds, cs, stripstart, pitch) && n <= |cs|
    ensures bounds[n] <= |h| && Sum(cs[..n], Charge) == Sum(h[..bounds[n]], Adc)
  {
    if n > 0 {
      ChargeOfPrefix(h0, h, bounds, cs, stripstart, pitch, n - 1);
      SpanIsFinal(h0, h, bounds, cs, stripstart, pitch, n - 1);
      assert cs[..n] == cs[..n - 1] + [cs[n - 1]];
      SumSnoc(cs[..n - 1], cs[n - 1], Charge);
      PrefixSum(h, bounds[n - 1], bounds[n]);
    }
  }

  /** Half the original amplitude of every strip shared between clusters `0..n` and their successors. */
  function Lost(h0: seq<RawHit>, bounds: seq<nat>, cs: seq<Cluster>, n: nat): real
    requires |bounds| == |cs| + 1 && n <= |cs|
  {
    if n == 0 then 0.0
    else Lost(h0, bounds, cs, n - 1) +
         if cs[n - 1].kind == 3 && bounds[n] < |h0| then h0[bounds[n]].adc / 2.0 else 0.0
  }

  lemma SumOfSpan(h0: seq<RawHit>, h: seq<RawHit>, bounds: seq<nat>, cs: seq<Cluster>,
                  stripstart: real, pitch: real, i: nat)
    requires Complete(h0, h, bounds, cs, stripstart, pitch) && i < |cs|
    ensures var a, b := bounds[i], bounds[i + 1];
            a < b <= |h| && Sum(h[a..b], Adc) ==
            Sum(h0[a..b], Adc) - if i > 0 && cs[i - 1].kind == 3 then h0[a].adc / 2.0 else 0.0
  {
    var a, b := bounds[i], bounds[i + 1];
    assert a < b <= |h|;
    forall k | a <= k < b
      ensures h[k].adc == if k == a && i > 0 && cs[i - 1].kind == 3 then h0[k].adc / 2.0 else h0[k].adc
      ensures k > a ==> h[k] == h0[k]
    {
      BoundsSeparate(h0, h, bounds, cs, stripstart, pitch, i, k);
    }
    assert h[a..b] == [h[a]] + h[a + 1..b] && h0[a..b] == [h0[a]] + h0[a + 1..b];
    assert h[a + 1..b] == h0[a + 1..b];
    SumConcat([h[a]], h[a + 1..b], Adc);
    SumConcat([h0[a]], h0[a + 1..b], Adc);
    SumSnoc([], h[a], Adc);
    SumSnoc([], h0[a], Adc);
    assert [] + [h[a]] == [h[a]] && [] + [h0[a]] == [h0[a]];
  }

  lemma {:induction false} LossOfPrefix(h0: seq<RawHit>, h: seq<RawHit>, bounds: seq<nat>, cs: seq<Cluster>,
                                        stripstart: real, pitch: real, n: nat)
    requires Complete(h0, h, bounds, cs, stripstart, pitch) && n < |cs|
    ensures bounds[n + 1] <= |h| && Sum(h[..bounds[n + 1]], Adc) == Sum(h0[..bounds[n + 1]], Adc) - Lost(h0, bounds, cs, n)
  {
    var a, b := bounds[n], bounds[n + 1];
    SumOfSpan(h0, h, bounds, cs, stripstart, pitch, n);
    PrefixSum(h, a, b);
    PrefixSum(h0, a, b);
    if n > 0 {
      LossOfPrefix(h0, h, bounds, cs, stripstart, pitch, n - 1);
    }
  }

  /** Total cluster charge is the raw total less half of every shared strip: the left cluster
      of a split stops before the shared strip, so one of its two halves is counted nowhere. */
  lemma TotalCharge(h0: seq<RawHit>, h: seq<RawHit>, bounds: seq<nat>, cs: seq<Cluster>, stripstart: real, pitch: real)
    requires Complete(h0, h, bounds, cs, stripstart, pitch)
    ensures Sum(cs, Charge) == Sum(h, Adc) == Sum(h0, Adc) - Lost(h0, bounds, cs, |cs|)
  {
    ChargeOfPrefix(h0, h, bounds, cs, stripstart, pitch, |cs|);
    assert cs[..|cs|] == cs && h[..|h|] == h && h0[..|h0|] == h0;
    if |cs| > 0 {
      LossOfPrefix(h0, h, bounds, cs, stripstart, pitch, |cs| - 1);
    }
  }

  lemma {:induction false} LostSign(h0: seq<RawHit>, h: seq<RawHit>, bounds: seq<nat>, cs: seq<Cluster>,
                                    stripstart: real, pitch: real, n: nat)
    requires Complete(h0, h, bounds, cs, stripstart, pitch) && n <= |cs|
    ensures Lost(h0, bounds, cs, n) >= 0.0
    ensures Lost(h0, bounds, cs, n) == 0.0 <==> Unsplit(cs, n)
  {
    if n > 0 {
      LostSign(h0, h, bounds, cs, stripstart, pitch, n - 1);
      SpanIsFinal(h0, h, bounds, cs, stripstart, pitch, n - 1);
    }
  }

  lemma ChargeConservedUnlessSplit(h0: seq<RawHit>, h: seq<RawHit>, bounds: seq<nat>, cs: seq<Cluster>,
                                   stripstart: real, pitch: real)
    requires Complete(h0, h, bounds, cs, stripstart, pitch)
    ensures Sum(cs, Charge) == Sum(h0, Adc) <==> Unsplit(cs, |cs|)
  {
    TotalCharge(h0, h, bounds, cs, stripstart, pitch);
    LostSign(h0, h, bounds, cs, stripstart, pitch, |cs|);
  }

  // ---- which planes lose charge --------------------------------------------------

  /** None of the first `n` clusters was split off. */
  ghost predicate Unsplit(cs: seq<Cluster>, n: nat)
    requires n <= |cs|
  {
    forall i :: 0 <= i < n ==> cs[i].kind != 3
  }

  ghost predicate RunStarts(h: seq<RawHit>, s: nat)
    requires s <= |h|
  {
    s == 0 || s == |h| || h[s].strip - h[s - 1].strip != 1
  }

  /** `[s, e)` are adjacent strips with none adjacent on either side, more than one cluster
      should have, that fall below 90% of a peak and rise above 110% of the valley after it. */
  ghost predicate DoublePeak(h: seq<RawHit>, s: nat, e: nat)
  {
    && s < e <= |h| && RunStarts(h, s) && IsRun(h, s, e) && e - s > MAX_CLUSTER_SIZE
    && exists d, u, m :: Verdict(h, s, e, 3, d, u, m)
  }

  ghost predicate HasDoublePeak(h: seq<RawHit>)
  {
    exists s, e :: DoublePeak(h, s, e)
  }

  /** As long as nothing has been split, clusters are cut from the raw amplitudes. */
  lemma RawSoFar(h0: seq<RawHit>, h: seq<RawHit>, bounds: seq<nat>, cs: seq<Cluster>, stripstart: real, pitch: real, n: nat)
    requires Complete(h0, h, bounds, cs, stripstart, pitch) && n < |cs| && Unsplit(cs, n)
    ensures bounds[n] < bounds[n + 1] <= |h0| && At(h0, h, bounds[n]) == h0
    ensures Cut(h0, bounds[n], bounds[n + 1], cs[n], stripstart, pitch)
  {
    assert bounds[n] < bounds[n + 1] <= |h0|;
    forall k | 0 <= k <= bounds[n]
      ensures h[k] == h0[k]
    {
      NotSharedYet(h0, bounds, cs, n, k);
    }
    assert At(h0, h, bounds[n]) == h0;
    assert CutAt(h0, h, bounds, cs, n, stripstart, pitch);
  }

  lemma NotSharedYet(h0: seq<RawHit>, bounds: seq<nat>, cs: seq<Cluster>, n: nat, k: nat)
    requires |bounds| == |cs| + 1 && Increasing(bounds, |h0|) && n < |cs| && Unsplit(cs, n) && k <= bounds[n]
    ensures !SplitAt(bounds, cs, k)
  {
  }

  /** A cluster cut from the start of a raw run is that run, unless the run has a double peak. */
  lemma {:induction false} CutOfRun(h0: seq<RawHit>, s: nat, next: nat, c: Cluster, stripstart: real, pitch: real)
    requires s < |h0| && RunStarts(h0, s) && Cut(h0, s, next, c, stripstart, pitch)
    ensures c.kind == 3 ==> HasDoublePeak(h0)
    ensures c.kind != 3 ==> next <= |h0| && IsRun(h0, s, next) && RunStarts(h0, next) && !DoublePeak(h0, s, next)
  {
    var end: nat, d: nat, u: nat :| CutWithin(h0, s, next, c, stripstart, pitch, end, d, u);
    if c.kind == 3 {
      assert DoublePeak(h0, s, end);
    } else if DoublePeak(h0, s, next) {
      var d', u', m' :| Verdict(h0, s, next, 3, d', u', m');
      VerdictUnique(h0, s, next, c.kind, d, u, next, 3, d', u', m');
    }
  }

  /** While the first `n` clusters are unsplit, the next one starts a raw run, and no run before
      it has a double peak; and unless the plane has one, they are. */
  ghost predicate UnsplitTo(h0: seq<RawHit>, cs: seq<Cluster>, n: nat, b: nat)
    requires n <= |cs|
  {
    && (Unsplit(cs, n) || HasDoublePeak(h0))
    && (Unsplit(cs, n) ==> b <= |h0| && RunStarts(h0, b) && PeaksFrom(h0, b))
  }

  lemma {:induction false} UnsplitBounds(h0: seq<RawHit>, h: seq<RawHit>, bounds: seq<nat>, cs: seq<Cluster>,
                                         stripstart: real, pitch: real, n: nat)
    requires Complete(h0, h, bounds, cs, stripstart, pitch) && n <= |cs|
    ensures UnsplitTo(h0, cs, n, bounds[n])
  {
    if n > 0 {
      UnsplitBounds(h0, h, bounds, cs, stripstart, pitch, n - 1);
      UnsplitNext(h0, h, bounds, cs, stripstart, pitch, n - 1);
    }
  }

  lemma {:induction false} UnsplitNext(h0: seq<RawHit>, h: seq<RawHit>, bounds: seq<nat>, cs: seq<Cluster>,
                                       stripstart: real, pitch: real, n: nat)
    requires Complete(h0, h, bounds, cs, stripstart, pitch) && n < |cs| && UnsplitTo(h0, cs, n, bounds[n])
    ensures UnsplitTo(h0, cs, n + 1, bounds[n + 1])
  {
    assert Unsplit(cs, n + 1) <==> Unsplit(cs, n) && cs[n].kind != 3;
    if Unsplit(cs, n) {
      RawSoFar(h0, h, bounds, cs, stripstart, pitch, n);
      UnsplitStep(h0, bounds[n], bounds[n + 1], cs[n], stripstart, pitch);
    }
  }

  /** All double peaks start at or after `b`. */
  ghost predicate PeaksFrom(h: seq<RawHit>, b: nat)
  {
    forall s: nat, e: nat :: DoublePeak(h, s, e) ==> s >= b
  }

  lemma {:induction false} UnsplitStep(h0: seq<RawHit>, s: nat, next: nat, c: Cluster, stripstart: real, pitch: real)
    requires s < |h0| && RunStarts(h0, s) && Cut(h0, s, next, c, stripstart, pitch) && PeaksFrom(h0, s)
    ensures c.kind == 3 ==> HasDoublePeak(h0)
    ensures c.kind != 3 ==> next <= |h0| && RunStarts(h0, next) && PeaksFrom(h0, next)
  {
    CutOfRun(h0, s, next, c, stripstart, pitch);
    if c.kind != 3 {
      forall s': nat, e: nat | DoublePeak(h0, s', e)
        ensures s' >= next
      {
        NoRunWithin(h0, s, next, s', e);
      }
    }
  }

  lemma NoRunWithin(h0: seq<RawHit>, a: nat, b: nat, s: nat, e: nat)
    requires IsRun(h0, a, b) && !DoublePeak(h0, a, b) && DoublePeak(h0, s, e) && s >= a
    ensures s >= b
  {
    if s == a {
      RunUnique(h0, a, b, e);
    }
  }

  /** Charge is conserved exactly when no run of the raw hits has a double peak. */
  lemma ChargeConservedIff(h0: seq<RawHit>, h: seq<RawHit>, bounds: seq<nat>, cs: seq<Cluster>, stripstart: real, pitch: real)
    requires Complete(h0, h, bounds, cs, stripstart, pitch)
    ensures Sum(cs, Charge) == Sum(h0, Adc) <==> !HasDoublePeak(h0)
  {
    ChargeConservedUnlessSplit(h0, h, bounds, cs, stripstart, pitch);
    UnsplitBounds(h0, h, bounds, cs, stripstart, pitch, |cs|);
  }

  /** Nine strips with a valley in the middle. */
  function Valleyed(): seq<RawHit>
  {
    [RawHit(0, 10.0), RawHit(1, 10.0), RawHit(2, 10.0), RawHit(3, 10.0), RawHit(4, 1.0),
     RawHit(5, 10.0), RawHit(6, 10.0), RawHit(7, 10.0), RawHit(8, 10.0)]
  }

  lemma ValleyedHasDoublePeak()
    ensures Sorted(Valleyed()) && Amplitudes(Valleyed()) && HasDoublePeak(Valleyed())
  {
    ValleyedIsRun();
    ValleyedVerdict();
    assert DoublePeak(Valleyed(), 0, 9);
  }

  lemma ValleyedIsRun()
    ensures Sorted(Valleyed()) && Amplitudes(Valleyed()) && IsRun(Valleyed(), 0, 9) && RunStarts(Valleyed(), 0)
  {
  }

  lemma ValleyedVerdict()
    ensures Verdict(Valleyed(), 0, 9, 3, 4, 5, 4)
  {
    var h := Valleyed();
    assert Peak(h, 0, 1) == 10.0 && Peak(h, 0, 2) == 10.0 && Peak(h, 0, 3) == 10.0 && Peak(h, 0, 4) == 10.0;
    assert Valley(h, 4, 4) == BIG && Valley(h, 4, 5) == 1.0;
  }

  /** They lose charge, whatever strip spacing they are clustered with. */
  lemma ValleyedLosesCharge(h: seq<RawHit>, bounds: seq<nat>, cs: seq<Cluster>, stripstart: real, pitch: real)
    requires Complete(Valleyed(), h, bounds, cs, stripstart, pitch)
    ensures Sum(cs, Charge) < Sum(Valleyed(), Adc)
  {
    ValleyedHasDoublePeak();
    ChargeConservedIff(Valleyed(), h, bounds, cs, stripstart, pitch);
    TotalCharge(Valleyed(), h, bounds, cs, stripstart, pitch);
    LostSign(Valleyed(), h, bounds, cs, stripstart, pitch, |cs|);
  }

  // ---- sizes ---------------------------------------------------------------------

  function Sizes(cs: seq<Cluster>, n: nat): int
    requires n <= |cs|
  {
    if n == 0 then 0 else Sizes(cs, n - 1) + cs[n - 1].size
  }

  function Splits(cs: seq<Cluster>, n: nat): nat
    requires n <= |cs|
  {
    if n == 0 then 0 else Splits(cs, n - 1) + if cs[n - 1].kind == 3 then 1 else 0
  }

  /** Every strip is counted in the size of one cluster, a shared strip in two. */
  lemma {:induction false} SizesAddUp(h0: seq<RawHit>, h: seq<RawHit>, bounds: seq<nat>, cs: seq<Cluster>,
                                      stripstart: real, pitch: real, n: nat)
    requires Complete(h0, h, bounds, cs, stripstart, pitch) && n <= |cs|
    ensures Sizes(cs, n) == bounds[n] + Splits(cs, n)
    ensures n == |cs| ==> Sizes(cs, n) == |h0| + Splits(cs, n)
  {
    if n > 0 {
      SizesAddUp(h0, h, bounds, cs, stripstart, pitch, n - 1);
      SpanIsFinal(h0, h, bounds, cs, stripstart, pitch, n - 1);
    }
  }

  // ---- positions -----------------------------------------------------------------

  lemma PositionOrder(stripstart: real, pitch: real, a: int, b: int)
    requires pitch > 0.0
    ensures Position(stripstart, pitch, a) <= Position(stripstart, pitch, b) <==> a <= b
  {
    ScaleOrder(pitch, a as real, b as real);
  }

  lemma MomentBetween(stripstart: real, pitch: real, r: RawHit, first: int, last: int)
    requires pitch > 0.0 && r.adc > 0.0 && first <= r.strip <= last
    ensures Scaled(Adc, Position(stripstart, pitch, first))(r) <= PosMoment(stripstart, pitch)(r)
            <= Scaled(Adc, Position(stripstart, pitch, last))(r)
  {
    PositionOrder(stripstart, pitch, first, r.strip);
    PositionOrder(stripstart, pitch, r.strip, last);
    TermBetween(r, Position(stripstart, pitch, first), Position(stripstart, pitch, r.strip), Position(stripstart, pitch, last));
  }

  lemma TermBetween(r: RawHit, lo: real, at: real, hi: real)
    requires r.adc > 0.0 && lo <= at <= hi
    ensures Scaled(Adc, lo)(r) <= Product(at, r.adc) <= Scaled(Adc, hi)(r)
  {
    assert Adc(r) == r.adc;
    ProductOrder(lo, at, r.adc);
    ProductOrder(at, hi, r.adc);
  }

  /** A centroid lies between the first and the last strip it was computed from. */
  lemma CentroidInSpan(h0: seq<RawHit>, h: seq<RawHit>, bounds: seq<nat>, cs: seq<Cluster>,
                       stripstart: real, pitch: real, i: nat)
    requires Complete(h0, h, bounds, cs, stripstart, pitch) && i < |cs| && pitch > 0.0
    ensures bounds[i] < bounds[i + 1] <= |h0|
    ensures Position(stripstart, pitch, h0[bounds[i]].strip) <= cs[i].pos
            <= Position(stripstart, pitch, h0[bounds[i + 1] - 1].strip)
  {
    var a, b := bounds[i], bounds[i + 1];
    SpanIsFinal(h0, h, bounds, cs, stripstart, pitch, i);
    var s, lo, hi := h[a..b], Position(stripstart, pitch, h0[a].strip), Position(stripstart, pitch, h0[b - 1].strip);
    forall k | 0 <= k < |s|
      ensures Scaled(Adc, lo)(s[k]) <= PosMoment(stripstart, pitch)(s[k]) <= Scaled(Adc, hi)(s[k])
    {
      assert s[k] == h[a + k] && s[k].strip == h0[a + k].strip && s[k].adc > 0.0;
      MomentBetween(stripstart, pitch, s[k], h0[a].strip, h0[b - 1].strip);
    }
    MeanInRange(s, PosMoment(stripstart, pitch), Adc, lo, hi);
  }

  /** Cluster positions are strictly increasing. */
  lemma PositionsIncrease(h0: seq<RawHit>, h: seq<RawHit>, bounds: seq<nat>, cs: seq<Cluster>,
                          stripstart: real, pitch: real, i: nat, j: nat)
    requires Complete(h0, h, bounds, cs, stripstart, pitch) && i < j < |cs| && pitch > 0.0
    ensures cs[i].pos < cs[j].pos
  {
    CentroidInSpan(h0, h, bounds, cs, stripstart, pitch, i);
    CentroidInSpan(h0, h, bounds, cs, stripstart, pitch, j);
    assert bounds[i + 1] <= bounds[j];
    PositionOrder(stripstart, pitch, h0[bounds[j]].strip, h0[bounds[i + 1] - 1].strip);
  }

  // ---- uniqueness ----------------------------------------------------------------

  lemma VerdictUnique(h: seq<RawHit>, start: nat, next: nat,
                      kind: int, d: nat, u: nat, m: nat, kind': int, d': nat, u': nat, m': nat)
    requires start < next <= |h|
    requires Verdict(h, start, next, kind, d, u, m) && Verdict(h, start, next, kind', d', u', m')
    ensures kind == kind' && (kind == 3 ==> m == m')
  {
    if kind >= 2 && kind' >= 2 {
      assert d == d';
      if kind == 3 && kind' == 3 {
        assert u == u';
      }
    }
  }

  lemma RunUnique(h: seq<RawHit>, start: nat, end: nat, end': nat)
    requires IsRun(h, start, end) && IsRun(h, start, end')
    ensures end == end'
  {
  }

  lemma {:induction false} CutUnique(h: seq<RawHit>, start: nat, next: nat, c: Cluster, next': nat, c': Cluster,
                                     stripstart: real, pitch: real)
    requires Cut(h, start, next, c, stripstart, pitch) && Cut(h, start, next', c', stripstart, pitch)
    ensures next == next' && c == c'
  {
    var end: nat, d: nat, u: nat :| CutWithin(h, start, next, c, stripstart, pitch, end, d, u);
    var end': nat, d': nat, u': nat :| CutWithin(h, start, next', c', stripstart, pitch, end', d', u');
    CutWithinUnique(h, start, next, c, next', c', stripstart, pitch, end, d, u, end', d', u');
  }

  lemma CutWithinUnique(h: seq<RawHit>, start: nat, next: nat, c: Cluster, next': nat, c': Cluster, stripstart: real, pitch: real,
                        end: nat, d: nat, u: nat, end': nat, d': nat, u': nat)
    requires CutWithin(h, start, next, c, stripstart, pitch, end, d, u)
    requires CutWithin(h, start, next', c', stripstart, pitch, end', d', u')
    ensures next == next' && c == c'
  {
    RunUnique(h, start, end, end');
    if end - start > MAX_CLUSTER_SIZE {
      VerdictUnique(h, start, end, c.kind, d, u, next, c'.kind, d', u', next');
    }
  }

  /** The raw hits determine the clusters: two complete cuttings agree cluster by cluster. */
  lemma {:induction false} CuttingUnique(h0: seq<RawHit>, h: seq<RawHit>, bounds: seq<nat>, cs: seq<Cluster>,
                                         h': seq<RawHit>, bounds': seq<nat>, cs': seq<Cluster>,
                                         stripstart: real, pitch: real, n: nat)
    requires Complete(h0, h, bounds, cs, stripstart, pitch) && Complete(h0, h', bounds', cs', stripstart, pitch)
    requires n <= |cs|
    ensures n <= |cs'| && cs[..n] == cs'[..n] && bounds[..n + 1] == bounds'[..n + 1]
    ensures n == |cs| ==> cs == cs' && bounds == bounds' && h == h'
  {
    if n > 0 {
      CuttingUnique(h0, h, bounds, cs, h', bounds', cs', stripstart, pitch, n - 1);
      assert bounds[n - 1] < bounds[n] <= |h0|;
      NextCutAgrees(h0, h, bounds, cs, h', bounds', cs', stripstart, pitch, n - 1);
    }
    if n == |cs| {
      assert bounds'[n] == bounds[..n + 1][n] == |h0|;
      assert |cs'| == n;
      assert cs[..n] == cs && cs'[..n] == cs' && bounds[..n + 1] == bounds && bounds'[..n + 1] == bounds';
    }
  }

  lemma NextCutAgrees(h0: seq<RawHit>, h: seq<RawHit>, bounds: seq<nat>, cs: seq<Cluster>,
                      h': seq<RawHit>, bounds': seq<nat>, cs': seq<Cluster>, stripstart: real, pitch: real, n: nat)
    requires Complete(h0, h, bounds, cs, stripstart, pitch) && Complete(h0, h', bounds', cs', stripstart, pitch)
    requires n < |cs| && n <= |cs'| && cs[..n] == cs'[..n] && bounds[..n + 1] == bounds'[..n + 1]
    ensures n < |cs'| && cs[..n + 1] == cs'[..n + 1] && bounds[..n + 2] == bounds'[..n + 2]
  {
    var b := bounds[n];
    assert b == bounds[..n + 1][n] == bounds'[..n + 1][n] == bounds'[n];
    assert b < bounds[n + 1] <= |h0|;
    forall k | 0 <= k <= b
      ensures h[k] == h'[k]
    {
      SplitAgrees(h0, h, bounds, cs, bounds', cs', stripstart, pitch, n, k);
      SplitAgrees(h0, h', bounds', cs', bounds, cs, stripstart, pitch, n, k);
    }
    CutsAgree(h0, h, bounds, cs, h', bounds', cs', stripstart, pitch, n);
    assert cs[..n + 1] == cs[..n] + [cs[n]] && cs'[..n + 1] == cs'[..n] + [cs'[n]];
    assert bounds[..n + 2] == bounds[..n + 1] + [bounds[n + 1]];
    assert bounds'[..n + 2] == bounds'[..n + 1] + [bounds'[n + 1]];
  }

  lemma CutsAgree(h0: seq<RawHit>, h: seq<RawHit>, bounds: seq<nat>, cs: seq<Cluster>,
                  h': seq<RawHit>, bounds': seq<nat>, cs': seq<Cluster>, stripstart: real, pitch: real, n: nat)
    requires Complete(h0, h, bounds, cs, stripstart, pitch) && Complete(h0, h', bounds', cs', stripstart, pitch)
    requires n < |cs| && n <= |cs'| && bounds[n] == bounds'[n] < |h0|
    requires forall k :: 0 <= k <= bounds[n] ==> h[k] == h'[k]
    ensures n < |cs'| && cs[n] == cs'[n] && bounds[n + 1] == bounds'[n + 1]
  {
    var b := bounds[n];
    assert At(h0, h, b) == At(h0, h', b);
    assert CutAt(h0, h, bounds, cs, n, stripstart, pitch) && CutAt(h0, h', bounds', cs', n, stripstart, pitch);
    CutUnique(At(h0, h, b), b, bounds[n + 1], cs[n], bounds'[n + 1], cs'[n], stripstart, pitch);
  }

  /** Up to the bound where the two cuttings last agreed they share the same strips. */
  lemma SplitAgrees(h0: seq<RawHit>, h: seq<RawHit>, bounds: seq<nat>, cs: seq<Cluster>,
                    bounds': seq<nat>, cs': seq<Cluster>, stripstart: real, pitch: real, n: nat, k: nat)
    requires Complete(h0, h, bounds, cs, stripstart, pitch)
    requires |bounds'| == |cs'| + 1 && n <= |cs| && n <= |cs'|
    requires cs[..n] == cs'[..n] && bounds[..n + 1] == bounds'[..n + 1] && k <= bounds[n]
    ensures SplitAt(bounds, cs, k) ==> SplitAt(bounds', cs', k)
  {
    if SplitAt(bounds, cs, k) {
      var i :| 0 <= i < |cs| && cs[i].kind == 3 && bounds[i + 1] == k;
      assert i + 1 <= n;
      assert cs[..n][i] == cs'[..n][i] && bounds[..n + 1][i + 1] == bounds'[..n + 1][i + 1];
      assert cs'[i].kind == 3 && bounds'[i + 1] == k;
    }
  }
}
