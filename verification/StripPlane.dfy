/** The state of one digitized strip plane as a value, and what its three operations do to
    it. The class in DigitizedPlane keeps the same state in arrays. */
module StripPlane {
  import opened Numeric

  // ---- hits ----------------------------------------------------------------------

  /** The signal of a hit on one strip. */
  datatype Signal = Signal(idx: int, charge: real, adc: seq<int>)

  /** A hit as `Cumulate` sees it; `total` is the hit's own running sum of its samples. */
  datatype HitValue = HitValue(time: real, total: int, signals: seq<Signal>)

  function SumTo(s: seq<int>, n: nat): int
    requires n <= |s|
  {
    if n == 0 then 0 else SumTo(s, n - 1) + s[n - 1]
  }

  function Total(s: seq<int>): int { SumTo(s, |s|) }

  ghost predicate NonNegative(s: seq<int>)
  {
    forall k :: 0 <= k < |s| ==> s[k] >= 0
  }

  /** What the assertions in `Cumulate` ask of a hit. */
  ghost predicate Fits(hit: HitValue, nStrips: nat, nSamples: nat)
  {
    forall j :: 0 <= j < |hit.signals| ==> FitsOne(hit.signals[j], nStrips, nSamples)
  }

  ghost predicate FitsOne(g: Signal, nStrips: nat, nSamples: nat)
  {
    0 <= g.idx < nStrips && |g.adc| == nSamples && NonNegative(g.adc)
  }

  // ---- strips --------------------------------------------------------------------

  /** A bit pattern as the set of the bits that are set in it. */
  type Bits = set<nat>

  const INDUCED_STRIP: nat := 2
  const NO_TIME := 9999.0

  datatype Strip = Strip(kind: Bits, charge: real, time: real, tot: int, adc: seq<int>,
                         clusters: seq<int>, weights: seq<Double>, clusterADC: seq<seq<int>>)

  function EmptyStrip(nSamples: nat): Strip
  {
    Strip({}, 0.0, NO_TIME, 0, Repeat(0, nSamples), [], [], Repeat([], nSamples))
  }

  function Repeat<T>(x: T, n: nat): (s: seq<T>)
    ensures |s| == n && forall i :: 0 <= i < n ==> s[i] == x
  {
    seq(n, _ => x)
  }

  function Earlier(a: real, b: real): real { if a < b then a else b }

  function AddTo(adc: seq<int>, samples: seq<int>): (r: seq<int>)
    requires |adc| == |samples|
    ensures |r| == |adc|
    ensures forall k :: 0 <= k < |r| ==> r[k] == adc[k] + samples[k]
  {
    seq(|adc|, k requires 0 <= k < |adc| => adc[k] + samples[k])
  }

  function Record(lists: seq<seq<int>>, samples: seq<int>): (r: seq<seq<int>>)
    requires |lists| == |samples|
    ensures |r| == |lists|
    ensures forall k :: 0 <= k < |r| ==> r[k] == lists[k] + [samples[k]]
  {
    seq(|lists|, k requires 0 <= k < |lists| => lists[k] + [samples[k]])
  }

  /** A cluster's own signal: everything about the cluster is recorded on the strip. */
  function Direct(s: Strip, g: Signal, time: real, total: int, kind: Bits, id: int): Strip
    requires |s.adc| == |g.adc| == |s.clusterADC|
  {
    Strip(s.kind + kind, s.charge + g.charge, Earlier(s.time, time), s.tot + Total(g.adc), AddTo(s.adc, g.adc),
          s.clusters + [id], s.weights + [Quotient(Total(g.adc) as real, total as real)], Record(s.clusterADC, g.adc))
  }

  function InduceSample(sample: int, factor: real): int
  {
    Trunc(sample as real * factor)
  }

  /** The samples of an induced signal: each truncated on its own. */
  function Induce(adc: seq<int>, factor: real): (r: seq<int>)
    ensures |r| == |adc|
    ensures forall k :: 0 <= k < |r| ==> r[k] == InduceSample(adc[k], factor)
  {
    seq(|adc|, k requires 0 <= k < |adc| => InduceSample(adc[k], factor))
  }

  function Share(factor: real, charge: real): real { factor * charge }

  /** An induced signal: amplitudes only, and the time is replaced, not minimised. */
  function Induced(s: Strip, g: Signal, factor: real, time: real): Strip
    requires |s.adc| == |g.adc|
  {
    s.(kind := s.kind + {INDUCED_STRIP}, charge := s.charge + Share(factor, g.charge), time := time,
       tot := s.tot + Total(Induce(g.adc, factor)), adc := AddTo(s.adc, Induce(g.adc, factor)))
  }

  // ---- planes --------------------------------------------------------------------

  /** `over` is the list of strips over threshold, in the order they were noticed. */
  datatype Plane = Plane(nSamples: nat, threshold: int, strips: seq<Strip>, over: seq<int>)

  datatype CrossTalk = Off | On(step: int, factor: real)

  ghost predicate Shaped(p: Plane)
  {
    AllShaped(p.strips, p.nSamples)
  }

  ghost predicate AllShaped(strips: seq<Strip>, nSamples: nat)
  {
    forall i :: 0 <= i < |strips| ==> ShapedStrip(strips[i], nSamples)
  }

  /** One sample per time slot; the total is their sum; the records of the clusters on the
      strip are all equally long. */
  ghost predicate ShapedStrip(s: Strip, nSamples: nat)
  {
    && |s.adc| == nSamples && |s.clusterADC| == nSamples
    && s.tot == Total(s.adc)
    && |s.weights| == |s.clusters|
    && forall k :: 0 <= k < nSamples ==> |s.clusterADC[k]| == |s.clusters|
  }

  /** Storing strip `i` again, and noticing when it has just come over threshold. */
  function Put(p: Plane, i: nat, s: Strip): Plane
    requires i < |p.strips|
  {
    var wasBelow := !(p.strips[i].tot > p.threshold);
    p.(strips := p.strips[i := s], over := if wasBelow && s.tot > p.threshold then p.over + [i] else p.over)
  }

  /** One signal of a hit, directly. */
  function DirectOne(p: Plane, g: Signal, hit: HitValue, kind: Bits, id: int): (q: Plane)
    requires Shaped(p) && FitsOne(g, |p.strips|, p.nSamples)
    ensures Shaped(q) && |q.strips| == |p.strips| && q.nSamples == p.nSamples && q.threshold == p.threshold
  {
    TotalOfSum(p.strips[g.idx].adc, g.adc);
    Put(p, g.idx, Direct(p.strips[g.idx], g, hit.time, hit.total, kind, id))
  }

  /** One signal of a hit, induced `step` strips away if that is on the plane. */
  function InducedOne(p: Plane, g: Signal, hit: HitValue, step: int, factor: real): (q: Plane)
    requires Shaped(p) && FitsOne(g, |p.strips|, p.nSamples)
    ensures Shaped(q) && |q.strips| == |p.strips| && q.nSamples == p.nSamples && q.threshold == p.threshold
  {
    var i := g.idx + step;
    if i < 0 || i >= |p.strips| then p
    else
      TotalOfSum(p.strips[i].adc, Induce(g.adc, factor));
      Put(p, i, Induced(p.strips[i], g, factor, Earlier(p.strips[g.idx].time, hit.time)))
  }

  function DirectAll(p: Plane, hit: HitValue, kind: Bits, id: int, n: nat): (q: Plane)
    requires Shaped(p) && Fits(hit, |p.strips|, p.nSamples) && n <= |hit.signals|
    ensures Shaped(q) && |q.strips| == |p.strips| && q.nSamples == p.nSamples && q.threshold == p.threshold
  {
    if n == 0 then p else DirectOne(DirectAll(p, hit, kind, id, n - 1), hit.signals[n - 1], hit, kind, id)
  }

  function InducedAll(p: Plane, hit: HitValue, step: int, factor: real, n: nat): (q: Plane)
    requires Shaped(p) && Fits(hit, |p.strips|, p.nSamples) && n <= |hit.signals|
    ensures Shaped(q) && |q.strips| == |p.strips| && q.nSamples == p.nSamples && q.threshold == p.threshold
  {
    if n == 0 then p else InducedOne(InducedAll(p, hit, step, factor, n - 1), hit.signals[n - 1], hit, step, factor)
  }

  /** A whole hit: all its direct signals, then, if cross talk is on and the drawn factor is
      positive, all its induced ones. */
  function Cumulated(p: Plane, hit: HitValue, kind: Bits, id: int, xtalk: CrossTalk): (q: Plane)
    requires Shaped(p) && Fits(hit, |p.strips|, p.nSamples)
    ensures Shaped(q) && |q.strips| == |p.strips| && q.nSamples == p.nSamples && q.threshold == p.threshold
  {
    var q := DirectAll(p, hit, kind, id, |hit.signals|);
    if xtalk.On? && xtalk.factor > 0.0 then InducedAll(q, hit, xtalk.step, xtalk.factor, |hit.signals|) else q
  }

  /** Clearing leaves nothing but the dimensions and the threshold. */
  function Cleared(p: Plane): (q: Plane)
    ensures Shaped(q)
  {
    ZeroTotal(p.nSamples);
    NewPlane(|p.strips|, p.nSamples, p.threshold)
  }

  /** The strips over `thr` among the first `n`, in strip order. */
  function OverUpTo(strips: seq<Strip>, thr: int, n: nat): seq<int>
    requires n <= |strips|
  {
    if n == 0 then [] else OverUpTo(strips, thr, n - 1) + if strips[n - 1].tot > thr then [n - 1] else []
  }

  function Rethresholded(p: Plane, thr: int): Plane
  {
    p.(threshold := thr, over := OverUpTo(p.strips, thr, |p.strips|))
  }

  /** A plane as constructed. */
  function NewPlane(nStrips: nat, nSamples: nat, threshold: int): Plane
  {
    Plane(nSamples, threshold, Repeat(EmptyStrip(nSamples), nStrips), [])
  }

  // ---- sums ----------------------------------------------------------------------

  lemma {:induction false} SumToOfSum(a: seq<int>, b: seq<int>, n: nat)
    requires |a| == |b| && n <= |a|
    ensures SumTo(AddTo(a, b), n) == SumTo(a, n) + SumTo(b, n)
  {
    if n > 0 {
      SumToOfSum(a, b, n - 1);
    }
  }

  lemma TotalOfSum(a: seq<int>, b: seq<int>)
    requires |a| == |b|
    ensures Total(AddTo(a, b)) == Total(a) + Total(b)
  {
    SumToOfSum(a, b, |a|);
  }

  lemma {:induction false} SumToZero(s: seq<int>, n: nat)
    requires n <= |s| && forall k :: 0 <= k < n ==> s[k] == 0
    ensures SumTo(s, n) == 0
  {
    if n > 0 {
      SumToZero(s, n - 1);
    }
  }

  lemma ZeroTotal(n: nat)
    ensures Total(Repeat(0, n)) == 0
  {
    SumToZero(Repeat(0, n), n);
  }

  lemma {:induction false} SumToNonNegative(s: seq<int>, n: nat)
    requires n <= |s| && NonNegative(s)
    ensures SumTo(s, n) >= 0
  {
    if n > 0 {
      SumToNonNegative(s, n - 1);
    }
  }

  lemma InduceNonNegative(adc: seq<int>, factor: real)
    requires NonNegative(adc) && factor > 0.0
    ensures NonNegative(Induce(adc, factor))
  {
    forall k | 0 <= k < |adc|
      ensures Induce(adc, factor)[k] >= 0
    {
      ProductNonNegative(adc[k] as real, factor);
    }
  }

  lemma ProductNonNegative(a: real, b: real)
    requires a >= 0.0 && b > 0.0
    ensures a * b >= 0.0
  {
  }
}
