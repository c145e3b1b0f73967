/** The peak/valley cluster finder over the hit strips of one readout plane. */
module SolClusters {
  import opened RealAlgebra
  import opened Sums

  const MAX_CLUSTER_SIZE := 7
  const MAX_HITS := 5
  const FRAC_DOWN := 0.9
  const FRAC_UP := 1.1
  const BIG := 1000000000.0

  /** One entry of the strip-to-amplitude map, which is kept sorted by strip. */
  datatype RawHit = RawHit(strip: int, adc: real)

  datatype Cluster = Cluster(pos: real, size: int, charge: real, kind: int)

  ghost predicate Sorted(h: seq<RawHit>)
  {
    forall i, j :: 0 <= i < j < |h| ==> h[i].strip < h[j].strip
  }

  ghost predicate Amplitudes(h: seq<RawHit>)
  {
    forall i :: 0 <= i < |h| ==> 0.0 < h[i].adc < BIG
  }

  /** `[start, next)` is adjacent strips all along, and the next hit, if any, is not adjacent. */
  ghost predicate IsRun(h: seq<RawHit>, start: nat, next: nat)
  {
    && start < next <= |h|
    && (forall i :: start < i < next ==> h[i].strip - h[i - 1].strip == 1)
    && (next < |h| ==> h[next].strip - h[next - 1].strip != 1)
  }

  // ---- peak and valley -----------------------------------------------------------

  /** The largest amplitude of `[a, b)`, 0 when empty. */
  function Peak(h: seq<RawHit>, a: nat, b: nat): (p: real)
    requires a <= b <= |h|
    ensures forall i :: a <= i < b ==> h[i].adc <= p
    decreases b - a
  {
    if a == b then 0.0
    else if h[b - 1].adc > Peak(h, a, b - 1) then h[b - 1].adc else Peak(h, a, b - 1)
  }

  /** The smallest amplitude of `[a, b)`, `BIG` when empty. */
  function Valley(h: seq<RawHit>, a: nat, b: nat): (v: real)
    requires a <= b <= |h|
    ensures forall i :: a <= i < b ==> v <= h[i].adc
    decreases b - a
  {
    if a == b then BIG
    else if h[b - 1].adc < Valley(h, a, b - 1) then h[b - 1].adc else Valley(h, a, b - 1)
  }

  /** At `d` the amplitude has fallen below 90% of the peak since `start`. */
  ghost predicate Fall(h: seq<RawHit>, start: nat, d: nat)
    requires start <= d < |h|
  {
    h[d].adc < Peak(h, start, d) * FRAC_DOWN
  }

  /** At `u` the amplitude has risen above 110% of the valley since `d`. */
  ghost predicate Rise(h: seq<RawHit>, d: nat, u: nat)
    requires d <= u < |h|
  {
    h[u].adc > Valley(h, d, u) * FRAC_UP
  }

  ghost predicate NoFall(h: seq<RawHit>, start: nat, end: nat)
    requires start <= end <= |h|
  {
    forall i :: start <= i < end ==> !Fall(h, start, i)
  }

  ghost predicate NoRise(h: seq<RawHit>, d: nat, end: nat)
    requires d <= end <= |h|
  {
    forall i :: d <= i < end ==> !Rise(h, d, i)
  }

  /** `m` is the first lowest point of `[d, u)`. */
  ghost predicate Bottom(h: seq<RawHit>, d: nat, u: nat, m: nat)
    requires d <= u <= |h|
  {
    && d <= m < u && h[m].adc == Valley(h, d, u)
    && forall i :: d <= i < m ==> h[i].adc > h[m].adc
  }

  /** The verdict on a run: 1 when nothing falls away from the peak, 2 when something does at
      `d` but nothing rises after it, 3 when the first rise after `d` is at `u`; then `m` is
      the bottom between them, where the run is split. */
  ghost predicate Verdict(h: seq<RawHit>, start: nat, next: nat, kind: int, d: nat, u: nat, m: nat)
    requires start < next <= |h|
  {
    match kind
    case 1 => NoFall(h, start, next)
    case 2 => start < d < next && NoFall(h, start, d) && Fall(h, start, d) && NoRise(h, d, next)
    case 3 => && start < d <= m < u < next && NoFall(h, start, d) && Fall(h, start, d)
              && NoRise(h, d, u) && Rise(h, d, u) && Bottom(h, d, u, m)
    case _ => false
  }

  datatype Phase = FindMax | FindMin | Done

  /** What the scan has established when it stands before strip `it`. */
  ghost predicate Scanned(h: seq<RawHit>, start: nat, next: nat, it: nat, step: Phase,
                          maxadc: real, minadc: real, maxpos: nat, minpos: nat, d: nat, u: nat)
    requires start <= it <= next <= |h|
  {
    match step
    case FindMax =>
      && NoFall(h, start, it) && maxadc == Peak(h, start, it) && minadc == BIG
      && if it == start then maxadc == 0.0 else maxpos < it && maxadc > 0.0
    case FindMin =>
      && start < d <= it && d < next && maxpos < d
      && NoFall(h, start, d) && Fall(h, start, d) && NoRise(h, d, it)
      && minadc == Valley(h, d, it) && minadc > 0.0
      && if d == it then minadc == BIG else Bottom(h, d, it, minpos)
    case Done =>
      start < next && Verdict(h, start, next, 3, d, u, minpos) && maxpos < d
  }

  lemma MaxStep(h: seq<RawHit>, start: nat, next: nat, it: nat, maxpos: nat, minpos: nat, d: nat, u: nat)
    requires start <= it < next <= |h| && Amplitudes(h)
    requires Scanned(h, start, next, it, FindMax, Peak(h, start, it), BIG, maxpos, minpos, d, u)
    ensures h[it].adc > Peak(h, start, it) ==>
              Scanned(h, start, next, it + 1, FindMax, h[it].adc, BIG, it, minpos, d, u)
    ensures h[it].adc < Peak(h, start, it) * FRAC_DOWN ==>
              Scanned(h, start, next, it, FindMin, Peak(h, start, it), BIG, maxpos, minpos, it, u)
    ensures !(h[it].adc > Peak(h, start, it)) && !(h[it].adc < Peak(h, start, it) * FRAC_DOWN) ==>
              Scanned(h, start, next, it + 1, FindMax, Peak(h, start, it), BIG, maxpos, minpos, d, u)
  {
  }

  lemma MinStep(h: seq<RawHit>, start: nat, next: nat, it: nat, maxadc: real, maxpos: nat, minpos: nat, d: nat, u: nat)
    requires start <= d <= it < next <= |h| && Amplitudes(h)
    requires Scanned(h, start, next, it, FindMin, maxadc, Valley(h, d, it), maxpos, minpos, d, u)
    ensures var v := Valley(h, d, it);
            && (h[it].adc < v ==> Scanned(h, start, next, it + 1, FindMin, maxadc, h[it].adc, maxpos, it, d, u))
            && (h[it].adc > v * FRAC_UP ==> d < it && Scanned(h, start, next, it + 1, Done, maxadc, v, maxpos, minpos, d, it))
            && (!(h[it].adc < v) && !(h[it].adc > v * FRAC_UP) ==>
                  Scanned(h, start, next, it + 1, FindMin, maxadc, v, maxpos, minpos, d, u))
  {
    assert forall i :: d <= i < it ==> Valley(h, d, it) <= h[i].adc;
  }

  /** The three-state scan of a large run. The step from peak to valley looks at the same
      strip again. The assertions are the scan's own. */
  method Scan(h: seq<RawHit>, start: nat, next: nat) returns (kind: int, minpos: nat, ghost d: nat, ghost u: nat)
    requires start < next <= |h| && Amplitudes(h)
    ensures Verdict(h, start, next, kind, d, u, minpos)
    ensures 1 <= kind <= 3 && (kind == 3 ==> start < minpos < next - 1)
    ensures kind == 1 <==> NoFall(h, start, next)
  {
    var maxadc, minadc := 0.0, BIG;
    var it, maxpos := start, start;
    minpos := start;
    var step := FindMax;
    d, u := start, start;
    while step != Done && it != next
      invariant start <= it <= next
      invariant Scanned(h, start, next, it, step, maxadc, minadc, maxpos, minpos, d, u)
      decreases next - it, if step == FindMax then 1 else 0
    {
      var adc := h[it].adc;
      match step
      case FindMax =>
        MaxStep(h, start, next, it, maxpos, minpos, d, u);
        if adc > maxadc {
          maxpos, maxadc := it, adc;
        } else if adc < maxadc * FRAC_DOWN {
          assert maxadc > 0.0;
          step, d := FindMin, it;
          continue;
        }
        it := it + 1;
      case FindMin =>
        MinStep(h, start, next, it, maxadc, maxpos, minpos, d, u);
        if adc < minadc {
          minpos, minadc := it, adc;
        } else if adc > minadc * FRAC_UP {
          assert minadc < BIG;
          step, u := Done, it;
        }
        it := it + 1;
    }
    if step == Done {
      assert minpos != start && minpos != next - 1 && minpos > maxpos;
    }
    kind := match step case FindMax => 1 case FindMin => 2 case Done => 3;
  }

  // ---- cutting the plane into clusters -------------------------------------------

  function Adc(h: RawHit): real { h.adc }

  function Position(stripstart: real, pitch: real, strip: int): real
  {
    stripstart + strip as real * pitch
  }

  function PosMoment(stripstart: real, pitch: real): RawHit -> real
  {
    (h: RawHit) => Product(Position(stripstart, pitch, h.strip), h.adc)
  }

  lemma MomentIs(stripstart: real, pitch: real, h: RawHit, pos: real)
    requires pos == Position(stripstart, pitch, h.strip)
    ensures PosMoment(stripstart, pitch)(h) == Product(pos, h.adc) && Adc(h) == h.adc
  {
  }

  function Halved(h: seq<RawHit>, m: nat): (r: seq<RawHit>)
    requires m < |h|
    ensures |r| == |h|
    ensures forall k :: 0 <= k < |h| ==> r[k] == if k == m then RawHit(h[k].strip, h[k].adc / 2.0) else h[k]
  {
    h[m := RawHit(h[m].strip, h[m].adc / 2.0)]
  }

  lemma HalvedKeeps(h: seq<RawHit>, start: nat, m: nat)
    requires start <= m < |h| && Amplitudes(h)
    ensures Amplitudes(Halved(h, m)) && Halved(h, m)[start..m] == h[start..m]
  {
  }

  /** `c` is the cluster cut at `start`: up to `next`, which is the end of the run or, for a
      split run, the shared strip. That strip counts for the size but not for the charge. */
  ghost predicate Cut(h: seq<RawHit>, start: nat, next: nat, c: Cluster, stripstart: real, pitch: real)
  {
    exists end, d, u :: CutWithin(h, start, next, c, stripstart, pitch, end, d, u)
  }

  ghost predicate CutWithin(h: seq<RawHit>, start: nat, next: nat, c: Cluster, stripstart: real, pitch: real,
                            end: nat, d: nat, u: nat)
  {
    && start < next <= end <= |h| && IsRun(h, start, end)
    && (if end - start <= MAX_CLUSTER_SIZE then c.kind == 0 && next == end
        else Verdict(h, start, end, c.kind, d, u, next) && (c.kind != 3 ==> next == end))
    && c.size == next - start + (if c.kind == 3 then 1 else 0)
    && c.charge == Sum(h[start..next], Adc) && c.charge > 0.0
    && c.pos == Sum(h[start..next], PosMoment(stripstart, pitch)) / c.charge
  }

  /** The amplitudes as they were when the cluster at `b` was cut: strips up to `b` already as
      they will stay, the later ones still as they came. */
  function At(h0: seq<RawHit>, h: seq<RawHit>, b: nat): seq<RawHit>
    requires |h0| == |h| && b < |h|
  {
    h[..b + 1] + h0[b + 1..]
  }

  ghost predicate CutAt(h0: seq<RawHit>, h: seq<RawHit>, bounds: seq<nat>, cs: seq<Cluster>, i: nat,
                        stripstart: real, pitch: real)
    requires |h0| == |h| && |bounds| == |cs| + 1 && i < |cs|
  {
    bounds[i] < |h| && Cut(At(h0, h, bounds[i]), bounds[i], bounds[i + 1], cs[i], stripstart, pitch)
  }

  /** `h0` has been cut at `bounds` into `cs`, leaving the amplitudes `h`. */
  ghost predicate Clustered(h0: seq<RawHit>, h: seq<RawHit>, bounds: seq<nat>, cs: seq<Cluster>,
                            stripstart: real, pitch: real)
  {
    && |h| == |h0| && |bounds| == |cs| + 1 && bounds[0] == 0
    && Increasing(bounds, |h0|)
    && AllCut(h0, h, bounds, cs, stripstart, pitch)
    && Shared(h0, h, bounds, cs)
  }

  ghost predicate Increasing(bounds: seq<nat>, n: nat)
  {
    forall i, j :: 0 <= i < j < |bounds| ==> bounds[i] < bounds[j] <= n
  }

  ghost predicate AllCut(h0: seq<RawHit>, h: seq<RawHit>, bounds: seq<nat>, cs: seq<Cluster>, stripstart: real, pitch: real)
    requires |h0| == |h| && |bounds| == |cs| + 1
  {
    forall i :: 0 <= i < |cs| ==> CutAt(h0, h, bounds, cs, i, stripstart, pitch)
  }

  /** The shared strips have lost half their amplitude, the others nothing. */
  ghost predicate Shared(h0: seq<RawHit>, h: seq<RawHit>, bounds: seq<nat>, cs: seq<Cluster>)
    requires |h0| == |h| && |bounds| == |cs| + 1
  {
    forall k :: 0 <= k < |h| ==> h[k] == if SplitAt(bounds, cs, k) then RawHit(h0[k].strip, h0[k].adc / 2.0) else h0[k]
  }

  /** Strip `k` is shared by two clusters. */
  ghost predicate SplitAt(bounds: seq<nat>, cs: seq<Cluster>, k: nat)
    requires |bounds| == |cs| + 1
  {
    exists i :: 0 <= i < |cs| && cs[i].kind == 3 && bounds[i + 1] == k
  }

  /** Cutting one more cluster off what is left. */
  lemma CutNext(h0: seq<RawHit>, h: seq<RawHit>, bounds: seq<nat>, cs: seq<Cluster>, stripstart: real, pitch: real,
                next: nat, c: Cluster, h': seq<RawHit>)
    requires Clustered(h0, h, bounds, cs, stripstart, pitch)
    requires bounds[|cs|] < |h0| && Cut(h, bounds[|cs|], next, c, stripstart, pitch)
    requires if c.kind == 3 then next < |h| && h' == Halved(h, next) else h' == h
    ensures Clustered(h0, h', bounds + [next], cs + [c], stripstart, pitch)
  {
    assert bounds[|cs|] < next <= |h|;
    SharedNext(h0, h, bounds, cs, next, c, h');
    AllCutNext(h0, h, bounds, cs, stripstart, pitch, next, c, h');
  }

  lemma SharedNext(h0: seq<RawHit>, h: seq<RawHit>, bounds: seq<nat>, cs: seq<Cluster>, next: nat, c: Cluster, h': seq<RawHit>)
    requires |h| == |h0| && |bounds| == |cs| + 1 && Increasing(bounds, |h0|) && Shared(h0, h, bounds, cs)
    requires bounds[|cs|] < next <= |h|
    requires if c.kind == 3 then next < |h| && h' == Halved(h, next) else h' == h
    ensures Shared(h0, h', bounds + [next], cs + [c])
    ensures h[bounds[|cs|] + 1..] == h0[bounds[|cs|] + 1..]
  {
    forall k | 0 <= k < |h|
      ensures h'[k] == if SplitAt(bounds + [next], cs + [c], k) then RawHit(h0[k].strip, h0[k].adc / 2.0) else h0[k]
      ensures k > bounds[|cs|] ==> h[k] == h0[k]
    {
      SplitAtNext(bounds, cs, next, c, k);
    }
  }

  lemma AllCutNext(h0: seq<RawHit>, h: seq<RawHit>, bounds: seq<nat>, cs: seq<Cluster>, stripstart: real, pitch: real,
                   next: nat, c: Cluster, h': seq<RawHit>)
    requires |h| == |h0| && |bounds| == |cs| + 1 && Increasing(bounds, |h0|) && AllCut(h0, h, bounds, cs, stripstart, pitch)
    requires bounds[|cs|] < next <= |h| && Cut(h, bounds[|cs|], next, c, stripstart, pitch)
    requires h[bounds[|cs|] + 1..] == h0[bounds[|cs|] + 1..]
    requires if c.kind == 3 then next < |h| && h' == Halved(h, next) else h' == h
    ensures AllCut(h0, h', bounds + [next], cs + [c], stripstart, pitch)
  {
    var start := bounds[|cs|];
    var bounds', cs' := bounds + [next], cs + [c];
    forall i | 0 <= i < |cs'|
      ensures CutAt(h0, h', bounds', cs', i, stripstart, pitch)
    {
      if i < |cs| {
        assert CutAt(h0, h, bounds, cs, i, stripstart, pitch) && bounds[i] < start;
        AtKept(h0, h, h', bounds[i], next);
      } else {
        AtLast(h0, h, h', start, next);
      }
    }
  }

  lemma AtLast(h0: seq<RawHit>, h: seq<RawHit>, h': seq<RawHit>, start: nat, next: nat)
    requires |h0| == |h| && start < next <= |h| && (h' == h || (next < |h| && h' == Halved(h, next)))
    requires h[start + 1..] == h0[start + 1..]
    ensures At(h0, h', start) == h
  {
    AtKept(h0, h, h', start, next);
    assert At(h0, h, start) == h[..start + 1] + h[start + 1..] == h;
  }

  lemma AtKept(h0: seq<RawHit>, h: seq<RawHit>, h': seq<RawHit>, b: nat, next: nat)
    requires |h0| == |h| && b < next <= |h| && (h' == h || (next < |h| && h' == Halved(h, next)))
    ensures At(h0, h', b) == At(h0, h, b)
  {
  }

  lemma SplitAtNext(bounds: seq<nat>, cs: seq<Cluster>, next: nat, c: Cluster, k: nat)
    requires |bounds| == |cs| + 1
    requires forall i, j :: 0 <= i < j < |bounds| ==> bounds[i] < bounds[j]
    ensures SplitAt(bounds + [next], cs + [c], k) <==> SplitAt(bounds, cs, k) || (c.kind == 3 && k == next)
    ensures SplitAt(bounds, cs, k) ==> k <= bounds[|cs|]
  {
    var bounds', cs' := bounds + [next], cs + [c];
    if SplitAt(bounds, cs, k) {
      var i :| 0 <= i < |cs| && cs[i].kind == 3 && bounds[i + 1] == k;
      assert cs'[i].kind == 3 && bounds'[i + 1] == k;
    }
    if c.kind == 3 && k == next {
      assert cs'[|cs|].kind == 3 && bounds'[|cs| + 1] == k;
    }
    if SplitAt(bounds', cs', k) {
      var i :| 0 <= i < |cs'| && cs'[i].kind == 3 && bounds'[i + 1] == k;
      if i < |cs| {
        assert cs[i].kind == 3 && bounds[i + 1] == k;
      }
    }
  }

  class SolClusters {
    var fRawHits: seq<RawHit>
    var fClusters: seq<Cluster>

    constructor ()
      ensures fRawHits == [] && fClusters == []
    {
      fRawHits, fClusters := [], [];
    }

    /** The end of the run that starts at `start`. */
    method RunEnd(start: nat) returns (next: nat)
      requires start < |fRawHits|
      ensures IsRun(fRawHits, start, next)
    {
      next := start + 1;
      while next < |fRawHits| && fRawHits[next].strip - fRawHits[next - 1].strip == 1
        invariant start < next <= |fRawHits|
        invariant forall i :: start < i < next ==> fRawHits[i].strip - fRawHits[i - 1].strip == 1
      {
        next := next + 1;
      }
    }

    /** The sums over the strips of a cluster. */
    method Accumulate(start: nat, next: nat, stripstart: real, pitch: real) returns (xsum: real, adcsum: real)
      requires start < next <= |fRawHits| && Amplitudes(fRawHits)
      ensures xsum == Sum(fRawHits[start..next], PosMoment(stripstart, pitch))
      ensures adcsum == Sum(fRawHits[start..next], Adc) && adcsum > 0.0
    {
      xsum, adcsum := 0.0, 0.0;
      for i := start to next
        invariant xsum == Sum(fRawHits[start..i], PosMoment(stripstart, pitch))
        invariant adcsum == Sum(fRawHits[start..i], Adc)
      {
        var pos := Position(stripstart, pitch, fRawHits[i].strip);
        MomentIs(stripstart, pitch, fRawHits[i], pos);
        assert fRawHits[start..i + 1] == fRawHits[start..i] + [fRawHits[i]];
        SumSnoc(fRawHits[start..i], fRawHits[i], Adc);
        SumSnoc(fRawHits[start..i], fRawHits[i], PosMoment(stripstart, pitch));
        xsum := xsum + Product(pos, fRawHits[i].adc);
        adcsum := adcsum + fRawHits[i].adc;
      }
      SumPositive(fRawHits[start..next], Adc);
    }

    /** One cluster: the run from `start`, split at the valley when it is large and has one.
        The shared strip keeps half its amplitude, which is all the next cluster gets. */
    method MakeCluster(start: nat, stripstart: real, pitch: real) returns (next: nat, c: Cluster)
      requires start < |fRawHits| && Amplitudes(fRawHits)
      modifies this`fRawHits
      ensures Cut(old(fRawHits), start, next, c, stripstart, pitch)
      ensures if c.kind == 3 then next < |fRawHits| && fRawHits == Halved(old(fRawHits), next) else fRawHits == old(fRawHits)
    {
      next := RunEnd(start);
      ghost var end, d, u := next, start, start;
      var kind, size := 0, next - start;
      if size > MAX_CLUSTER_SIZE {
        var minpos;
        kind, minpos, d, u := Scan(fRawHits, start, next);
        if kind == 3 {
          next := minpos;
          size := minpos - start + 1;
          HalvedKeeps(fRawHits, start, minpos);
          fRawHits := Halved(fRawHits, minpos);
        }
      }
      var xsum, adcsum := Accumulate(start, next, stripstart, pitch);
      c := Cluster(xsum / adcsum, size, adcsum, kind);
      assert CutWithin(old(fRawHits), start, next, c, stripstart, pitch, end, d, u);
    }

    /** One pass of the loop: a cluster is cut off what is left. */
    method CutOff(start: nat, stripstart: real, pitch: real, ghost h0: seq<RawHit>, ghost bounds0: seq<nat>,
                  ghost cs0: seq<Cluster>, ghost before: seq<Cluster>)
      returns (next: nat, ghost bounds: seq<nat>, ghost cs: seq<Cluster>)
      requires Amplitudes(fRawHits) && start < |fRawHits| && fClusters == before + cs0
      requires Clustered(h0, fRawHits, bounds0, cs0, stripstart, pitch) && bounds0[|cs0|] == start
      modifies this
      ensures |fRawHits| == |h0| && start < next <= |h0| && Amplitudes(fRawHits)
      ensures |cs| == |cs0| + 1 && fClusters == before + cs
      ensures Clustered(h0, fRawHits, bounds, cs, stripstart, pitch) && bounds[|cs|] == next
    {
      ghost var h := fRawHits;
      var c;
      next, c := MakeCluster(start, stripstart, pitch);
      CutNext(h0, h, bounds0, cs0, stripstart, pitch, next, c, fRawHits);
      bounds, cs := bounds0 + [next], cs0 + [c];
      fClusters := fClusters + [c];
    }

    method MakeClusters(stripstart: real, pitch: real) returns (nHits: int, ghost bounds: seq<nat>, ghost cs: seq<Cluster>)
      requires Sorted(fRawHits) && Amplitudes(fRawHits)
      modifies this
      ensures Clustered(old(fRawHits), fRawHits, bounds, cs, stripstart, pitch) && bounds[|cs|] == |fRawHits|
      ensures fClusters == old(fClusters) + cs
      ensures nHits == if |cs| > 5 then -|cs| else |cs|
    {
      ghost var h0 := fRawHits;
      bounds, cs, nHits := [0], [], 0;
      var next := 0;
      while next < |fRawHits|
        invariant |fRawHits| == |h0| && next <= |h0| && Amplitudes(fRawHits)
        invariant Clustered(h0, fRawHits, bounds, cs, stripstart, pitch) && bounds[|cs|] == next
        invariant fClusters == old(fClusters) + cs && nHits == |cs|
      {
        next, bounds, cs := CutOff(next, stripstart, pitch, h0, bounds, cs, old(fClusters));
        nHits := nHits + 1;
      }
      if nHits > MAX_HITS {
        nHits := -nHits;
      }
    }
  }
}
