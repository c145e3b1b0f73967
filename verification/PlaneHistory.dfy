/** What holds of a strip plane after any run of its operations. */
module PlaneHistory {
  import opened StripPlane

  datatype Op = Clear | Cumulate(hit: HitValue, kind: Bits, id: int, xtalk: CrossTalk) | Threshold(thr: int)

  ghost predicate Legal(ops: seq<Op>, nStrips: nat, nSamples: nat)
  {
    forall i :: 0 <= i < |ops| && ops[i].Cumulate? ==> Fits(ops[i].hit, nStrips, nSamples)
  }

  function Step(p: Plane, op: Op): (q: Plane)
    requires Shaped(p) && (op.Cumulate? ==> Fits(op.hit, |p.strips|, p.nSamples))
    ensures Shaped(q) && |q.strips| == |p.strips| && q.nSamples == p.nSamples
  {
    match op
    case Clear => Cleared(p)
    case Cumulate(hit, kind, id, xtalk) => Cumulated(p, hit, kind, id, xtalk)
    case Threshold(thr) => Rethresholded(p, thr)
  }

  /** The plane after `ops`, from construction with threshold `thr0`. */
  function Run(nStrips: nat, nSamples: nat, thr0: int, ops: seq<Op>): (q: Plane)
    requires Legal(ops, nStrips, nSamples)
    ensures Shaped(q) && |q.strips| == nStrips && q.nSamples == nSamples
  {
    if ops == [] then Cleared(NewPlane(nStrips, nSamples, thr0))
    else
      var n := |ops| - 1;
      assert Legal(ops[..n], nStrips, nSamples);
      Step(Run(nStrips, nSamples, thr0, ops[..n]), ops[n])
  }

  // ---- the over-threshold index --------------------------------------------------

  ghost predicate Distinct(s: seq<int>)
  {
    forall i, j :: 0 <= i < j < |s| ==> s[i] != s[j]
  }

  /** The index lists only strips over threshold, none twice. */
  ghost predicate Sound(p: Plane)
  {
    && Distinct(p.over)
    && forall i :: i in p.over ==> 0 <= i < |p.strips| && p.strips[i].tot > p.threshold
  }

  /** ... and lists all of them. */
  ghost predicate Exact(p: Plane)
  {
    && Sound(p)
    && forall i :: 0 <= i < |p.strips| && p.strips[i].tot > p.threshold ==> i in p.over
  }

  /** A distinct list of legal strips that lacks one is shorter than the plane is wide. */
  lemma Pigeonhole(s: seq<int>, n: nat, missing: int)
    requires Distinct(s) && (forall i :: i in s ==> 0 <= i < n) && 0 <= missing < n && missing !in s
    ensures |s| < n
  {
    DistinctSize(s);
    assert Elements(s) <= Below(n) - {missing};
    SubsetSize(Elements(s), Below(n) - {missing});
  }

  function Below(n: nat): (s: set<int>)
    ensures |s| == n && forall i :: i in s <==> 0 <= i < n
  {
    if n == 0 then {} else Below(n - 1) + {n - 1}
  }

  function Elements(s: seq<int>): (r: set<int>)
    ensures forall i :: i in r <==> i in s
  {
    if s == [] then {} else Elements(s[..|s| - 1]) + {s[|s| - 1]}
  }

  lemma {:induction false} DistinctSize(s: seq<int>)
    requires Distinct(s)
    ensures |Elements(s)| == |s|
  {
    if s != [] {
      DistinctSize(s[..|s| - 1]);
    }
  }

  lemma SubsetSize(a: set<int>, b: set<int>)
    requires a <= b
    ensures |a| <= |b|
  {
    assert b == a + (b - a);
  }

  /** Storing a strip that has not lost amplitude keeps the index as good as it was, and an
      incomplete index stays incomplete. When the strip is new to the index, there is room. */
  lemma PutKeeps(p: Plane, i: nat, s: Strip)
    requires i < |p.strips| && s.tot >= p.strips[i].tot && Sound(p)
    ensures Sound(Put(p, i, s)) && (Exact(p) <==> Exact(Put(p, i, s)))
    ensures !(p.strips[i].tot > p.threshold) ==> |p.over| < |p.strips|
  {
    var q := Put(p, i, s);
    if !(p.strips[i].tot > p.threshold) {
      Pigeonhole(p.over, |p.strips|, i);
    }
    assert forall x :: x in q.over <==> x in p.over || (x == i && !(p.strips[i].tot > p.threshold) && s.tot > p.threshold);
    if !Exact(p) {
      var k :| 0 <= k < |p.strips| && p.strips[k].tot > p.threshold && k !in p.over;
      assert k !in q.over && q.strips[k].tot > q.threshold;
    }
  }

  lemma DirectOneKeepsIndex(p: Plane, g: Signal, hit: HitValue, kind: Bits, id: int)
    requires Shaped(p) && FitsOne(g, |p.strips|, p.nSamples) && Sound(p)
    ensures var q := DirectOne(p, g, hit, kind, id); Sound(q) && (Exact(p) <==> Exact(q))
    ensures !(p.strips[g.idx].tot > p.threshold) ==> |p.over| < |p.strips|
  {
    SumToNonNegative(g.adc, |g.adc|);
    PutKeeps(p, g.idx, Direct(p.strips[g.idx], g, hit.time, hit.total, kind, id));
  }

  lemma {:induction false} InducedOneKeepsIndex(p: Plane, g: Signal, hit: HitValue, step: int, factor: real)
    requires Shaped(p) && FitsOne(g, |p.strips|, p.nSamples) && Sound(p) && factor > 0.0
    ensures var q := InducedOne(p, g, hit, step, factor); Sound(q) && (Exact(p) <==> Exact(q))
    ensures var i := g.idx + step;
            0 <= i < |p.strips| && !(p.strips[i].tot > p.threshold) ==> |p.over| < |p.strips|
  {
    var i := g.idx + step;
    if 0 <= i < |p.strips| {
      InduceNonNegative(g.adc, factor);
      SumToNonNegative(Induce(g.adc, factor), |g.adc|);
      PutKeeps(p, i, Induced(p.strips[i], g, factor, Earlier(p.strips[g.idx].time, hit.time)));
    }
  }

  lemma {:induction false} DirectKeepsIndex(p: Plane, hit: HitValue, kind: Bits, id: int, n: nat)
    requires Shaped(p) && Fits(hit, |p.strips|, p.nSamples) && n <= |hit.signals| && Sound(p)
    ensures var q := DirectAll(p, hit, kind, id, n); Sound(q) && (Exact(p) <==> Exact(q))
  {
    if n > 0 {
      DirectKeepsIndex(p, hit, kind, id, n - 1);
      DirectOneKeepsIndex(DirectAll(p, hit, kind, id, n - 1), hit.signals[n - 1], hit, kind, id);
    }
  }

  lemma {:induction false} InducedKeepsIndex(p: Plane, hit: HitValue, step: int, factor: real, n: nat)
    requires Shaped(p) && Fits(hit, |p.strips|, p.nSamples) && n <= |hit.signals| && factor > 0.0 && Sound(p)
    ensures var q := InducedAll(p, hit, step, factor, n); Sound(q) && (Exact(p) <==> Exact(q))
  {
    if n > 0 {
      InducedKeepsIndex(p, hit, step, factor, n - 1);
      InducedOneKeepsIndex(InducedAll(p, hit, step, factor, n - 1), hit.signals[n - 1], hit, step, factor);
    }
  }

  lemma CumulatedKeepsIndex(p: Plane, hit: HitValue, kind: Bits, id: int, xtalk: CrossTalk)
    requires Shaped(p) && Fits(hit, |p.strips|, p.nSamples) && Sound(p)
    ensures var q := Cumulated(p, hit, kind, id, xtalk); Sound(q) && (Exact(p) <==> Exact(q))
  {
    DirectKeepsIndex(p, hit, kind, id, |hit.signals|);
    if xtalk.On? && xtalk.factor > 0.0 {
      InducedKeepsIndex(DirectAll(p, hit, kind, id, |hit.signals|), hit, xtalk.step, xtalk.factor, |hit.signals|);
    }
  }

  lemma {:induction false} OverUpToIsExact(strips: seq<Strip>, thr: int, n: nat)
    requires n <= |strips|
    ensures var over := OverUpTo(strips, thr, n);
            && (forall i, j :: 0 <= i < j < |over| ==> over[i] < over[j])
            && (forall i :: i in over <==> 0 <= i < n && strips[i].tot > thr)
  {
    if n > 0 {
      OverUpToIsExact(strips, thr, n - 1);
      var over := OverUpTo(strips, thr, n - 1);
      assert forall i :: 0 <= i < |over| ==> over[i] in over;
    }
  }

  /** Rebuilding the index is always right. */
  lemma RethresholdedIsExact(p: Plane, thr: int)
    ensures Exact(Rethresholded(p, thr))
  {
    OverUpToIsExact(p.strips, thr, |p.strips|);
  }

  /** Clearing empties the index, which is right unless the threshold is negative. */
  lemma ClearedExactIff(p: Plane)
    ensures Sound(Cleared(p))
    ensures Exact(Cleared(p)) <==> p.threshold >= 0 || p.strips == []
  {
    if p.strips != [] {
      assert Cleared(p).strips[0].tot == 0;
    }
  }

  /** Has the plane been cleared under a negative threshold since its index was last rebuilt? */
  predicate Stale(nStrips: nat, thr0: int, ops: seq<Op>)
  {
    if ops == [] then thr0 < 0 && nStrips > 0
    else
      match ops[|ops| - 1]
      case Clear => CurrentThreshold(thr0, ops) < 0 && nStrips > 0
      case Cumulate(_, _, _, _) => Stale(nStrips, thr0, ops[..|ops| - 1])
      case Threshold(_) => false
  }

  function CurrentThreshold(thr0: int, ops: seq<Op>): int
  {
    if ops == [] then thr0
    else if ops[|ops| - 1].Threshold? then ops[|ops| - 1].thr
    else CurrentThreshold(thr0, ops[..|ops| - 1])
  }

  /** In every reachable state the index is duplicate-free and lists only strips over
      threshold; and it lists all of them exactly when it is not stale. */
  lemma {:induction false} IndexExactIff(nStrips: nat, nSamples: nat, thr0: int, ops: seq<Op>)
    requires Legal(ops, nStrips, nSamples)
    ensures var p := Run(nStrips, nSamples, thr0, ops);
            && Sound(p) && p.threshold == CurrentThreshold(thr0, ops)
            && (Exact(p) <==> !Stale(nStrips, thr0, ops))
  {
    if ops == [] {
      ClearedExactIff(NewPlane(nStrips, nSamples, thr0));
    } else {
      var n := |ops| - 1;
      assert Legal(ops[..n], nStrips, nSamples);
      IndexExactIff(nStrips, nSamples, thr0, ops[..n]);
      var p := Run(nStrips, nSamples, thr0, ops[..n]);
      match ops[n] {
        case Clear => ClearedExactIff(p);
        case Cumulate(hit, kind, id, xtalk) => CumulatedKeepsIndex(p, hit, kind, id, xtalk);
        case Threshold(thr) => RethresholdedIsExact(p, thr);
      }
    }
  }

  /** With thresholds never negative the incremental index and a rebuild at the same
      threshold always list the same strips. */
  lemma IndexAgreesWithRebuild(nStrips: nat, nSamples: nat, thr0: int, ops: seq<Op>, i: int)
    requires Legal(ops, nStrips, nSamples) && thr0 >= 0
    requires forall k :: 0 <= k < |ops| && ops[k].Threshold? ==> ops[k].thr >= 0
    ensures var p := Run(nStrips, nSamples, thr0, ops);
            && (i in p.over <==> i in Rethresholded(p, p.threshold).over)
            && |p.over| == |Rethresholded(p, p.threshold).over|
  {
    var p := Run(nStrips, nSamples, thr0, ops);
    IndexExactIff(nStrips, nSamples, thr0, ops);
    NeverStale(nStrips, thr0, ops);
    RethresholdedIsExact(p, p.threshold);
    var q := Rethresholded(p, p.threshold);
    SameMembersSameSize(p.over, q.over);
  }

  lemma SameMembersSameSize(s: seq<int>, t: seq<int>)
    requires Distinct(s) && Distinct(t) && forall i :: i in s <==> i in t
    ensures |s| == |t|
  {
    DistinctSize(s);
    DistinctSize(t);
    assert Elements(s) == Elements(t);
  }

  lemma {:induction false} NeverStale(nStrips: nat, thr0: int, ops: seq<Op>)
    requires thr0 >= 0
    requires forall k :: 0 <= k < |ops| && ops[k].Threshold? ==> ops[k].thr >= 0
    ensures !Stale(nStrips, thr0, ops) && CurrentThreshold(thr0, ops) >= 0
  {
    if ops != [] {
      NeverStale(nStrips, thr0, ops[..|ops| - 1]);
    }
  }

  // ---- the ledger ----------------------------------------------------------------

  ghost predicate Sampled(hit: HitValue, k: nat)
  {
    forall j :: 0 <= j < |hit.signals| ==> k < |hit.signals[j].adc|
  }

  /** The samples `k` of the hit's own signals on strip `i`, in order, among the first `n`. */
  function DirectRecord(hit: HitValue, i: int, k: nat, n: nat): seq<int>
    requires n <= |hit.signals| && Sampled(hit, k)
  {
    if n == 0 then []
    else if hit.signals[n - 1].idx == i then DirectRecord(hit, i, k, n - 1) + [hit.signals[n - 1].adc[k]]
    else DirectRecord(hit, i, k, n - 1)
  }

  /** The truncated samples `k` induced on strip `i` from `step` strips away. */
  function InducedRecord(hit: HitValue, i: int, k: nat, step: int, factor: real, n: nat): seq<int>
    requires n <= |hit.signals| && Sampled(hit, k)
  {
    if n == 0 then []
    else if hit.signals[n - 1].idx + step == i
    then InducedRecord(hit, i, k, step, factor, n - 1) + [InduceSample(hit.signals[n - 1].adc[k], factor)]
    else InducedRecord(hit, i, k, step, factor, n - 1)
  }

  /** The cross-talk record of one call. */
  function XTalkRecord(hit: HitValue, xtalk: CrossTalk, i: int, k: nat): seq<int>
    requires Sampled(hit, k)
  {
    if xtalk.On? && xtalk.factor > 0.0
    then InducedRecord(hit, i, k, xtalk.step, xtalk.factor, |hit.signals|) else []
  }

  /** What the calls since the last clearing have put on sample `k` of strip `i` directly ... */
  function DirectLog(ops: seq<Op>, nStrips: nat, nSamples: nat, i: int, k: nat): seq<int>
    requires Legal(ops, nStrips, nSamples) && k < nSamples
  {
    if ops == [] then []
    else
      var n := |ops| - 1;
      assert Legal(ops[..n], nStrips, nSamples);
      match ops[n]
      case Clear => []
      case Cumulate(hit, _, _, _) => DirectLog(ops[..n], nStrips, nSamples, i, k) + DirectRecord(hit, i, k, |hit.signals|)
      case Threshold(_) => DirectLog(ops[..n], nStrips, nSamples, i, k)
  }

  /** ... and by cross talk. */
  function InducedLog(ops: seq<Op>, nStrips: nat, nSamples: nat, i: int, k: nat): seq<int>
    requires Legal(ops, nStrips, nSamples) && k < nSamples
  {
    if ops == [] then []
    else
      var n := |ops| - 1;
      assert Legal(ops[..n], nStrips, nSamples);
      match ops[n]
      case Clear => []
      case Cumulate(hit, _, _, xtalk) =>
        InducedLog(ops[..n], nStrips, nSamples, i, k) + XTalkRecord(hit, xtalk, i, k)
      case Threshold(_) => InducedLog(ops[..n], nStrips, nSamples, i, k)
  }

  lemma TotalSnoc(s: seq<int>, x: int)
    ensures Total(s + [x]) == Total(s) + x
  {
    SumToPrefix(s + [x], s, |s|);
  }

  lemma {:induction false} SumToPrefix(s: seq<int>, t: seq<int>, n: nat)
    requires n <= |s| && n <= |t| && s[..n] == t[..n]
    ensures SumTo(s, n) == SumTo(t, n)
  {
    if n > 0 {
      assert s[..n - 1] == s[..n][..n - 1] && t[..n - 1] == t[..n][..n - 1];
      assert s[..n][n - 1] == t[..n][n - 1];
      SumToPrefix(s, t, n - 1);
    }
  }

  lemma {:induction false} TotalConcat(s: seq<int>, t: seq<int>)
    ensures Total(s + t) == Total(s) + Total(t)
  {
    if t == [] {
      assert s + t == s;
    } else {
      var n := |t| - 1;
      TotalConcat(s, t[..n]);
      assert s + t == (s + t[..n]) + [t[n]] && t == t[..n] + [t[n]];
      TotalSnoc(s + t[..n], t[n]);
      TotalSnoc(t[..n], t[n]);
    }
  }

  lemma DirectOneDeposits(p: Plane, g: Signal, hit: HitValue, kind: Bits, id: int, i: nat, k: nat)
    requires Shaped(p) && FitsOne(g, |p.strips|, p.nSamples) && i < |p.strips| && k < p.nSamples
    ensures var s, t := p.strips[i], DirectOne(p, g, hit, kind, id).strips[i];
            if g.idx == i
            then t.adc[k] == s.adc[k] + g.adc[k] && t.clusterADC[k] == s.clusterADC[k] + [g.adc[k]]
            else t == s
  {
  }

  lemma InducedOneDeposits(p: Plane, g: Signal, hit: HitValue, step: int, factor: real, i: nat, k: nat)
    requires Shaped(p) && FitsOne(g, |p.strips|, p.nSamples) && i < |p.strips| && k < p.nSamples
    ensures var s, t := p.strips[i], InducedOne(p, g, hit, step, factor).strips[i];
            && t.clusterADC == s.clusterADC
            && t.adc[k] == s.adc[k] + if g.idx + step == i then InduceSample(g.adc[k], factor) else 0
  {
  }

  lemma {:induction false} DirectDeposits(p: Plane, hit: HitValue, kind: Bits, id: int, n: nat, i: nat, k: nat)
    requires Shaped(p) && Fits(hit, |p.strips|, p.nSamples) && n <= |hit.signals| && i < |p.strips| && k < p.nSamples
    ensures var q := DirectAll(p, hit, kind, id, n);
            && q.strips[i].adc[k] == p.strips[i].adc[k] + Total(DirectRecord(hit, i, k, n))
            && q.strips[i].clusterADC[k] == p.strips[i].clusterADC[k] + DirectRecord(hit, i, k, n)
  {
    if n > 0 {
      var g := hit.signals[n - 1];
      assert FitsOne(g, |p.strips|, p.nSamples);
      DirectDeposits(p, hit, kind, id, n - 1, i, k);
      DirectOneDeposits(DirectAll(p, hit, kind, id, n - 1), g, hit, kind, id, i, k);
      TotalSnoc(DirectRecord(hit, i, k, n - 1), g.adc[k]);
    }
  }

  lemma {:induction false} InducedDeposits(p: Plane, hit: HitValue, step: int, factor: real, n: nat, i: nat, k: nat)
    requires Shaped(p) && Fits(hit, |p.strips|, p.nSamples) && n <= |hit.signals| && i < |p.strips| && k < p.nSamples
    ensures var q := InducedAll(p, hit, step, factor, n);
            && q.strips[i].adc[k] == p.strips[i].adc[k] + Total(InducedRecord(hit, i, k, step, factor, n))
            && q.strips[i].clusterADC[k] == p.strips[i].clusterADC[k]
  {
    if n > 0 {
      var g := hit.signals[n - 1];
      InducedDeposits(p, hit, step, factor, n - 1, i, k);
      InducedOneDeposits(InducedAll(p, hit, step, factor, n - 1), g, hit, step, factor, i, k);
      TotalSnoc(InducedRecord(hit, i, k, step, factor, n - 1), InduceSample(g.adc[k], factor));
    }
  }

  lemma StepDeposits(p: Plane, op: Op, i: nat, k: nat)
    requires Shaped(p) && op.Cumulate? && Fits(op.hit, |p.strips|, p.nSamples) && i < |p.strips| && k < p.nSamples
    ensures var m := |op.hit.signals|;
            var induced := XTalkRecord(op.hit, op.xtalk, i, k);
            var q := Step(p, op);
            && q.strips[i].adc[k] == p.strips[i].adc[k] + Total(DirectRecord(op.hit, i, k, m)) + Total(induced)
            && q.strips[i].clusterADC[k] == p.strips[i].clusterADC[k] + DirectRecord(op.hit, i, k, m)
  {
    var m := |op.hit.signals|;
    DirectDeposits(p, op.hit, op.kind, op.id, m, i, k);
    if op.xtalk.On? && op.xtalk.factor > 0.0 {
      InducedDeposits(DirectAll(p, op.hit, op.kind, op.id, m), op.hit, op.xtalk.step, op.xtalk.factor, m, i, k);
    }
  }

  /** The books balance in every reachable state: the per-cluster record of a sample is exactly
      what was put on it directly since the last clearing, the sample is the sum of that
      record and of what cross talk induced, and the strip's total is the sum of its samples. */
  lemma {:induction false} LedgerBalances(nStrips: nat, nSamples: nat, thr0: int, ops: seq<Op>, i: nat, k: nat)
    requires Legal(ops, nStrips, nSamples) && i < nStrips && k < nSamples
    ensures var s := Run(nStrips, nSamples, thr0, ops).strips[i];
            && s.clusterADC[k] == DirectLog(ops, nStrips, nSamples, i, k)
            && s.adc[k] == Total(s.clusterADC[k]) + Total(InducedLog(ops, nStrips, nSamples, i, k))
            && s.tot == Total(s.adc)
            && |s.clusterADC[k]| == |s.clusters| == |s.weights|
  {
    if ops != [] {
      var n := |ops| - 1;
      assert Legal(ops[..n], nStrips, nSamples);
      LedgerBalances(nStrips, nSamples, thr0, ops[..n], i, k);
      if ops[n].Cumulate? {
        var hit, xtalk := ops[n].hit, ops[n].xtalk;
        StepDeposits(Run(nStrips, nSamples, thr0, ops[..n]), ops[n], i, k);
        TotalConcat(DirectLog(ops[..n], nStrips, nSamples, i, k), DirectRecord(hit, i, k, |hit.signals|));
        TotalConcat(InducedLog(ops[..n], nStrips, nSamples, i, k), XTalkRecord(hit, xtalk, i, k));
      }
    }
  }

  /** What cross talk adds to strip `i` are the samples of the signals `step` strips away, each
      scaled by the factor and truncated on its own. */
  lemma {:induction false} InducedIsTruncated(hit: HitValue, i: int, k: nat, step: int, factor: real, nStrips: nat, nSamples: nat, n: nat)
    requires Fits(hit, nStrips, nSamples) && n <= |hit.signals| && k < nSamples && factor > 0.0
    ensures var sent, got := DirectRecord(hit, i - step, k, n), InducedRecord(hit, i, k, step, factor, n);
            && |got| == |sent|
            && forall l :: 0 <= l < |got| ==> 0 <= got[l] && got[l] as real <= sent[l] as real * factor < got[l] as real + 1.0
  {
    if n > 0 {
      InducedIsTruncated(hit, i, k, step, factor, nStrips, nSamples, n - 1);
      assert FitsOne(hit.signals[n - 1], nStrips, nSamples);
      ProductNonNegative(hit.signals[n - 1].adc[k] as real, factor);
    }
  }

  // ---- the order of the hits -----------------------------------------------------

  /** Two runs that differ only in the order of two neighbouring `Cumulate` calls. */
  ghost predicate Swapped(ops: seq<Op>, ops': seq<Op>, m: nat)
  {
    && |ops| == |ops'| && m + 1 < |ops|
    && ops[m].Cumulate? && ops[m + 1].Cumulate? && ops'[m] == ops[m + 1] && ops'[m + 1] == ops[m]
    && forall j :: 0 <= j < |ops| && j != m && j != m + 1 ==> ops[j] == ops'[j]
  }

  lemma {:induction false} SwapKeepsLogs(nStrips: nat, nSamples: nat, ops: seq<Op>, ops': seq<Op>, m: nat, i: int, k: nat)
    requires Legal(ops, nStrips, nSamples) && Legal(ops', nStrips, nSamples) && Swapped(ops, ops', m) && k < nSamples
    ensures Total(DirectLog(ops, nStrips, nSamples, i, k)) == Total(DirectLog(ops', nStrips, nSamples, i, k))
    ensures Total(InducedLog(ops, nStrips, nSamples, i, k)) == Total(InducedLog(ops', nStrips, nSamples, i, k))
  {
    var n := |ops| - 1;
    var a, a' := ops[..n], ops'[..n];
    if m + 1 < n {
      assert Swapped(a, a', m);
      SwapKeepsLogs(nStrips, nSamples, a, a', m, i, k);
    } else {
      assert a[..n - 1] == a'[..n - 1];
      LogNext(nStrips, nSamples, a, i, k);
      LogNext(nStrips, nSamples, a', i, k);
    }
    LogNext(nStrips, nSamples, ops, i, k);
    LogNext(nStrips, nSamples, ops', i, k);
  }

  lemma LogNext(nStrips: nat, nSamples: nat, ops: seq<Op>, i: int, k: nat)
    requires Legal(ops, nStrips, nSamples) && k < nSamples && ops != []
    ensures var n := |ops| - 1;
            Legal(ops[..n], nStrips, nSamples) && (ops[n].Cumulate? ==>
              && Total(DirectLog(ops, nStrips, nSamples, i, k)) ==
                 Total(DirectLog(ops[..n], nStrips, nSamples, i, k)) +
                 Total(DirectRecord(ops[n].hit, i, k, |ops[n].hit.signals|))
              && Total(InducedLog(ops, nStrips, nSamples, i, k)) ==
                 Total(InducedLog(ops[..n], nStrips, nSamples, i, k)) + Total(XTalkRecord(ops[n].hit, ops[n].xtalk, i, k)))
  {
    var n := |ops| - 1;
    assert Legal(ops[..n], nStrips, nSamples);
    if ops[n].Cumulate? {
      TotalConcat(DirectLog(ops[..n], nStrips, nSamples, i, k), DirectRecord(ops[n].hit, i, k, |ops[n].hit.signals|));
      TotalConcat(InducedLog(ops[..n], nStrips, nSamples, i, k), XTalkRecord(ops[n].hit, ops[n].xtalk, i, k));
    }
  }

  lemma {:induction false} SwapKeepsThreshold(nStrips: nat, thr0: int, ops: seq<Op>, ops': seq<Op>, m: nat)
    requires Swapped(ops, ops', m)
    ensures CurrentThreshold(thr0, ops) == CurrentThreshold(thr0, ops')
    ensures Stale(nStrips, thr0, ops) == Stale(nStrips, thr0, ops')
  {
    var n := |ops| - 1;
    if m + 1 < n {
      assert Swapped(ops[..n], ops'[..n], m);
      SwapKeepsThreshold(nStrips, thr0, ops[..n], ops'[..n], m);
    } else {
      assert ops[..n][..n - 1] == ops'[..n][..n - 1];
    }
  }

  /** The order in which hits are cumulated shows neither in the amplitudes nor in which
      strips the index lists, at any later time. */
  lemma CumulateOrderFree(nStrips: nat, nSamples: nat, thr0: int, ops: seq<Op>, ops': seq<Op>, m: nat, i: nat)
    requires Legal(ops, nStrips, nSamples) && Legal(ops', nStrips, nSamples) && Swapped(ops, ops', m) && i < nStrips
    ensures var p, p' := Run(nStrips, nSamples, thr0, ops), Run(nStrips, nSamples, thr0, ops');
            && p.strips[i].adc == p'.strips[i].adc && p.strips[i].tot == p'.strips[i].tot
            && (!Stale(nStrips, thr0, ops) ==> (i in p.over <==> i in p'.over))
  {
    var p, p' := Run(nStrips, nSamples, thr0, ops), Run(nStrips, nSamples, thr0, ops');
    forall k | 0 <= k < nSamples
      ensures p.strips[i].adc[k] == p'.strips[i].adc[k]
    {
      LedgerBalances(nStrips, nSamples, thr0, ops, i, k);
      LedgerBalances(nStrips, nSamples, thr0, ops', i, k);
      SwapKeepsLogs(nStrips, nSamples, ops, ops', m, i, k);
    }
    assert p.strips[i].adc == p'.strips[i].adc;
    IndexExactIff(nStrips, nSamples, thr0, ops);
    IndexExactIff(nStrips, nSamples, thr0, ops');
    SwapKeepsThreshold(nStrips, thr0, ops, ops', m);
  }
}
