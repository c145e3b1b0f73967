/** What a strip remembers of the hits it has seen: which clusters, with what weights, of
    what kinds, and how early. */
module StripRecords {
  import opened Numeric
  import opened StripPlane
  import opened PlaneHistory

  /** One direct signal on a strip, with what its hit brings along. */
  datatype Contribution = Contribution(id: int, weight: Double, kind: Bits, time: real, charge: real)

  function ContributionOf(g: Signal, hit: HitValue, kind: Bits, id: int): Contribution
  {
    Contribution(id, Quotient(Total(g.adc) as real, hit.total as real), kind, hit.time, g.charge)
  }

  /** What the first `n` signals of a hit contribute to strip `i`. */
  function FromHit(hit: HitValue, kind: Bits, id: int, i: int, n: nat): seq<Contribution>
    requires n <= |hit.signals|
  {
    if n == 0 then []
    else FromHit(hit, kind, id, i, n - 1) +
         if hit.signals[n - 1].idx == i then [ContributionOf(hit.signals[n - 1], hit, kind, id)] else []
  }

  /** All contributions to strip `i` since the last clearing, in order. */
  function FromRun(ops: seq<Op>, i: int): seq<Contribution>
  {
    if ops == [] then []
    else
      var n := |ops| - 1;
      match ops[n]
      case Clear => []
      case Threshold(_) => FromRun(ops[..n], i)
      case Cumulate(hit, kind, id, _) => FromRun(ops[..n], i) + FromHit(hit, kind, id, i, |hit.signals|)
  }

  /** What the contributions amount to. */
  datatype Summary = Summary(ids: seq<int>, weights: seq<Double>, kinds: Bits, earliest: real, charge: real)

  function Least(a: real, b: real): (r: real)
    ensures r <= a && r <= b && (r == a || r == b)
  {
    if b < a then b else a
  }

  function Summarized(cs: seq<Contribution>): Summary
  {
    if cs == [] then Summary([], [], {}, NO_TIME, 0.0)
    else
      var s, c := Summarized(cs[..|cs| - 1]), cs[|cs| - 1];
      Summary(s.ids + [c.id], s.weights + [c.weight], s.kinds + c.kind, Least(s.earliest, c.time), s.charge + c.charge)
  }

  lemma SummarySnoc(cs: seq<Contribution>, c: Contribution)
    ensures var s := Summarized(cs);
            Summarized(cs + [c]) ==
            Summary(s.ids + [c.id], s.weights + [c.weight], s.kinds + c.kind, Least(s.earliest, c.time), s.charge + c.charge)
  {
    assert (cs + [c])[..|cs|] == cs;
  }

  ghost predicate HasSignal(hit: HitValue, i: int, n: nat)
    requires n <= |hit.signals|
  {
    exists j :: 0 <= j < n && hit.signals[j].idx == i
  }

  /** Does the hit induce a signal on strip `i`? */
  ghost predicate Induces(hit: HitValue, xtalk: CrossTalk, i: int)
  {
    xtalk.On? && xtalk.factor > 0.0 && HasSignal(hit, i - xtalk.step, |hit.signals|)
  }

  /** Has a hit since the last clearing induced a signal on strip `i`? */
  ghost predicate InducedInRun(ops: seq<Op>, i: int)
  {
    if ops == [] then false
    else
      match ops[|ops| - 1]
      case Clear => false
      case Threshold(_) => InducedInRun(ops[..|ops| - 1], i)
      case Cumulate(hit, _, _, xtalk) => InducedInRun(ops[..|ops| - 1], i) || Induces(hit, xtalk, i)
  }

  /** The strip lists exactly these clusters and weights, and shows their kinds, with bit 2
      beside them exactly when it was induced. */
  ghost predicate Lists(s: Strip, m: Summary, induced: bool)
  {
    s.clusters == m.ids && s.weights == m.weights && s.kind == if induced then m.kinds + {2} else m.kinds
  }

  /** ... and is not touched by cross talk. */
  ghost predicate Untouched(s: Strip, m: Summary)
  {
    s.kind == m.kinds && s.time == m.earliest && s.charge == m.charge
  }

  lemma DirectLists(s: Strip, g: Signal, hit: HitValue, kind: Bits, id: int, cs: seq<Contribution>, induced: bool)
    requires |s.adc| == |g.adc| == |s.clusterADC| && Lists(s, Summarized(cs), induced)
    ensures var t, m := Direct(s, g, hit.time, hit.total, kind, id), Summarized(cs + [ContributionOf(g, hit, kind, id)]);
            Lists(t, m, induced) && (Untouched(s, Summarized(cs)) ==> Untouched(t, m))
  {
    SummarySnoc(cs, ContributionOf(g, hit, kind, id));
    var m := Summarized(cs);
    assert (m.kinds + {2}) + kind == (m.kinds + kind) + {2};
  }

  lemma {:induction false} DirectAllLists(p: Plane, hit: HitValue, kind: Bits, id: int, n: nat, i: nat,
                                           cs: seq<Contribution>, induced: bool)
    requires Shaped(p) && Fits(hit, |p.strips|, p.nSamples) && n <= |hit.signals| && i < |p.strips|
    requires Lists(p.strips[i], Summarized(cs), induced)
    ensures var s, m := DirectAll(p, hit, kind, id, n).strips[i], Summarized(cs + FromHit(hit, kind, id, i, n));
            Lists(s, m, induced) && (Untouched(p.strips[i], Summarized(cs)) ==> Untouched(s, m))
  {
    if n == 0 {
      assert cs + [] == cs;
    } else {
      DirectAllLists(p, hit, kind, id, n - 1, i, cs, induced);
      var g, before := hit.signals[n - 1], FromHit(hit, kind, id, i, n - 1);
      assert FitsOne(g, |p.strips|, p.nSamples);
      DirectOneLists(DirectAll(p, hit, kind, id, n - 1), g, hit, kind, id, i, cs + before, induced);
      if g.idx == i {
        assert cs + FromHit(hit, kind, id, i, n) == (cs + before) + [ContributionOf(g, hit, kind, id)];
      } else {
        assert FromHit(hit, kind, id, i, n) == before;
      }
    }
  }

  lemma DirectOneLists(p: Plane, g: Signal, hit: HitValue, kind: Bits, id: int, i: nat, cs: seq<Contribution>, induced: bool)
    requires Shaped(p) && FitsOne(g, |p.strips|, p.nSamples) && i < |p.strips| && Lists(p.strips[i], Summarized(cs), induced)
    ensures var s, m := DirectOne(p, g, hit, kind, id).strips[i],
                        Summarized(if g.idx == i then cs + [ContributionOf(g, hit, kind, id)] else cs);
            Lists(s, m, induced) && (Untouched(p.strips[i], Summarized(cs)) ==> Untouched(s, m))
  {
    assert ShapedStrip(p.strips[i], p.nSamples);
    if g.idx == i {
      DirectLists(p.strips[i], g, hit, kind, id, cs, induced);
    }
  }

  lemma {:induction false} InducedAllLists(p: Plane, hit: HitValue, step: int, factor: real, n: nat, i: nat,
                                            m: Summary, induced: bool)
    requires Shaped(p) && Fits(hit, |p.strips|, p.nSamples) && n <= |hit.signals| && i < |p.strips|
    requires Lists(p.strips[i], m, induced)
    ensures Lists(InducedAll(p, hit, step, factor, n).strips[i], m, induced || HasSignal(hit, i - step, n))
  {
    if n > 0 {
      InducedAllLists(p, hit, step, factor, n - 1, i, m, induced);
      HasSignalNext(hit, i - step, n - 1);
    }
  }

  lemma HasSignalNext(hit: HitValue, i: int, n: nat)
    requires n < |hit.signals|
    ensures HasSignal(hit, i, n + 1) <==> HasSignal(hit, i, n) || hit.signals[n].idx == i
  {
    if HasSignal(hit, i, n + 1) {
      var j :| 0 <= j < n + 1 && hit.signals[j].idx == i;
    }
  }

  ghost predicate NoCrossTalk(ops: seq<Op>)
  {
    forall k :: 0 <= k < |ops| && ops[k].Cumulate? ==> ops[k].xtalk.Off?
  }

  lemma CumulatedLists(p: Plane, hit: HitValue, kind: Bits, id: int, xtalk: CrossTalk, i: nat, cs: seq<Contribution>, induced: bool)
    requires Shaped(p) && Fits(hit, |p.strips|, p.nSamples) && i < |p.strips| && Lists(p.strips[i], Summarized(cs), induced)
    ensures var s, m := Cumulated(p, hit, kind, id, xtalk).strips[i], Summarized(cs + FromHit(hit, kind, id, i, |hit.signals|));
            && Lists(s, m, induced || Induces(hit, xtalk, i))
            && (xtalk.Off? && Untouched(p.strips[i], Summarized(cs)) ==> Untouched(s, m))
  {
    DirectAllLists(p, hit, kind, id, |hit.signals|, i, cs, induced);
    if xtalk.On? && xtalk.factor > 0.0 {
      InducedAllLists(DirectAll(p, hit, kind, id, |hit.signals|), hit, xtalk.step, xtalk.factor, |hit.signals|, i,
                      Summarized(cs + FromHit(hit, kind, id, i, |hit.signals|)), induced);
    }
  }

  /** In every reachable state a strip lists the clusters that have hit it since the last
      clearing, in order and with their weights. Its type is exactly their kinds, with the
      induced bit 2 if and only if a hit since then had cross talk and a signal the drawn step
      away. Without cross talk its time is the earliest of theirs and its charge the sum of
      theirs. */
  lemma {:induction false} RecordsAreComplete(nStrips: nat, nSamples: nat, thr0: int, ops: seq<Op>, i: nat)
    requires Legal(ops, nStrips, nSamples) && i < nStrips
    ensures var s, m := Run(nStrips, nSamples, thr0, ops).strips[i], Summarized(FromRun(ops, i));
            Lists(s, m, InducedInRun(ops, i)) && (NoCrossTalk(ops) ==> Untouched(s, m))
  {
    if ops != [] {
      var n := |ops| - 1;
      assert Legal(ops[..n], nStrips, nSamples);
      RecordsAreComplete(nStrips, nSamples, thr0, ops[..n], i);
      assert NoCrossTalk(ops) ==> NoCrossTalk(ops[..n]) && (ops[n].Cumulate? ==> ops[n].xtalk.Off?);
      if ops[n].Cumulate? {
        CumulatedLists(Run(nStrips, nSamples, thr0, ops[..n]), ops[n].hit, ops[n].kind, ops[n].id, ops[n].xtalk, i,
                       FromRun(ops[..n], i), InducedInRun(ops[..n], i));
      }
    }
  }

  // ---- charge, cross talk included -----------------------------------------------

  /** The charge the first `n` signals of a hit bring to strip `i` directly. */
  function DirectCharge(hit: HitValue, i: int, n: nat): real
    requires n <= |hit.signals|
  {
    if n == 0 then 0.0
    else DirectCharge(hit, i, n - 1) + if hit.signals[n - 1].idx == i then hit.signals[n - 1].charge else 0.0
  }

  /** ... and by cross talk from `step` strips away. */
  function InducedCharge(hit: HitValue, step: int, factor: real, i: int, n: nat): real
    requires n <= |hit.signals|
  {
    if n == 0 then 0.0
    else InducedCharge(hit, step, factor, i, n - 1) +
         if hit.signals[n - 1].idx + step == i then factor * hit.signals[n - 1].charge else 0.0
  }

  function HitCharge(hit: HitValue, xtalk: CrossTalk, i: int): real
  {
    DirectCharge(hit, i, |hit.signals|) +
    if xtalk.On? && xtalk.factor > 0.0 then InducedCharge(hit, xtalk.step, xtalk.factor, i, |hit.signals|) else 0.0
  }

  function RunCharge(ops: seq<Op>, i: int): real
  {
    if ops == [] then 0.0
    else
      match ops[|ops| - 1]
      case Clear => 0.0
      case Threshold(_) => RunCharge(ops[..|ops| - 1], i)
      case Cumulate(hit, _, _, xtalk) => RunCharge(ops[..|ops| - 1], i) + HitCharge(hit, xtalk, i)
  }

  lemma {:induction false} DirectAllCharge(p: Plane, hit: HitValue, kind: Bits, id: int, n: nat, i: nat)
    requires Shaped(p) && Fits(hit, |p.strips|, p.nSamples) && n <= |hit.signals| && i < |p.strips|
    ensures DirectAll(p, hit, kind, id, n).strips[i].charge == p.strips[i].charge + DirectCharge(hit, i, n)
  {
    if n > 0 {
      DirectAllCharge(p, hit, kind, id, n - 1, i);
      assert FitsOne(hit.signals[n - 1], |p.strips|, p.nSamples);
    }
  }

  lemma {:induction false} InducedAllCharge(p: Plane, hit: HitValue, step: int, factor: real, n: nat, i: nat)
    requires Shaped(p) && Fits(hit, |p.strips|, p.nSamples) && n <= |hit.signals| && i < |p.strips|
    ensures InducedAll(p, hit, step, factor, n).strips[i].charge == p.strips[i].charge + InducedCharge(hit, step, factor, i, n)
  {
    if n > 0 {
      InducedAllCharge(p, hit, step, factor, n - 1, i);
      assert FitsOne(hit.signals[n - 1], |p.strips|, p.nSamples);
    }
  }

  lemma CumulatedCharge(p: Plane, hit: HitValue, kind: Bits, id: int, xtalk: CrossTalk, i: nat)
    requires Shaped(p) && Fits(hit, |p.strips|, p.nSamples) && i < |p.strips|
    ensures Cumulated(p, hit, kind, id, xtalk).strips[i].charge == p.strips[i].charge + HitCharge(hit, xtalk, i)
  {
    DirectAllCharge(p, hit, kind, id, |hit.signals|, i);
    if xtalk.On? && xtalk.factor > 0.0 {
      InducedAllCharge(DirectAll(p, hit, kind, id, |hit.signals|), hit, xtalk.step, xtalk.factor, |hit.signals|, i);
    }
  }

  /** In every reachable state a strip's charge is what was put on it since the last clearing,
      directly and by cross talk. */
  lemma {:induction false} ChargeIsComplete(nStrips: nat, nSamples: nat, thr0: int, ops: seq<Op>, i: nat)
    requires Legal(ops, nStrips, nSamples) && i < nStrips
    ensures Run(nStrips, nSamples, thr0, ops).strips[i].charge == RunCharge(ops, i)
  {
    if ops != [] {
      var n := |ops| - 1;
      assert Legal(ops[..n], nStrips, nSamples);
      ChargeIsComplete(nStrips, nSamples, thr0, ops[..n], i);
      if ops[n].Cumulate? {
        CumulatedCharge(Run(nStrips, nSamples, thr0, ops[..n]), ops[n].hit, ops[n].kind, ops[n].id, ops[n].xtalk, i);
      }
    }
  }

  // ---- time, cross talk included -------------------------------------------------

  /** The times of the hits since the last clearing. */
  function TimesOf(ops: seq<Op>): set<real>
  {
    if ops == [] then {}
    else
      match ops[|ops| - 1]
      case Clear => {}
      case Threshold(_) => TimesOf(ops[..|ops| - 1])
      case Cumulate(hit, _, _, _) => TimesOf(ops[..|ops| - 1]) + {hit.time}
  }

  ghost predicate TimesFrom(p: Plane, times: set<real>)
  {
    forall i :: 0 <= i < |p.strips| ==> p.strips[i].time == NO_TIME || p.strips[i].time in times
  }

  lemma {:induction false} DirectAllTimes(p: Plane, hit: HitValue, kind: Bits, id: int, n: nat, times: set<real>)
    requires Shaped(p) && Fits(hit, |p.strips|, p.nSamples) && n <= |hit.signals|
    requires TimesFrom(p, times) && hit.time in times
    ensures TimesFrom(DirectAll(p, hit, kind, id, n), times)
  {
    if n > 0 {
      DirectAllTimes(p, hit, kind, id, n - 1, times);
    }
  }

  lemma {:induction false} InducedAllTimes(p: Plane, hit: HitValue, step: int, factor: real, n: nat, times: set<real>)
    requires Shaped(p) && Fits(hit, |p.strips|, p.nSamples) && n <= |hit.signals|
    requires TimesFrom(p, times) && hit.time in times
    ensures TimesFrom(InducedAll(p, hit, step, factor, n), times)
  {
    if n > 0 {
      InducedAllTimes(p, hit, step, factor, n - 1, times);
      assert FitsOne(hit.signals[n - 1], |p.strips|, p.nSamples);
    }
  }

  /** In every reachable state a strip that has a time has that of a hit since the last
      clearing, even where cross talk has overwritten it. */
  lemma {:induction false} TimeIsSomeHits(nStrips: nat, nSamples: nat, thr0: int, ops: seq<Op>)
    requires Legal(ops, nStrips, nSamples)
    ensures TimesFrom(Run(nStrips, nSamples, thr0, ops), TimesOf(ops))
  {
    if ops != [] {
      var n := |ops| - 1;
      assert Legal(ops[..n], nStrips, nSamples);
      TimeIsSomeHits(nStrips, nSamples, thr0, ops[..n]);
      if ops[n].Cumulate? {
        var p, hit, times := Run(nStrips, nSamples, thr0, ops[..n]), ops[n].hit, TimesOf(ops);
        DirectAllTimes(p, hit, ops[n].kind, ops[n].id, |hit.signals|, times);
        if ops[n].xtalk.On? && ops[n].xtalk.factor > 0.0 {
          InducedAllTimes(DirectAll(p, hit, ops[n].kind, ops[n].id, |hit.signals|), hit,
                          ops[n].xtalk.step, ops[n].xtalk.factor, |hit.signals|, times);
        }
      }
    }
  }

  /** No signal of the hit is induced on the strip of a later one. */
  ghost predicate Unchained(hit: HitValue, xtalk: CrossTalk)
  {
    xtalk.On? ==> Apart(hit, xtalk.step)
  }

  ghost predicate Apart(hit: HitValue, step: int)
  {
    forall j, k :: 0 <= j < k < |hit.signals| ==> hit.signals[j].idx + step != hit.signals[k].idx
  }

  ghost predicate AllUnchained(ops: seq<Op>)
  {
    forall k :: 0 <= k < |ops| && ops[k].Cumulate? ==> Unchained(ops[k].hit, ops[k].xtalk)
  }

  /** The time strip `i` should show: a signal of its own makes it the earlier of the two; an
      induced one puts the earlier of its source's time and the hit's in its place. */
  ghost function TimeInRun(ops: seq<Op>, i: int): real
  {
    if ops == [] then 9999.0
    else
      match ops[|ops| - 1]
      case Clear => 9999.0
      case Threshold(_) => TimeInRun(ops[..|ops| - 1], i)
      case Cumulate(hit, _, _, xtalk) =>
        if Induces(hit, xtalk, i) then Least(TimeInRun(ops[..|ops| - 1], i - xtalk.step), hit.time)
        else if HasSignal(hit, i, |hit.signals|) then Least(TimeInRun(ops[..|ops| - 1], i), hit.time)
        else TimeInRun(ops[..|ops| - 1], i)
  }

  lemma {:induction false} DirectAllTime(p: Plane, hit: HitValue, kind: Bits, id: int, n: nat, i: nat)
    requires Shaped(p) && Fits(hit, |p.strips|, p.nSamples) && n <= |hit.signals| && i < |p.strips|
    ensures DirectAll(p, hit, kind, id, n).strips[i].time ==
            if HasSignal(hit, i, n) then Least(p.strips[i].time, hit.time) else p.strips[i].time
  {
    if n > 0 {
      DirectAllTime(p, hit, kind, id, n - 1, i);
      HasSignalNext(hit, i, n - 1);
      assert FitsOne(hit.signals[n - 1], |p.strips|, p.nSamples);
    }
  }

  lemma InducedOneTime(p: Plane, g: Signal, hit: HitValue, step: int, factor: real, i: nat)
    requires Shaped(p) && FitsOne(g, |p.strips|, p.nSamples) && i < |p.strips|
    ensures InducedOne(p, g, hit, step, factor).strips[i].time ==
            if g.idx + step == i then Least(p.strips[g.idx].time, hit.time) else p.strips[i].time
  {
  }

  lemma LastTime(p: Plane, hit: HitValue, step: int, factor: real, n: nat, i: nat)
    requires Shaped(p) && Fits(hit, |p.strips|, p.nSamples) && 0 < n <= |hit.signals| && i < |p.strips|
    ensures 0 <= hit.signals[n - 1].idx < |p.strips|
    ensures var q := InducedAll(p, hit, step, factor, n - 1);
            InducedAll(p, hit, step, factor, n).strips[i].time ==
            if hit.signals[n - 1].idx + step == i then Least(q.strips[i - step].time, hit.time) else q.strips[i].time
  {
    assert FitsOne(hit.signals[n - 1], |p.strips|, p.nSamples);
    InducedOneTime(InducedAll(p, hit, step, factor, n - 1), hit.signals[n - 1], hit, step, factor, i);
  }

  ghost predicate NoTarget(hit: HitValue, step: int, i: int, n: nat)
    requires n <= |hit.signals|
  {
    forall j :: 0 <= j < n ==> hit.signals[j].idx + step != i
  }

  lemma SourceIsNoTarget(hit: HitValue, step: int, i: int, n: nat)
    requires n < |hit.signals| && Apart(hit, step) && hit.signals[n].idx == i
    ensures NoTarget(hit, step, i, n)
  {
  }

  /** A strip that is no target keeps its time. */
  lemma {:induction false} SourceKeepsTime(p: Plane, hit: HitValue, step: int, factor: real, n: nat, i: nat)
    requires Shaped(p) && Fits(hit, |p.strips|, p.nSamples) && n <= |hit.signals| && i < |p.strips|
    requires NoTarget(hit, step, i, n)
    ensures InducedAll(p, hit, step, factor, n).strips[i].time == p.strips[i].time
  {
    if n > 0 {
      SourceKeepsTime(p, hit, step, factor, n - 1, i);
      LastTime(p, hit, step, factor, n, i);
    }
  }

  /** Signal `m` is the last one to induce on strip `i` among the first `n`. */
  ghost predicate LastTo(hit: HitValue, step: int, i: int, m: nat, n: nat)
    requires n <= |hit.signals|
  {
    m < n && hit.signals[m].idx + step == i && forall j :: m < j < n ==> hit.signals[j].idx + step != i
  }

  lemma {:induction false} FindLast(hit: HitValue, step: int, i: int, n: nat) returns (m: nat)
    requires n <= |hit.signals| && HasSignal(hit, i - step, n)
    ensures LastTo(hit, step, i, m, n)
  {
    HasSignalNext(hit, i - step, n - 1);
    if hit.signals[n - 1].idx + step == i {
      m := n - 1;
    } else {
      m := FindLast(hit, step, i, n - 1);
    }
  }

  lemma {:induction false} TargetTime(p: Plane, hit: HitValue, step: int, factor: real, n: nat, i: nat, m: nat)
    requires Shaped(p) && Fits(hit, |p.strips|, p.nSamples) && n <= |hit.signals| && i < |p.strips|
    requires LastTo(hit, step, i, m, n) && NoTarget(hit, step, i - step, m)
    ensures 0 <= i - step < |p.strips|
    ensures InducedAll(p, hit, step, factor, n).strips[i].time == Least(p.strips[i - step].time, hit.time)
  {
    LastTime(p, hit, step, factor, n, i);
    if n - 1 == m {
      SourceKeepsTime(p, hit, step, factor, m, i - step);
    } else {
      TargetTime(p, hit, step, factor, n - 1, i, m);
    }
  }

  lemma {:induction false} InducedAllTime(p: Plane, hit: HitValue, step: int, factor: real, i: nat)
    requires Shaped(p) && Fits(hit, |p.strips|, p.nSamples) && i < |p.strips| && Apart(hit, step)
    ensures HasSignal(hit, i - step, |hit.signals|) ==> 0 <= i - step < |p.strips|
    ensures InducedAll(p, hit, step, factor, |hit.signals|).strips[i].time ==
            if HasSignal(hit, i - step, |hit.signals|) then Least(p.strips[i - step].time, hit.time) else p.strips[i].time
  {
    var n := |hit.signals|;
    if HasSignal(hit, i - step, n) {
      var m := FindLast(hit, step, i, n);
      SourceIsNoTarget(hit, step, i - step, m);
      TargetTime(p, hit, step, factor, n, i, m);
    } else {
      SourceKeepsTime(p, hit, step, factor, n, i);
    }
  }

  lemma {:induction false} CumulatedTime(p: Plane, hit: HitValue, kind: Bits, id: int, xtalk: CrossTalk, i: nat)
    requires Shaped(p) && Fits(hit, |p.strips|, p.nSamples) && i < |p.strips| && Unchained(hit, xtalk)
    ensures Induces(hit, xtalk, i) ==> 0 <= i - xtalk.step < |p.strips|
    ensures Cumulated(p, hit, kind, id, xtalk).strips[i].time ==
            if Induces(hit, xtalk, i) then Least(p.strips[i - xtalk.step].time, hit.time)
            else if HasSignal(hit, i, |hit.signals|) then Least(p.strips[i].time, hit.time) else p.strips[i].time
  {
    var n, q := |hit.signals|, DirectAll(p, hit, kind, id, |hit.signals|);
    DirectAllTime(p, hit, kind, id, n, i);
    if xtalk.On? && xtalk.factor > 0.0 {
      InducedAllTime(q, hit, xtalk.step, xtalk.factor, i);
      if Induces(hit, xtalk, i) {
        DirectAllTime(p, hit, kind, id, n, i - xtalk.step);
        TwiceLeast(p.strips[i - xtalk.step].time, hit.time);
      }
    }
  }

  lemma TwiceLeast(a: real, b: real)
    ensures Least(Least(a, b), b) == Least(a, b)
  {
  }

  lemma {:induction false} TimeNext(p: Plane, ops: seq<Op>, i: nat)
    requires Shaped(p) && i < |p.strips| && ops != [] && ops[|ops| - 1].Cumulate?
    requires Fits(ops[|ops| - 1].hit, |p.strips|, p.nSamples) && Unchained(ops[|ops| - 1].hit, ops[|ops| - 1].xtalk)
    requires forall j :: 0 <= j < |p.strips| ==> p.strips[j].time == TimeInRun(ops[..|ops| - 1], j)
    ensures Step(p, ops[|ops| - 1]).strips[i].time == TimeInRun(ops, i)
  {
    var op := ops[|ops| - 1];
    CumulatedTime(p, op.hit, op.kind, op.id, op.xtalk, i);
  }

  /** In every reachable state a strip shows exactly the time the hits since the last clearing
      give it, cross talk included, as long as no hit induces a signal on the strip of a later one of its
      own: for hits in strip order, whenever cross talk goes to the left. */
  lemma {:induction false} TimeIsComplete(nStrips: nat, nSamples: nat, thr0: int, ops: seq<Op>, i: nat)
    requires Legal(ops, nStrips, nSamples) && i < nStrips && AllUnchained(ops)
    ensures Run(nStrips, nSamples, thr0, ops).strips[i].time == TimeInRun(ops, i)
  {
    if ops != [] {
      var n := |ops| - 1;
      assert Legal(ops[..n], nStrips, nSamples) && AllUnchained(ops[..n]);
      var p := Run(nStrips, nSamples, thr0, ops[..n]);
      forall j | 0 <= j < nStrips
        ensures p.strips[j].time == TimeInRun(ops[..n], j)
      {
        TimeIsComplete(nStrips, nSamples, thr0, ops[..n], j);
      }
      if ops[n].Cumulate? {
        TimeNext(p, ops, i);
      }
    }
  }

  /** Where a hit does induce on the strip of its next signal, that signal passes on the time it
      has been given: the strip two steps on shows the earlier of the hit's time and that of the
      strip two steps back, whatever the one between showed. */
  lemma {:induction false} ChainedTime(p: Plane, hit: HitValue, kind: Bits, id: int, step: int, factor: real, i: nat)
    requires Shaped(p) && Fits(hit, |p.strips|, p.nSamples) && i < |p.strips| && factor > 0.0 && step != 0
    requires |hit.signals| == 2 && hit.signals[1].idx == hit.signals[0].idx + step && i == hit.signals[1].idx + step
    ensures 0 <= i - 2 * step < |p.strips|
    ensures Cumulated(p, hit, kind, id, On(step, factor)).strips[i].time == Least(p.strips[i - 2 * step].time, hit.time)
  {
    var q := DirectAll(p, hit, kind, id, 2);
    assert FitsOne(hit.signals[0], |p.strips|, p.nSamples) && FitsOne(hit.signals[1], |p.strips|, p.nSamples);
    DirectAllTime(p, hit, kind, id, 2, i - 2 * step);
    assert HasSignal(hit, i - 2 * step, 2);
    LastTime(q, hit, step, factor, 2, i);
    LastTime(q, hit, step, factor, 1, i - step);
    TwiceLeast(p.strips[i - 2 * step].time, hit.time);
    TwiceLeast(q.strips[i - 2 * step].time, hit.time);
  }
}
