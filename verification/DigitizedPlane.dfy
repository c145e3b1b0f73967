/** A strip plane with its state in arrays, updated in place. Every method is tied to the
    operation of the same name on the plane's value (module StripPlane). */
module DigitizedPlane {
  import opened Numeric
  import opened StripPlane
  import opened Rows
  import PlaneHistory
  import GEMHit

  class DigitizedPlane {
    const fNSamples: nat
    const fNStrips: nat
    const fStripADC: array<int>
    const fType: array<Bits>
    const fTotADC: array<int>
    const fCharge: array<real>
    const fTime: array<real>
    const fOverThr: array<int>
    const fStripClusters: array<seq<int>>
    const fStripWeightInCluster: array<seq<Double>>
    const fStripClusterADC: array<seq<seq<int>>>
    var fThreshold: int
    var fNOT: nat

    /** The strips as values: what the arrays hold. */
    ghost var strips: seq<Strip>

    /** Where the strips' own state is kept. */
    ghost function StripArrays(): set<object>
    {
      {fStripADC as object, fType as object, fTotADC as object, fCharge as object, fTime as object,
       fStripClusters as object, fStripWeightInCluster as object, fStripClusterADC as object}
    }

    ghost function Arrays(): set<object>
    {
      StripArrays() + {fOverThr}
    }

    ghost predicate Allocated()
    {
      && fType.Length == fTotADC.Length == fCharge.Length == fTime.Length == fOverThr.Length == fNStrips
      && fStripClusters.Length == fStripWeightInCluster.Length == fStripClusterADC.Length == fNStrips
      && fStripADC.Length == Cells(fNStrips, fNSamples)
      && fTotADC != fStripADC && fCharge != fTime && fOverThr !in StripArrays()
    }

    ghost function StripAt(i: nat): Strip
      requires Allocated() && i < fNStrips
      reads StripArrays()
    {
      Strip(fType[i], fCharge[i], fTime[i], fTotADC[i], Row(fStripADC[..], i, fNStrips, fNSamples),
            fStripClusters[i], fStripWeightInCluster[i], fStripClusterADC[i])
    }

    /** The arrays hold the strips; mentioning `StripAt` of one makes this say so. */
    ghost predicate Held()
      requires Allocated()
      reads this`strips, StripArrays()
    {
      && |strips| == fNStrips
      && forall i: nat {:trigger StripAt(i)} :: i < fNStrips ==> strips[i] == StripAt(i)
    }

    /** The plane as a value. */
    ghost function View(): Plane
      requires Allocated() && fNOT <= fNStrips
      reads this, fOverThr
    {
      Plane(fNSamples, fThreshold, strips, fOverThr[..fNOT])
    }

    /** The arrays hold the plane `p`. */
    ghost predicate Holds(p: Plane)
      requires Allocated()
      reads this, Arrays()
    {
      Held() && fNOT <= fNStrips && View() == p
    }

    ghost predicate Valid()
      requires Allocated()
      reads this, Arrays()
    {
      Held() && fNOT <= fNStrips && Shaped(View()) && PlaneHistory.Sound(View())
    }

    constructor (nstrip: nat, nsample: nat, threshold: int)
      ensures fNSamples == nsample && fNStrips == nstrip && fThreshold == threshold
      ensures Allocated() && Valid() && View() == NewPlane(fNStrips, fNSamples, fThreshold)
      ensures fresh(Arrays())
    {
      fNSamples, fNStrips, fThreshold, fNOT := nsample, nstrip, threshold, 0;
      fType, fTotADC, fCharge, fTime := new Bits[nstrip], new int[nstrip], new real[nstrip], new real[nstrip];
      fOverThr, fStripADC := new int[nstrip], new int[Cells(nstrip, nsample)];
      fStripClusters, fStripWeightInCluster := new seq<int>[nstrip], new seq<Double>[nstrip];
      fStripClusterADC := new seq<seq<int>>[nstrip];
      new;
      Reset();
    }

    method Clear()
      requires Allocated() && Valid()
      modifies this`fNOT, this`strips, Arrays()
      ensures Valid()
      ensures View() == Cleared(old(View()))
    {
      Reset();
    }

    method Reset()
      requires Allocated()
      modifies this`fNOT, this`strips, Arrays()
      ensures Valid() && View() == NewPlane(fNStrips, fNSamples, fThreshold) && fThreshold == old(fThreshold)
    {
      Fill(fStripADC, 0);
      Fill(fType, {});
      Fill(fTotADC, 0);
      Fill(fCharge, 0.0);
      Fill(fTime, NO_TIME);
      Fill(fStripClusters, []);
      Fill(fStripWeightInCluster, []);
      Fill(fStripClusterADC, Repeat([], fNSamples));
      fNOT := 0;
      strips := Repeat(EmptyStrip(fNSamples), fNStrips);
      forall i: nat | i < fNStrips
        ensures StripAt(i) == EmptyStrip(fNSamples)
      {
        RowOfConstant(fStripADC[..], i, fNStrips, fNSamples, 0);
        assert Row(fStripADC[..], i, fNStrips, fNSamples) == Repeat(0, fNSamples);
      }
      PlaneHistory.ClearedExactIff(View());
    }

    method Threshold(thr: int) returns (n: nat)
      requires Allocated() && Valid()
      modifies this`fNOT, this`fThreshold, fOverThr
      ensures Valid()
      ensures View() == Rethresholded(old(View()), thr) && n == fNOT
    {
      fThreshold := thr;
      RebuildIndex(thr);
      PlaneHistory.RethresholdedIsExact(old(View()), thr);
      return fNOT;
    }

    method RebuildIndex(thr: int)
      requires Allocated() && Held()
      modifies this`fNOT, fOverThr
      ensures fNOT <= fNStrips && fOverThr[..fNOT] == OverUpTo(strips, thr, fNStrips)
    {
      fNOT := 0;
      for j := 0 to fNStrips
        invariant fNOT <= j && fOverThr[..fNOT] == OverUpTo(strips, thr, j)
      {
        assert strips[j] == StripAt(j);
        if fTotADC[j] > thr {
          AppendToIndex(j);
        }
      }
    }

    method AppendToIndex(idx: int)
      requires Allocated() && fNOT < fNStrips
      modifies this`fNOT, fOverThr
      ensures fNOT == old(fNOT) + 1 <= fNStrips && fOverThr[..fNOT] == old(fOverThr[..fNOT]) + [idx]
    {
      fOverThr[fNOT] := idx;
      fNOT := fNOT + 1;
    }

    /** One sample on top of what is there. */
    method AddSample(idx: nat, k: nat, sample: int)
      requires Allocated() && idx < fNStrips && k < fNSamples
      modifies fStripADC, fTotADC
      ensures fTotADC[..] == old(fTotADC[..])[idx := old(fTotADC[idx]) + sample]
      ensures forall i: nat :: i < fNStrips ==>
                Row(fStripADC[..], i, fNStrips, fNSamples) ==
                var row := old(Row(fStripADC[..], i, fNStrips, fNSamples)); if i == idx then row[k := row[k] + sample] else row
    {
      RowsApart(idx, fNStrips, fNSamples);
      CellsIs(idx, fNSamples);
      ghost var was := fStripADC[..];
      var iadc := idx * fNSamples + k;
      RowAt(was, idx, fNStrips, fNSamples, k);
      fStripADC[iadc] := fStripADC[iadc] + sample;
      fTotADC[idx] := fTotADC[idx] + sample;
      forall i: nat | i < fNStrips
        ensures Row(fStripADC[..], i, fNStrips, fNSamples) ==
                if i == idx then Row(was, i, fNStrips, fNSamples)[k := fStripADC[iadc]] else Row(was, i, fNStrips, fNSamples)
      {
        RowUpdate(was, fStripADC[..], idx, k, fNStrips, fNSamples, fStripADC[iadc], i);
      }
    }

    /** The sample loop: adds `samples` to a strip's row and to its total, skipping zeros. */
    method AddSamples(idx: nat, samples: seq<int>) returns (sum: int)
      requires Allocated() && idx < fNStrips && |samples| == fNSamples
      modifies fStripADC, fTotADC
      ensures sum == Total(samples)
      ensures fTotADC[..] == old(fTotADC[..])[idx := old(fTotADC[idx]) + Total(samples)]
      ensures forall i: nat :: i < fNStrips ==>
                Row(fStripADC[..], i, fNStrips, fNSamples) ==
                if i == idx then AddTo(old(Row(fStripADC[..], i, fNStrips, fNSamples)), samples)
                else old(Row(fStripADC[..], i, fNStrips, fNSamples))
    {
      sum := 0;
      ghost var row := Row(fStripADC[..], idx, fNStrips, fNSamples);
      for k := 0 to fNSamples
        invariant sum == SumTo(samples, k)
        invariant fTotADC[..] == old(fTotADC[..])[idx := old(fTotADC[idx]) + sum]
        invariant forall i: nat :: i < fNStrips && i != idx ==>
                    Row(fStripADC[..], i, fNStrips, fNSamples) == old(Row(fStripADC[..], i, fNStrips, fNSamples))
        invariant forall m :: 0 <= m < fNSamples ==>
                    Row(fStripADC[..], idx, fNStrips, fNSamples)[m] == if m < k then row[m] + samples[m] else row[m]
      {
        if samples[k] == 0 {
          continue;
        }
        AddSample(idx, k, samples[k]);
        sum := sum + samples[k];
      }
      assert Row(fStripADC[..], idx, fNStrips, fNSamples) == AddTo(row, samples);
    }

    /** Sets type, time and charge of one strip. */
    method Mark(idx: nat, kind: Bits, time: real, charge: real)
      requires Allocated() && Held() && idx < fNStrips
      modifies fType, fTime, fCharge, this`strips
      ensures Held()
      ensures strips == old(strips)[idx := old(strips)[idx].(kind := kind, time := time, charge := charge)]
    {
      assert strips[idx] == StripAt(idx);
      fType[idx] := kind;
      fTime[idx] := time;
      fCharge[idx] := charge;
      strips := strips[idx := strips[idx].(kind := kind, time := time, charge := charge)];
      forall i: nat | i < fNStrips
        ensures strips[i] == StripAt(i)
      {
        assert old(strips)[i] == old(StripAt(i));
      }
    }

    /** Adds `samples` to one strip. */
    method Amplify(idx: nat, samples: seq<int>) returns (sum: int)
      requires Allocated() && Held() && idx < fNStrips && |samples| == fNSamples == |strips[idx].adc|
      modifies fStripADC, fTotADC, this`strips
      ensures Held() && sum == Total(samples)
      ensures var s := old(strips)[idx];
              strips == old(strips)[idx := s.(tot := s.tot + sum, adc := AddTo(s.adc, samples))]
    {
      assert strips[idx] == StripAt(idx);
      sum := AddSamples(idx, samples);
      strips := strips[idx := strips[idx].(tot := strips[idx].tot + sum, adc := AddTo(strips[idx].adc, samples))];
      forall i: nat | i < fNStrips
        ensures strips[i] == StripAt(i)
      {
        assert old(strips)[i] == old(StripAt(i));
      }
    }

    /** One more cluster on a strip, with its weight and samples. */
    method RecordCluster(idx: nat, id: int, weight: Double, adc: seq<int>)
      requires Allocated() && Held() && idx < fNStrips && |adc| == |strips[idx].clusterADC|
      modifies fStripClusters, fStripWeightInCluster, fStripClusterADC, this`strips
      ensures Held()
      ensures var s := old(strips)[idx];
              strips == old(strips)[idx := s.(clusters := s.clusters + [id], weights := s.weights + [weight],
                                              clusterADC := Record(s.clusterADC, adc))]
    {
      assert strips[idx] == StripAt(idx);
      ghost var s := strips[idx];
      fStripClusterADC[idx] := Record(fStripClusterADC[idx], adc);
      fStripWeightInCluster[idx] := fStripWeightInCluster[idx] + [weight];
      fStripClusters[idx] := fStripClusters[idx] + [id];
      strips := strips[idx := s.(clusters := s.clusters + [id], weights := s.weights + [weight],
                                 clusterADC := Record(s.clusterADC, adc))];
      forall i: nat | i < fNStrips
        ensures strips[i] == StripAt(i)
      {
        assert old(strips)[i] == old(StripAt(i));
      }
    }

    /** A cluster's own signal on one strip: amplitudes, type, time, and the cluster's records. */
    method DepositDirect(g: Signal, time: real, total: int, kind: Bits, id: int)
      requires Allocated() && Held() && AllShaped(strips, fNSamples) && FitsOne(g, fNStrips, fNSamples)
      modifies StripArrays(), this`strips
      ensures Held() && strips == old(strips)[g.idx := Direct(old(strips)[g.idx], g, time, total, kind, id)]
    {
      var idx := g.idx;
      assert strips[idx] == StripAt(idx);
      Mark(idx, fType[idx] + kind, if fTime[idx] < time then fTime[idx] else time, fCharge[idx] + g.charge);
      var tempSumADC := Amplify(idx, g.adc);
      RecordCluster(idx, id, Quotient(tempSumADC as real, total as real), g.adc);
      assert strips[idx] == Direct(old(strips)[idx], g, time, total, kind, id);
    }

    /** An induced signal on strip `idx`: amplitudes only. The time is overwritten. */
    method DepositInduced(idx: nat, g: Signal, factor: real, time: real)
      requires Allocated() && Held() && AllShaped(strips, fNSamples) && idx < fNStrips && |g.adc| == fNSamples
      modifies StripArrays(), this`strips
      ensures Held() && strips == old(strips)[idx := Induced(old(strips)[idx], g, factor, time)]
    {
      assert strips[idx] == StripAt(idx);
      Mark(idx, fType[idx] + {INDUCED_STRIP}, time, fCharge[idx] + Share(factor, g.charge));
      var sum := Amplify(idx, Induce(g.adc, factor));
      assert strips[idx] == Induced(old(strips)[idx], g, factor, time);
    }

    /** Appends the strip to the index when it has just come over threshold. The source's
        assertion that there is room is part of what is proved. */
    method Notice(idx: nat, wasBelow: bool, ghost p: Plane, ghost s: Strip)
      requires Allocated() && idx < fNStrips == |p.strips| && Holds(p.(strips := p.strips[idx := s]))
      requires wasBelow == !(p.strips[idx].tot > p.threshold)
      requires wasBelow ==> fNOT < fNStrips
      modifies this`fNOT, fOverThr
      ensures Holds(Put(p, idx, s))
    {
      assert strips[idx] == StripAt(idx);
      if wasBelow && fTotADC[idx] > fThreshold {
        assert fNOT < fNStrips;
        AppendToIndex(idx);
      }
    }

    method CumulateDirect(g: Signal, hit: HitValue, kind: Bits, id: int, ghost p: Plane)
      requires Allocated() && Holds(p) && Shaped(p) && PlaneHistory.Sound(p)
      requires FitsOne(g, fNStrips, fNSamples)
      modifies this`fNOT, this`strips, Arrays()
      ensures Holds(DirectOne(p, g, hit, kind, id))
    {
      PlaneHistory.DirectOneKeepsIndex(p, g, hit, kind, id);
      assert strips[g.idx] == StripAt(g.idx);
      var wasBelow := !(fTotADC[g.idx] > fThreshold);
      ghost var s := Direct(p.strips[g.idx], g, hit.time, hit.total, kind, id);
      DepositDirect(g, hit.time, hit.total, kind, id);
      Notice(g.idx, wasBelow, p, s);
    }

    method CumulateInduced(g: Signal, hit: HitValue, step: int, factor: real, ghost p: Plane)
      requires Allocated() && Holds(p) && Shaped(p) && PlaneHistory.Sound(p)
      requires FitsOne(g, fNStrips, fNSamples) && factor > 0.0
      modifies this`fNOT, this`strips, Arrays()
      ensures Holds(InducedOne(p, g, hit, step, factor))
    {
      var idxInduce := g.idx + step;
      if idxInduce < 0 || idxInduce >= fNStrips {
        return;
      }
      PlaneHistory.InducedOneKeepsIndex(p, g, hit, step, factor);
      assert strips[g.idx] == StripAt(g.idx) && strips[idxInduce] == StripAt(idxInduce);
      var wasBelow := !(fTotADC[idxInduce] > fThreshold);
      var time := if fTime[g.idx] < hit.time then fTime[g.idx] else hit.time;
      ghost var s := Induced(p.strips[idxInduce], g, factor, time);
      DepositInduced(idxInduce, g, factor, time);
      Notice(idxInduce, wasBelow, p, s);
    }

    /** The first loop over the hit's strips. */
    method CumulateAll(hit: HitValue, kind: Bits, id: int, ghost p: Plane)
      requires Allocated() && Holds(p) && Shaped(p) && PlaneHistory.Sound(p)
      requires Fits(hit, fNStrips, fNSamples)
      modifies this`fNOT, this`strips, Arrays()
      ensures Holds(DirectAll(p, hit, kind, id, |hit.signals|))
    {
      for j := 0 to |hit.signals|
        invariant Holds(DirectAll(p, hit, kind, id, j))
      {
        PlaneHistory.DirectKeepsIndex(p, hit, kind, id, j);
        assert FitsOne(hit.signals[j], fNStrips, fNSamples);
        CumulateDirect(hit.signals[j], hit, kind, id, DirectAll(p, hit, kind, id, j));
      }
    }

    /** The second loop: the signals the hit induces on strips farther along the readout. */
    method InduceAll(hit: HitValue, step: int, factor: real, ghost p: Plane)
      requires Allocated() && Holds(p) && Shaped(p) && PlaneHistory.Sound(p)
      requires Fits(hit, fNStrips, fNSamples) && factor > 0.0
      modifies this`fNOT, this`strips, Arrays()
      ensures Holds(InducedAll(p, hit, step, factor, |hit.signals|))
    {
      for j := 0 to |hit.signals|
        invariant Holds(InducedAll(p, hit, step, factor, j))
      {
        PlaneHistory.InducedKeepsIndex(p, hit, step, factor, j);
        assert FitsOne(hit.signals[j], fNStrips, fNSamples);
        CumulateInduced(hit.signals[j], hit, step, factor, InducedAll(p, hit, step, factor, j));
      }
    }

    method CumulateHit(hit: HitValue, kind: Bits, id: int, xtalk: CrossTalk, ghost p: Plane)
      requires Allocated() && Holds(p) && Shaped(p) && PlaneHistory.Sound(p)
      requires Fits(hit, fNStrips, fNSamples)
      modifies this`fNOT, this`strips, Arrays()
      ensures Holds(Cumulated(p, hit, kind, id, xtalk))
    {
      CumulateAll(hit, kind, id, p);
      if xtalk.On? && xtalk.factor > 0.0 {
        ghost var q := DirectAll(p, hit, kind, id, |hit.signals|);
        PlaneHistory.DirectKeepsIndex(p, hit, kind, id, |hit.signals|);
        InduceAll(hit, xtalk.step, xtalk.factor, q);
      }
    }

    /** Adds a hit to the plane. The drawn direction and factor of the cross talk are inputs.
        The hit shares no array with the plane, so it can be read out before anything is written. */
    method Cumulate(vv: GEMHit.GEMHit, kind: Bits, id: int, xtalk: CrossTalk)
      requires Allocated() && Valid() && vv.Valid() && Fits(vv.Value(), fNStrips, fNSamples)
      requires vv.Footprint() !! Arrays() + {this}
      modifies this`fNOT, this`strips, Arrays()
      ensures Valid()
      ensures View() == Cumulated(old(View()), old(vv.Value()), kind, id, xtalk)
    {
      var hit := vv.GetValue();
      ghost var p := View();
      PlaneHistory.CumulatedKeepsIndex(p, hit, kind, id, xtalk);
      CumulateHit(hit, kind, id, xtalk, p);
    }
  }

  /** `memset`, `TArrayI::Reset` and the clearing of a vector's elements. */
  method Fill<T>(a: array<T>, x: T)
    modifies a
    ensures forall i :: 0 <= i < a.Length ==> a[i] == x
  {
    for i := 0 to a.Length
      invariant forall j :: 0 <= j < i ==> a[j] == x
    {
      a[i] := x;
    }
  }
}
