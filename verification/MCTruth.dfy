/** The Monte Carlo truth of a strip: which track it belongs to, and a position and time that
    are averages over the clusters behind it. */
module MCTruth {
  import opened Numeric
  import opened StripPlane
  import opened Digitizer
  import opened TreeStrips

  datatype SignalInfo = SignalInfo(pid: int, tid: int)

  /** A cluster's position along the readout coordinate of projection `proj`; the module's
      offset counts in x only. */
  function PosOf(c: Cluster, proj: nat, offset: real): real
  {
    if proj == 0 then c.fXProj.0 + offset else c.fXProj.1
  }

  /** The last of the first `n` signal descriptions that matches, or -1. */
  function SignalID(c: Cluster, signals: seq<SignalInfo>, n: nat): (id: int)
    requires n <= |signals|
    ensures -1 <= id < n
    ensures id >= 0 ==> c.fType == PRIMARY_TYPE && c.fPID == signals[id].pid
    ensures forall k :: id < k < n ==> !(c.fType == PRIMARY_TYPE && c.fPID == signals[k].pid)
  {
    if n == 0 then -1
    else if c.fType == PRIMARY_TYPE && c.fPID == signals[n - 1].pid then n - 1
    else SignalID(c, signals, n - 1)
  }

  predicate IsSignal(c: Cluster, signals: seq<SignalInfo>)
  {
    SignalID(c, signals, |signals|) >= 0 && c.fSource == PRIMARY_SOURCE
  }

  function TidOf(c: Cluster, signals: seq<SignalInfo>): int
    requires IsSignal(c, signals)
  {
    signals[SignalID(c, signals, |signals|)].tid
  }

  datatype Setup = Setup(signals: seq<SignalInfo>, proj: nat, offset: real)

  // ---- the running sums ----------------------------------------------------------

  datatype Info = Info(fMCTrack: int, fMCPos: real, fMCTime: real, fContam: nat, nOverlapSignal: nat)

  function Start(): Info { Info(0, 0.0, 0.0, 0, 0) }

  /** One cluster: the first signal replaces what was there, later ones add to it, background
      adds as long as there is no track. */
  function Next(mc: Info, c: Cluster, s: Setup): Info
  {
    var pos := PosOf(c, s.proj, s.offset);
    if IsSignal(c, s.signals) then
      if mc.fMCTrack > 0 then
        mc.(fMCPos := mc.fMCPos + pos, fMCTime := mc.fMCTime + c.fTime, nOverlapSignal := mc.nOverlapSignal + 1)
      else
        Info(TidOf(c, s.signals), pos, c.fTime, mc.fContam, mc.nOverlapSignal + 1)
    else
      mc.(fContam := mc.fContam + 1, fMCPos := if mc.fMCTrack == 0 then mc.fMCPos + pos else mc.fMCPos)
  }

  function Accumulated(cs: seq<Cluster>, s: Setup): (mc: Info)
    ensures mc.fMCTrack != 0 ==> mc.nOverlapSignal > 0
  {
    if cs == [] then Start() else Next(Accumulated(cs[..|cs| - 1], s), cs[|cs| - 1], s)
  }

  function Mean(total: real, n: nat): real
    requires n > 0
  {
    total / n as real
  }

  lemma MeanOfOne(total: real)
    ensures Mean(total, 1) == total
  {
  }

  function Finished(mc: Info, stripTime: real): Info
    requires mc.fMCTrack != 0 ==> mc.nOverlapSignal > 0
  {
    if mc.fMCTrack == 0 then
      mc.(fMCPos := if mc.fContam > 1 then Mean(mc.fMCPos, mc.fContam) else mc.fMCPos, fMCTime := stripTime)
    else
      mc.(fMCPos := Mean(mc.fMCPos, mc.nOverlapSignal), fMCTime := Mean(mc.fMCTime, mc.nOverlapSignal))
  }

  // ---- what the averages are meant to be -----------------------------------------

  function SignalsOf(cs: seq<Cluster>, s: Setup): (r: seq<Cluster>)
    ensures forall i :: 0 <= i < |r| ==> r[i] in cs && IsSignal(r[i], s.signals)
  {
    if cs == [] then []
    else SignalsOf(cs[..|cs| - 1], s) + if IsSignal(cs[|cs| - 1], s.signals) then [cs[|cs| - 1]] else []
  }

  function BackgroundOf(cs: seq<Cluster>, s: Setup): (r: seq<Cluster>)
  {
    if cs == [] then []
    else BackgroundOf(cs[..|cs| - 1], s) + if IsSignal(cs[|cs| - 1], s.signals) then [] else [cs[|cs| - 1]]
  }

  function SumPos(cs: seq<Cluster>, s: Setup): real
  {
    if cs == [] then 0.0 else SumPos(cs[..|cs| - 1], s) + PosOf(cs[|cs| - 1], s.proj, s.offset)
  }

  function SumTime(cs: seq<Cluster>): real
  {
    if cs == [] then 0.0 else SumTime(cs[..|cs| - 1]) + cs[|cs| - 1].fTime
  }

  /** If signal clusters contribute to the strip, their mean position and time and the track of
      the first; otherwise the mean position of the background, and the strip's own time. */
  function Expected(cs: seq<Cluster>, s: Setup, stripTime: real): Info
  {
    var sig, bkg := SignalsOf(cs, s), BackgroundOf(cs, s);
    if sig != [] then
      Info(TidOf(sig[0], s.signals), Mean(SumPos(sig, s), |sig|), Mean(SumTime(sig), |sig|), |bkg|, |sig|)
    else
      Info(0, if bkg != [] then Mean(SumPos(bkg, s), |bkg|) else 0.0, stripTime, |bkg|, 0)
  }

  /** The track ids that a signal cluster can be given are positive. */
  ghost predicate PositiveTids(signals: seq<SignalInfo>)
  {
    forall k :: 0 <= k < |signals| && IsLast(signals, k) ==> signals[k].tid > 0
  }

  /** No later description shadows this one. */
  ghost predicate IsLast(signals: seq<SignalInfo>, k: nat)
    requires k < |signals|
  {
    forall j :: k < j < |signals| ==> signals[j].pid != signals[k].pid
  }

  lemma TidPositive(c: Cluster, signals: seq<SignalInfo>)
    requires PositiveTids(signals) && IsSignal(c, signals)
    ensures TidOf(c, signals) > 0
  {
    assert IsLast(signals, SignalID(c, signals, |signals|));
  }

  ghost predicate AllSignals(cs: seq<Cluster>, signals: seq<SignalInfo>)
  {
    forall i :: 0 <= i < |cs| ==> IsSignal(cs[i], signals)
  }

  /** `mc` has summed up these signal and background clusters. */
  ghost predicate Summed(mc: Info, sig: seq<Cluster>, bkg: seq<Cluster>, s: Setup)
    requires AllSignals(sig, s.signals)
  {
    && mc.nOverlapSignal == |sig| && mc.fContam == |bkg|
    && if sig == [] then mc.fMCTrack == 0 && mc.fMCPos == SumPos(bkg, s)
       else mc.fMCTrack == TidOf(sig[0], s.signals) > 0 && mc.fMCPos == SumPos(sig, s) && mc.fMCTime == SumTime(sig)
  }

  lemma NextSignal(mc: Info, sig: seq<Cluster>, bkg: seq<Cluster>, c: Cluster, s: Setup)
    requires AllSignals(sig, s.signals)
    requires Summed(mc, sig, bkg, s) && IsSignal(c, s.signals) && PositiveTids(s.signals)
    ensures Summed(Next(mc, c, s), sig + [c], bkg, s)
  {
    TidPositive(c, s.signals);
    assert (sig + [c])[..|sig|] == sig;
  }

  lemma NextBackground(mc: Info, sig: seq<Cluster>, bkg: seq<Cluster>, c: Cluster, s: Setup)
    requires AllSignals(sig, s.signals)
    requires Summed(mc, sig, bkg, s) && !IsSignal(c, s.signals)
    ensures Summed(Next(mc, c, s), sig, bkg + [c], s)
  {
    assert (bkg + [c])[..|bkg|] == bkg;
  }

  /** The running sums are right for any interleaving of signal and background. */
  lemma {:induction false} AccumulatedIs(cs: seq<Cluster>, s: Setup)
    requires PositiveTids(s.signals)
    ensures Summed(Accumulated(cs, s), SignalsOf(cs, s), BackgroundOf(cs, s), s)
  {
    if cs != [] {
      var before, c := cs[..|cs| - 1], cs[|cs| - 1];
      AccumulatedIs(before, s);
      var mc, sig, bkg := Accumulated(before, s), SignalsOf(before, s), BackgroundOf(before, s);
      if IsSignal(c, s.signals) {
        NextSignal(mc, sig, bkg, c, s);
        assert BackgroundOf(cs, s) == bkg;
      } else {
        NextBackground(mc, sig, bkg, c, s);
        assert SignalsOf(cs, s) == sig;
      }
    }
  }

  lemma {:induction false} MeansAreRight(cs: seq<Cluster>, s: Setup, stripTime: real)
    requires PositiveTids(s.signals)
    ensures Finished(Accumulated(cs, s), stripTime) == Expected(cs, s, stripTime)
  {
    AccumulatedIs(cs, s);
    if SignalsOf(cs, s) == [] {
      MeanOfOne(SumPos(BackgroundOf(cs, s), s));
    }
  }

  ghost predicate RightFor(cs: seq<Cluster>, s: Setup, stripTime: real)
  {
    Finished(Accumulated(cs, s), stripTime) == Expected(cs, s, stripTime)
  }

  /** The truth is right for all cluster lists exactly when those track ids are positive. */
  lemma TruthRightIff(s: Setup, stripTime: real)
    ensures PositiveTids(s.signals) <==> forall cs :: RightFor(cs, s, stripTime)
  {
    if PositiveTids(s.signals) {
      forall cs: seq<Cluster>
        ensures RightFor(cs, s, stripTime)
      {
        MeansAreRight(cs, s, stripTime);
      }
    } else {
      var k :| 0 <= k < |s.signals| && IsLast(s.signals, k) && s.signals[k].tid <= 0;
      var cs := TwoSignals(s, k);
      TwoSignalsWrong(s, k, stripTime);
      assert !RightFor(cs, s, stripTime);
    }
  }

  /** What is asserted after the loop. */
  ghost predicate AssertionHolds(cs: seq<Cluster>, s: Setup)
  {
    var mc := Accumulated(cs, s);
    cs == [] || mc.fMCTrack > 0 || mc.fContam > 0
  }

  /** The assertion holds for all cluster lists under the same condition. */
  lemma AssertionHoldsIff(s: Setup)
    ensures PositiveTids(s.signals) <==> forall cs :: AssertionHolds(cs, s)
  {
    if PositiveTids(s.signals) {
      forall cs: seq<Cluster>
        ensures AssertionHolds(cs, s)
      {
        AccumulatedIs(cs, s);
        OneKindOrTheOther(cs, s);
      }
    } else {
      var k :| 0 <= k < |s.signals| && IsLast(s.signals, k) && s.signals[k].tid <= 0;
      var c := At(s, k, 0.0);
      SignalAt(s, k, 0.0);
      assert [c][..0] == [];
      assert Accumulated([c], s) == Next(Start(), c, s);
      assert !AssertionHolds([c], s);
    }
  }

  lemma {:induction false} OneKindOrTheOther(cs: seq<Cluster>, s: Setup)
    ensures |SignalsOf(cs, s)| + |BackgroundOf(cs, s)| == |cs|
  {
    if cs != [] {
      OneKindOrTheOther(cs[..|cs| - 1], s);
    }
  }

  function At(s: Setup, k: nat, pos: real): Cluster
    requires k < |s.signals|
  {
    var x := if s.proj == 0 then pos - s.offset else pos;
    var origin := Vector(0.0, 0.0, 0.0);
    Cluster(1, 0, 0, PRIMARY_SOURCE, PRIMARY_TYPE, 0, s.signals[k].pid, origin, 0.0, 0.0, (0, 0), (0, 0), (x, x))
  }

  /** Two clusters of the same signal, at positions 1 and 0. */
  function TwoSignals(s: Setup, k: nat): seq<Cluster>
    requires k < |s.signals|
  {
    [At(s, k, 1.0), At(s, k, 0.0)]
  }

  lemma SignalAt(s: Setup, k: nat, pos: real)
    requires k < |s.signals| && IsLast(s.signals, k)
    ensures var c := At(s, k, pos);
            IsSignal(c, s.signals) && TidOf(c, s.signals) == s.signals[k].tid && PosOf(c, s.proj, s.offset) == pos
  {
    var c := At(s, k, pos);
    assert SignalID(c, s.signals, |s.signals|) == k by {
      FoundIfLast(c, s.signals, k, |s.signals|);
    }
  }

  lemma {:induction false} FoundIfLast(c: Cluster, signals: seq<SignalInfo>, k: nat, n: nat)
    requires k < n <= |signals| && IsLast(signals, k) && c.fType == PRIMARY_TYPE && c.fPID == signals[k].pid
    ensures SignalID(c, signals, n) == k
  {
    if k < n - 1 {
      FoundIfLast(c, signals, k, n - 1);
    }
  }

  /** With a track id that is not positive the second signal replaces the first. */
  lemma TwoSignalsAccumulated(a: Cluster, b: Cluster, s: Setup)
    requires IsSignal(a, s.signals) && IsSignal(b, s.signals)
    requires TidOf(a, s.signals) == TidOf(b, s.signals) <= 0
    ensures var mc := Accumulated([a, b], s);
            mc.fMCTrack == TidOf(b, s.signals) && mc.fMCPos == PosOf(b, s.proj, s.offset) && mc.fContam == 0 && mc.nOverlapSignal == 2
    ensures SignalsOf([a, b], s) == [a, b] && SumPos([a, b], s) == PosOf(a, s.proj, s.offset) + PosOf(b, s.proj, s.offset)
  {
    var cs := [a, b];
    assert cs[..1] == [a] && [a][..0] == [];
    assert Accumulated([a], s) == Next(Accumulated([], s), a, s);
    assert Accumulated(cs, s) == Next(Accumulated([a], s), b, s);
    assert SignalsOf([a], s) == SignalsOf([], s) + [a];
    assert SignalsOf(cs, s) == SignalsOf([a], s) + [b];
    assert SumPos([a], s) == SumPos([], s) + PosOf(a, s.proj, s.offset);
    assert SumPos(cs, s) == SumPos([a], s) + PosOf(b, s.proj, s.offset);
  }

  lemma TwoSignalsWrong(s: Setup, k: nat, stripTime: real)
    requires k < |s.signals| && IsLast(s.signals, k) && s.signals[k].tid <= 0
    ensures !RightFor(TwoSignals(s, k), s, stripTime)
  {
    SignalAt(s, k, 1.0);
    SignalAt(s, k, 0.0);
    TwoSignalsAccumulated(At(s, k, 1.0), At(s, k, 0.0), s);
  }

  // ---- the lookup ----------------------------------------------------------------

  /** The looked-up truth, and for each cluster behind the strip what is known of it. */
  datatype HitInfo = HitInfo(info: Info, fSigType: Bits, fMCCharge: real, vClusterID: seq<int>, vCluster: seq<ClusterInfo>)

  datatype ClusterInfo = ClusterInfo(source: int, peakTime: real, pos: Vector, charge: real, stripWeight: Double, adc: seq<int>)

  const N_TIME_SAMPLES: nat := 6

  /** The strip has a weight and at least six samples for each of its clusters. */
  ghost predicate Readable(strip: DigiStrip)
  {
    && |strip.fStripWeightInCluster| == |strip.fClusters| && |strip.fClusterRatio| >= N_TIME_SAMPLES
    && forall its :: 0 <= its < N_TIME_SAMPLES ==> |strip.fClusterRatio[its]| == |strip.fClusters|
  }

  /** So has every strip of an event whose planes take six samples or more. */
  lemma EmittedReadable(noise: Noise, ids: Ids, cs: seq<Chamber>, i: nat)
    requires |ids| == |cs| && i < |Emitted(noise, ids, cs, |cs|)|
    requires forall g :: 0 <= g < |cs| ==> cs[g].Shaped() && cs[g].x.nSamples >= N_TIME_SAMPLES && cs[g].y.nSamples >= N_TIME_SAMPLES
    ensures Readable(Emitted(noise, ids, cs, |cs|)[i])
  {
    var g, proj, chan := EmittedAt(noise, ids, cs, |cs|, i);
    assert cs[g].Shaped();
    var p := cs[g].Plane(proj);
    assert ShapedStrip(p.strips[chan], p.nSamples);
  }

  function SamplesOf(strip: DigiStrip, i: nat, n: nat): (adc: seq<int>)
    requires Readable(strip) && i < |strip.fClusters| && n <= N_TIME_SAMPLES
    ensures |adc| == n && forall its :: 0 <= its < n ==> adc[its] == strip.fClusterRatio[its][i]
  {
    if n == 0 then [] else SamplesOf(strip, i, n - 1) + [strip.fClusterRatio[n - 1][i]]
  }

  function InfoOf(c: Cluster, strip: DigiStrip, i: nat): ClusterInfo
    requires Readable(strip) && i < |strip.fClusters|
  {
    ClusterInfo(c.fSource, c.fTime, c.fHitpos, c.fCharge, strip.fStripWeightInCluster[i], SamplesOf(strip, i, N_TIME_SAMPLES))
  }

  /** What is told of cluster `c`, the strip's `i`th. */
  ghost predicate Describes(d: ClusterInfo, c: Cluster, strip: DigiStrip, i: nat)
    requires Readable(strip) && i < |strip.fClusters|
  {
    && d.source == c.fSource && d.peakTime == c.fTime && d.pos == c.fHitpos && d.charge == c.fCharge
    && d.stripWeight == strip.fStripWeightInCluster[i]
    && |d.adc| == 6 && forall its :: 0 <= its < 6 ==> d.adc[its] == strip.fClusterRatio[its][i]
  }

  /** The clusters behind a strip. */
  function Behind(e: Event, ids: seq<int>): (cs: seq<Cluster>)
    requires forall i :: 0 <= i < |ids| ==> 1 <= ids[i] <= |e.clusters|
    ensures |cs| == |ids| && forall i :: 0 <= i < |ids| ==> cs[i] == e.clusters[ids[i] - 1]
  {
    seq(|ids|, i requires 0 <= i < |ids| => e.clusters[ids[i] - 1])
  }

  /** Struck by cross talk (bit 2), and neither by a primary (bit 0) nor another particle (bit 1). */
  predicate PurelyInduced(kind: Bits): (r: bool)
    ensures r <==> 2 in kind && 0 !in kind && 1 !in kind
  {
    INDUCED_STRIP in kind && 0 !in kind && 1 !in kind
  }

  lemma NumbersInRange(e: Event, strip: DigiStrip)
    requires ReferencesHold(e, strip)
    ensures forall i :: 0 <= i < |strip.fClusters| ==> 1 <= strip.fClusters[i] <= |e.clusters|
  {
    forall i | 0 <= i < |strip.fClusters|
      ensures 1 <= strip.fClusters[i] <= |e.clusters|
    {
      assert NamesClusterOf(e, strip.fClusters[i], strip.channel.plane, strip.channel.m);
    }
  }

  method GetSBSMCHitInfo(e: Event, strip: DigiStrip, signals: seq<SignalInfo>, offset: real, stripPos: real) returns (mc: HitInfo)
    requires ReferencesHold(e, strip) && Readable(strip)
    ensures PurelyInduced(strip.fSigType) ==> mc == HitInfo(Info(0, stripPos, strip.fTime1, 0, 0), strip.fSigType, 0.0, [], [])
    ensures !PurelyInduced(strip.fSigType) ==>
            && mc.fSigType == strip.fSigType && mc.fMCCharge == strip.fCharge
            && (forall i :: 0 <= i < |strip.fClusters| ==> 1 <= strip.fClusters[i] <= |e.clusters|)
            && var s, cs := Setup(signals, strip.channel.proj, offset), Behind(e, strip.fClusters);
               && mc.info == Finished(Accumulated(cs, s), strip.fTime1)
               && |mc.vClusterID| == |mc.vCluster| == |cs|
               && forall i :: 0 <= i < |cs| ==> mc.vClusterID[i] == strip.fClusters[i] - 1 && Describes(mc.vCluster[i], cs[i], strip, i)
  {
    if PurelyInduced(strip.fSigType) {
      return HitInfo(Info(0, stripPos, strip.fTime1, 0, 0), strip.fSigType, 0.0, [], []);
    }
    NumbersInRange(e, strip);
    var s := Setup(signals, strip.channel.proj, offset);
    var info := AddClusters(e, strip.fClusters, s);
    var vClusterID, vCluster := ListClusters(e, strip);
    mc := HitInfo(Finished(info, strip.fTime1), strip.fSigType, strip.fCharge, vClusterID, vCluster);
  }

  /** The part of the cluster loop that lists the clusters. */
  method ListClusters(e: Event, strip: DigiStrip) returns (vClusterID: seq<int>, vCluster: seq<ClusterInfo>)
    requires Readable(strip) && forall i :: 0 <= i < |strip.fClusters| ==> 1 <= strip.fClusters[i] <= |e.clusters|
    ensures |vClusterID| == |vCluster| == |strip.fClusters|
    ensures forall i :: 0 <= i < |strip.fClusters| ==>
              vClusterID[i] == strip.fClusters[i] - 1 && Describes(vCluster[i], e.clusters[strip.fClusters[i] - 1], strip, i)
  {
    vClusterID, vCluster := [], [];
    for i := 0 to |strip.fClusters|
      invariant |vClusterID| == |vCluster| == i
      invariant forall k :: 0 <= k < i ==>
                  vClusterID[k] == strip.fClusters[k] - 1 && Describes(vCluster[k], e.clusters[strip.fClusters[k] - 1], strip, k)
    {
      var iclust := strip.fClusters[i] - 1;
      vClusterID, vCluster := vClusterID + [iclust], vCluster + [InfoOf(e.clusters[iclust], strip, i)];
    }
  }

  /** The part that sums them up. */
  method AddClusters(e: Event, ids: seq<int>, s: Setup) returns (info: Info)
    requires forall i :: 0 <= i < |ids| ==> 1 <= ids[i] <= |e.clusters|
    ensures info == Accumulated(Behind(e, ids), s)
  {
    ghost var cs := Behind(e, ids);
    info := Start();
    for i := 0 to |ids|
      invariant info == Accumulated(cs[..i], s)
    {
      assert cs[..i + 1][..i] == cs[..i];
      info := AddCluster(info, e.clusters[ids[i] - 1], s);
    }
    assert cs[..|cs|] == cs;
  }

  method AddCluster(mc: Info, c: Cluster, s: Setup) returns (r: Info)
    ensures r == Next(mc, c, s)
  {
    r := mc;
    var signalID := -1;
    for ii := 0 to |s.signals|
      invariant signalID == SignalID(c, s.signals, ii)
    {
      if c.fType == PRIMARY_TYPE && c.fPID == s.signals[ii].pid {
        signalID := ii;
      }
    }
    if signalID >= 0 && c.fSource == PRIMARY_SOURCE {
      if r.fMCTrack > 0 {
        r := r.(fMCPos := r.fMCPos + PosOf(c, s.proj, s.offset), fMCTime := r.fMCTime + c.fTime);
      } else {
        r := r.(fMCTrack := s.signals[signalID].tid, fMCPos := PosOf(c, s.proj, s.offset), fMCTime := c.fTime);
      }
      r := r.(nOverlapSignal := r.nOverlapSignal + 1);
    } else {
      r := r.(fContam := r.fContam + 1);
      if r.fMCTrack == 0 {
        r := r.(fMCPos := r.fMCPos + PosOf(c, s.proj, s.offset));
      }
    }
  }
}
