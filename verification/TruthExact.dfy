/** The looked-up truth in terms of what the clusters record: which clusters count as signal,
    the average position and time as sums of their entries, and what does not show. */
module TruthExact {
  import opened RealAlgebra
  import opened Sums
  import opened StripPlane
  import opened Digitizer
  import opened MCTruth

  function XProj(c: Cluster): real { c.fXProj.0 }

  function YProj(c: Cluster): real { c.fXProj.1 }

  function Time(c: Cluster): real { c.fTime }

  /** A cluster counts as signal exactly when it is of the signal file, of type 1, and of a
      particle some description names; the last such description gives its track. */
  lemma {:induction false} SignalIff(c: Cluster, signals: seq<SignalInfo>)
    ensures IsSignal(c, signals) <==>
              c.fSource == 0 && c.fType == 1 && exists k :: 0 <= k < |signals| && signals[k].pid == c.fPID
    ensures forall k :: 0 <= k < |signals| && IsLast(signals, k) && signals[k].pid == c.fPID && IsSignal(c, signals) ==>
              TidOf(c, signals) == signals[k].tid
  {
    var id := SignalID(c, signals, |signals|);
    if id >= 0 {
      assert signals[id].pid == c.fPID;
    }
  }

  /** The sum of the positions as the clusters record them: of the x projections, and the offset
      once for each cluster, on an x strip; of the y projections alone on a y strip. */
  function RecordedSum(cs: seq<Cluster>, s: Setup): real
  {
    if s.proj == 0 then Sum(cs, XProj) + |cs| as real * s.offset else Sum(cs, YProj)
  }

  lemma {:induction false} PositionsAddUp(cs: seq<Cluster>, s: Setup)
    ensures SumPos(cs, s) == RecordedSum(cs, s)
  {
    if cs != [] {
      var n, c := |cs| - 1, cs[|cs| - 1];
      PositionsAddUp(cs[..n], s);
      assert XProj(c) == c.fXProj.0 && YProj(c) == c.fXProj.1;
      Dist(s.offset, n as real, 1.0);
      assert |cs| as real == n as real + 1.0;
    }
  }

  lemma {:induction false} TimesAddUp(cs: seq<Cluster>)
    ensures SumTime(cs) == Sum(cs, Time)
  {
    if cs != [] {
      TimesAddUp(cs[..|cs| - 1]);
      assert Time(cs[|cs| - 1]) == cs[|cs| - 1].fTime;
    }
  }

  predicate IsAverage(mean: real, n: nat, total: real)
  {
    mean * n as real == total
  }

  lemma MeanIsAverage(mean: real, n: nat, total: real, sum: real)
    requires n > 0 && mean == Mean(total, n) && total == sum
    ensures IsAverage(mean, n, sum)
  {
  }

  /** The clusters the position is taken from: the signal ones if there are any. */
  function Used(cs: seq<Cluster>, s: Setup): seq<Cluster>
  {
    if SignalsOf(cs, s) != [] then SignalsOf(cs, s) else BackgroundOf(cs, s)
  }

  /** The looked-up position is the average over those clusters: of their x projections plus
      the module's offset on an x strip, of their y projections on a y strip. */
  lemma {:induction false} PositionIsAverage(cs: seq<Cluster>, s: Setup, stripTime: real)
    requires PositiveTids(s.signals)
    ensures var used, pos := Used(cs, s), Finished(Accumulated(cs, s), stripTime).fMCPos;
            if used == [] then pos == 0.0 else IsAverage(pos, |used|, RecordedSum(used, s))
  {
    PositionIsMean(cs, s, stripTime);
    PositionsAddUp(Used(cs, s), s);
    if Used(cs, s) != [] {
      MeanIsAverage(Finished(Accumulated(cs, s), stripTime).fMCPos, |Used(cs, s)|,
                    SumPos(Used(cs, s), s), RecordedSum(Used(cs, s), s));
    }
  }

  lemma {:induction false} PositionIsMean(cs: seq<Cluster>, s: Setup, stripTime: real)
    requires PositiveTids(s.signals)
    ensures Finished(Accumulated(cs, s), stripTime).fMCPos ==
            if Used(cs, s) == [] then 0.0 else Mean(SumPos(Used(cs, s), s), |Used(cs, s)|)
  {
    MeansAreRight(cs, s, stripTime);
  }

  /** The looked-up time is the average over the signal clusters, or else the strip's own, and
      the track is that of the first signal cluster. */
  lemma {:induction false} TimeIsAverage(cs: seq<Cluster>, s: Setup, stripTime: real)
    requires PositiveTids(s.signals)
    ensures var sig, mc := SignalsOf(cs, s), Finished(Accumulated(cs, s), stripTime);
            if sig == [] then mc.fMCTime == stripTime && mc.fMCTrack == 0
            else IsAverage(mc.fMCTime, |sig|, Sum(sig, Time)) && mc.fMCTrack == TidOf(sig[0], s.signals)
  {
    MeansAreRight(cs, s, stripTime);
    var sig := SignalsOf(cs, s);
    TimesAddUp(sig);
    if sig != [] {
      MeanIsAverage(Mean(SumTime(sig), |sig|), |sig|, SumTime(sig), Sum(sig, Time));
    }
  }

  /** The same clusters but for what they record of the other readout coordinate. */
  ghost predicate SameBut(cs: seq<Cluster>, cs': seq<Cluster>, proj: nat)
  {
    && |cs| == |cs'|
    && forall i :: 0 <= i < |cs| ==>
         && cs'[i] == cs[i].(fXProj := cs'[i].fXProj)
         && if proj == 0 then cs'[i].fXProj.0 == cs[i].fXProj.0 else cs'[i].fXProj.1 == cs[i].fXProj.1
  }

  /** No change of the y projections shows on an x strip, and no change of the x projections or
      of the offset on a y strip. */
  lemma {:induction false} OtherCoordinateUnseen(cs: seq<Cluster>, cs': seq<Cluster>, s: Setup, s': Setup, stripTime: real)
    requires SameBut(cs, cs', s.proj) && s'.proj == s.proj && s'.signals == s.signals && (s.proj == 0 ==> s'.offset == s.offset)
    ensures Finished(Accumulated(cs, s), stripTime) == Finished(Accumulated(cs', s'), stripTime)
  {
    SumsAgree(cs, cs', s, s');
  }

  lemma {:induction false} SumsAgree(cs: seq<Cluster>, cs': seq<Cluster>, s: Setup, s': Setup)
    requires SameBut(cs, cs', s.proj) && s'.proj == s.proj && s'.signals == s.signals && (s.proj == 0 ==> s'.offset == s.offset)
    ensures Accumulated(cs, s) == Accumulated(cs', s')
  {
    if cs != [] {
      var n := |cs| - 1;
      SumsAgree(cs[..n], cs'[..n], s, s');
      NextAgrees(Accumulated(cs[..n], s), cs[n], cs'[n], s, s');
    }
  }

  lemma NextAgrees(mc: Info, c: Cluster, c': Cluster, s: Setup, s': Setup)
    requires SameBut([c], [c'], s.proj) && s'.proj == s.proj && s'.signals == s.signals && (s.proj == 0 ==> s'.offset == s.offset)
    ensures Next(mc, c, s) == Next(mc, c', s')
  {
    assert c == [c][0] && c' == [c'][0];
    SameSignal(c, c', s.signals);
    assert PosOf(c, s.proj, s.offset) == PosOf(c', s'.proj, s'.offset);
  }

  lemma {:induction false} SameSignal(c: Cluster, c': Cluster, signals: seq<SignalInfo>)
    requires c' == c.(fXProj := c'.fXProj)
    ensures IsSignal(c, signals) == IsSignal(c', signals)
    ensures IsSignal(c, signals) ==> TidOf(c, signals) == TidOf(c', signals)
  {
    SameID(c, c', signals, |signals|);
  }

  lemma {:induction false} SameID(c: Cluster, c': Cluster, signals: seq<SignalInfo>, n: nat)
    requires c' == c.(fXProj := c'.fXProj) && n <= |signals|
    ensures SignalID(c, signals, n) == SignalID(c', signals, n)
  {
    if n > 0 {
      SameID(c, c', signals, n - 1);
    }
  }
}
