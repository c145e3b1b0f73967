/** The strips written to the event: every strip of every plane, chamber by chamber, under the
    plane, module, projection and channel the decoder turns into a hardware address. */
module TreeStrips {
  import opened Numeric
  import opened StripPlane
  import opened Digitizer
  import opened Readout
  import DBManager

  const MC_MAXSAMP: nat := 10

  const SATURATION := 4000

  datatype DigiStrip = DigiStrip(channel: Channel, fSigType: Bits, fCharge: real, fTime1: real, fADC: seq<int>,
                                 fClusters: seq<int>, fStripWeightInCluster: seq<Double>, fClusterRatio: seq<seq<int>>)

  /** The pedestal noise drawn for chamber, projection, channel and sample. */
  type Noise = (nat, nat, nat, nat) -> real

  /** A sample with its noise, cut off at saturation. Noise may make it negative. */
  function Noisy(sample: int, draw: real): (adc: int)
    ensures adc <= SATURATION
    ensures draw == 0.0 && sample <= SATURATION ==> adc == sample
  {
    var adc := Trunc(sample as real + draw);
    if adc > SATURATION then SATURATION else adc
  }

  function FirstSamples<T>(s: seq<T>): (r: seq<T>)
    ensures |r| <= MC_MAXSAMP && r <= s && (|s| <= MC_MAXSAMP ==> r == s)
  {
    if |s| > MC_MAXSAMP then s[..MC_MAXSAMP] else s
  }

  function NoisySamples(noise: Noise, g: nat, proj: nat, chan: nat, adc: seq<int>): (r: seq<int>)
    ensures |r| == |adc| && forall ss :: 0 <= ss < |adc| ==> r[ss] == Noisy(adc[ss], noise(g, proj, chan, ss))
  {
    seq(|adc|, ss requires 0 <= ss < |adc| => Noisy(adc[ss], noise(g, proj, chan, ss)))
  }

  function Digi(noise: Noise, g: nat, at: (nat, nat), proj: nat, chan: nat, s: StripPlane.Strip): DigiStrip
  {
    DigiStrip(Channel(at.0, at.1, proj, chan), s.kind, s.charge, s.time, NoisySamples(noise, g, proj, chan, FirstSamples(s.adc)),
              s.clusters, s.weights, FirstSamples(s.clusterADC))
  }

  /** The first `n` strips of a plane. */
  function StripsOf(noise: Noise, g: nat, p: Plane, at: (nat, nat), proj: nat, n: nat): (r: seq<DigiStrip>)
    requires n <= |p.strips|
    ensures |r| == n
  {
    if n == 0 then [] else StripsOf(noise, g, p, at, proj, n - 1) + [Digi(noise, g, at, proj, n - 1, p.strips[n - 1])]
  }

  lemma {:induction false} StripsAt(noise: Noise, g: nat, p: Plane, at: (nat, nat), proj: nat, n: nat, k: nat)
    requires k < n <= |p.strips|
    ensures StripsOf(noise, g, p, at, proj, n)[k] == Digi(noise, g, at, proj, k, p.strips[k])
  {
    if k < n - 1 {
      StripsAt(noise, g, p, at, proj, n - 1, k);
    }
  }

  function OfChamber(noise: Noise, g: nat, c: Chamber, at: (nat, nat)): seq<DigiStrip>
  {
    StripsOf(noise, g, c.x, at, 0, |c.x.strips|) + StripsOf(noise, g, c.y, at, 1, |c.y.strips|)
  }

  function Flat<T>(ss: seq<seq<T>>): seq<T>
  {
    if ss == [] then [] else Flat(ss[..|ss| - 1]) + ss[|ss| - 1]
  }

  lemma {:induction false} FlatAt<T>(ss: seq<seq<T>>, i: nat) returns (g: nat, k: nat)
    requires i < |Flat(ss)|
    ensures g < |ss| && k < |ss[g]| && Flat(ss)[i] == ss[g][k]
  {
    var before := Flat(ss[..|ss| - 1]);
    if i < |before| {
      g, k := FlatAt(ss[..|ss| - 1], i);
    } else {
      g, k := |ss| - 1, i - |before|;
    }
  }

  lemma {:induction false} FlatHas<T>(ss: seq<seq<T>>, g: nat, k: nat) returns (i: nat)
    requires g < |ss| && k < |ss[g]|
    ensures i < |Flat(ss)| && Flat(ss)[i] == ss[g][k]
  {
    if g < |ss| - 1 {
      i := FlatHas(ss[..|ss| - 1], g, k);
    } else {
      i := |Flat(ss[..|ss| - 1])| + k;
    }
  }

  function PerChamber(noise: Noise, ids: Ids, cs: seq<Chamber>, n: nat): (r: seq<seq<DigiStrip>>)
    requires |ids| == |cs| && n <= |cs|
    ensures |r| == n && forall g :: 0 <= g < n ==> r[g] == OfChamber(noise, g, cs[g], ids[g])
  {
    seq(n, g requires 0 <= g < n => OfChamber(noise, g, cs[g], ids[g]))
  }

  /** What is written for the first `n` chambers. */
  function Emitted(noise: Noise, ids: Ids, cs: seq<Chamber>, n: nat): seq<DigiStrip>
    requires |ids| == |cs| && n <= |cs|
  {
    Flat(PerChamber(noise, ids, cs, n))
  }

  lemma EmittedNext(noise: Noise, ids: Ids, cs: seq<Chamber>, n: nat)
    requires |ids| == |cs| && n < |cs|
    ensures Emitted(noise, ids, cs, n + 1) == Emitted(noise, ids, cs, n) + OfChamber(noise, n, cs[n], ids[n])
  {
    assert PerChamber(noise, ids, cs, n + 1)[..n] == PerChamber(noise, ids, cs, n);
  }

  /** `d` is strip `chan` of projection `proj` in chamber `g`. */
  ghost predicate IsStrip(noise: Noise, ids: Ids, cs: seq<Chamber>, g: int, proj: int, chan: int, d: DigiStrip)
    requires |ids| == |cs|
  {
    && 0 <= g < |cs| && 0 <= proj < 2 && 0 <= chan < |cs[g].Plane(proj).strips|
    && d == Digi(noise, g, ids[g], proj, chan, cs[g].Plane(proj).strips[chan])
  }

  /** Position `k` within a chamber: the x strips come first. */
  lemma ChamberAt(noise: Noise, g: nat, c: Chamber, at: (nat, nat), k: nat) returns (proj: nat, chan: nat)
    requires k < |OfChamber(noise, g, c, at)|
    ensures proj < 2 && chan < |c.Plane(proj).strips| && k == Position(c, proj, chan)
    ensures OfChamber(noise, g, c, at)[k] == Digi(noise, g, at, proj, chan, c.Plane(proj).strips[chan])
  {
    var w := |c.x.strips|;
    proj, chan := if k < w then 0 else 1, if k < w then k else k - w;
    StripsAt(noise, g, c.Plane(proj), at, proj, |c.Plane(proj).strips|, chan);
  }

  function Position(c: Chamber, proj: nat, chan: nat): nat
  {
    if proj == 0 then chan else |c.x.strips| + chan
  }

  lemma ChamberHas(noise: Noise, g: nat, c: Chamber, at: (nat, nat), proj: nat, chan: nat)
    requires proj < 2 && chan < |c.Plane(proj).strips|
    ensures Position(c, proj, chan) < |OfChamber(noise, g, c, at)|
    ensures OfChamber(noise, g, c, at)[Position(c, proj, chan)] == Digi(noise, g, at, proj, chan, c.Plane(proj).strips[chan])
  {
    StripsAt(noise, g, c.Plane(proj), at, proj, |c.Plane(proj).strips|, chan);
  }

  lemma EmittedAt(noise: Noise, ids: Ids, cs: seq<Chamber>, n: nat, i: nat) returns (g: nat, proj: nat, chan: nat)
    requires |ids| == |cs| && n <= |cs| && i < |Emitted(noise, ids, cs, n)|
    ensures g < n && IsStrip(noise, ids, cs, g, proj, chan, Emitted(noise, ids, cs, n)[i])
  {
    var k;
    g, k := FlatAt(PerChamber(noise, ids, cs, n), i);
    proj, chan := ChamberAt(noise, g, cs[g], ids[g], k);
  }

  /** What is written of strip `chan` of projection `proj` in chamber `g`: its address, and
      exactly what the plane holds; of at most ten samples, each with the noise drawn for it,
      truncated and cut off at 4000. */
  ghost predicate Written(noise: Noise, ids: Ids, cs: seq<Chamber>, g: nat, proj: nat, chan: nat, d: DigiStrip)
    requires |ids| == |cs|
  {
    && g < |cs| && proj < 2 && chan < |(if proj == 0 then cs[g].x else cs[g].y).strips|
    && d.channel.plane == ids[g].0 && d.channel.m == ids[g].1 && d.channel.proj == proj && d.channel.chan == chan
    && var s := (if proj == 0 then cs[g].x else cs[g].y).strips[chan];
       && d.fSigType == s.kind && d.fCharge == s.charge && d.fTime1 == s.time
       && d.fClusters == s.clusters && d.fStripWeightInCluster == s.weights
       && |d.fADC| == (if |s.adc| > 10 then 10 else |s.adc|)
       && |d.fClusterRatio| == (if |s.clusterADC| > 10 then 10 else |s.clusterADC|)
       && (forall ss :: 0 <= ss < |d.fADC| ==> IsReading(d.fADC[ss], s.adc[ss] as real + noise(g, proj, chan, ss)))
       && forall ss :: 0 <= ss < |d.fClusterRatio| ==> d.fClusterRatio[ss] == s.clusterADC[ss]
  }

  /** `adc` is `v` without its fraction, but never more than 4000. */
  predicate IsReading(adc: int, v: real)
  {
    if v >= 4001.0 then adc == 4000
    else if v >= 0.0 then adc as real <= v < adc as real + 1.0
    else adc as real - 1.0 < v <= adc as real && adc <= 0
  }

  lemma DigiIsWritten(noise: Noise, ids: Ids, cs: seq<Chamber>, g: nat, proj: nat, chan: nat)
    requires |ids| == |cs| && g < |cs| && proj < 2 && chan < |cs[g].Plane(proj).strips|
    ensures Written(noise, ids, cs, g, proj, chan, Digi(noise, g, ids[g], proj, chan, cs[g].Plane(proj).strips[chan]))
  {
    var s := cs[g].Plane(proj).strips[chan];
    assert FirstSamples(s.adc) <= s.adc && FirstSamples(s.clusterADC) <= s.clusterADC;
    forall ss: nat | ss < |FirstSamples(s.adc)|
      ensures IsReading(Noisy(s.adc[ss], noise(g, proj, chan, ss)), s.adc[ss] as real + noise(g, proj, chan, ss))
    {
    }
  }

  /** Everything written is a strip of a chamber's plane, written as it is. */
  lemma EmittedIs(noise: Noise, ids: Ids, cs: seq<Chamber>, i: nat) returns (g: nat, proj: nat, chan: nat)
    requires |ids| == |cs| && i < |Emitted(noise, ids, cs, |cs|)|
    ensures Written(noise, ids, cs, g, proj, chan, Emitted(noise, ids, cs, |cs|)[i])
  {
    g, proj, chan := EmittedAt(noise, ids, cs, |cs|, i);
    DigiIsWritten(noise, ids, cs, g, proj, chan);
  }

  lemma EmittedComplete(noise: Noise, ids: Ids, cs: seq<Chamber>, n: nat, g: nat, proj: nat, chan: nat) returns (i: nat)
    requires |ids| == |cs| && n <= |cs| && g < n && proj < 2 && chan < |cs[g].Plane(proj).strips|
    ensures i < |Emitted(noise, ids, cs, n)|
    ensures Emitted(noise, ids, cs, n)[i] == Digi(noise, g, ids[g], proj, chan, cs[g].Plane(proj).strips[chan])
  {
    ChamberHas(noise, g, cs[g], ids[g], proj, chan);
    i := FlatHas(PerChamber(noise, ids, cs, n), g, Position(cs[g], proj, chan));
  }

  ghost predicate DistinctIds(ids: Ids)
  {
    forall g, h :: 0 <= g < h < |ids| ==> ids[g] != ids[h]
  }

  /** No channel is listed twice. */
  ghost predicate Once(ds: seq<DigiStrip>)
  {
    forall i, j :: 0 <= i < j < |ds| ==> ds[i].channel != ds[j].channel
  }

  ghost predicate Apart(a: seq<DigiStrip>, b: seq<DigiStrip>)
  {
    forall i, j :: 0 <= i < |a| && 0 <= j < |b| ==> a[i].channel != b[j].channel
  }

  lemma AppendOnce(a: seq<DigiStrip>, b: seq<DigiStrip>)
    requires Once(a) && Once(b) && Apart(a, b)
    ensures Once(a + b)
  {
  }

  lemma ChamberOnce(noise: Noise, g: nat, c: Chamber, at: (nat, nat))
    ensures Once(OfChamber(noise, g, c, at))
  {
    var ds := OfChamber(noise, g, c, at);
    forall i, j | 0 <= i < j < |ds|
      ensures ds[i].channel != ds[j].channel
    {
      var proj, chan := ChamberAt(noise, g, c, at, i);
      var proj', chan' := ChamberAt(noise, g, c, at, j);
    }
  }

  lemma ChambersApart(noise: Noise, ids: Ids, cs: seq<Chamber>, g: nat, h: nat)
    requires |ids| == |cs| && g < h < |cs| && DistinctIds(ids)
    ensures Apart(OfChamber(noise, g, cs[g], ids[g]), OfChamber(noise, h, cs[h], ids[h]))
  {
    var a, b := OfChamber(noise, g, cs[g], ids[g]), OfChamber(noise, h, cs[h], ids[h]);
    forall i, j | 0 <= i < |a| && 0 <= j < |b|
      ensures a[i].channel != b[j].channel
    {
      var proj, chan := ChamberAt(noise, g, cs[g], ids[g], i);
      var proj', chan' := ChamberAt(noise, h, cs[h], ids[h], j);
      assert ids[g] != ids[h];
    }
  }

  lemma {:induction false} FlatApart(ss: seq<seq<DigiStrip>>, b: seq<DigiStrip>)
    requires forall g :: 0 <= g < |ss| ==> Apart(ss[g], b)
    ensures Apart(Flat(ss), b)
  {
    if ss != [] {
      FlatApart(ss[..|ss| - 1], b);
    }
  }

  lemma {:induction false} FlatOnce(ss: seq<seq<DigiStrip>>)
    requires forall g :: 0 <= g < |ss| ==> Once(ss[g])
    requires forall g, h :: 0 <= g < h < |ss| ==> Apart(ss[g], ss[h])
    ensures Once(Flat(ss))
  {
    if ss != [] {
      FlatOnce(ss[..|ss| - 1]);
      FlatApart(ss[..|ss| - 1], ss[|ss| - 1]);
      AppendOnce(Flat(ss[..|ss| - 1]), ss[|ss| - 1]);
    }
  }

  /** No channel is written twice. */
  lemma EmittedOnce(noise: Noise, ids: Ids, cs: seq<Chamber>, n: nat)
    requires |ids| == |cs| && n <= |cs| && DistinctIds(ids)
    ensures Once(Emitted(noise, ids, cs, n))
  {
    var ss := PerChamber(noise, ids, cs, n);
    forall g | 0 <= g < n
      ensures Once(ss[g])
    {
      ChamberOnce(noise, g, cs[g], ids[g]);
    }
    forall g, h | 0 <= g < h < n
      ensures Apart(ss[g], ss[h])
    {
      ChambersApart(noise, ids, cs, g, h);
    }
    FlatOnce(ss);
  }

  // ---- back from the address -----------------------------------------------------

  function Channels(ds: seq<DigiStrip>): (r: seq<Channel>)
    ensures |r| == |ds| && forall i :: 0 <= i < |ds| ==> r[i] == ds[i].channel
  {
    seq(|ds|, i requires 0 <= i < |ds| => ds[i].channel)
  }

  /** `ids` is the numbering of the modules: chamber `g` is module number `g`. */
  ghost predicate Numbers(l: Layout, ids: Ids)
  {
    && |ids| == DBManager.Before(l.nModule, |l.nModule|)
    && forall g :: 0 <= g < |ids| ==> DBManager.Names(l.nModule, g, ids[g].0, ids[g].1)
  }

  /** Chambers labelled from the loaded numbering are numbered that way. */
  lemma LoadedNumbers(db: DBManager.DBManager, l: Layout, ids: Ids)
    requires db.Stores(l.nModule, DBManager.Before(l.nModule, |l.nModule|))
    requires |ids| == DBManager.Before(l.nModule, |l.nModule|)
    requires forall g :: 0 <= g < |ids| ==> ids[g].0 == db.GetPlaneID(g) && ids[g].1 == db.GetModuleID(g)
    ensures Numbers(l, ids)
  {
    DBManager.NumberingIsBijective(db, l.nModule);
    forall g | 0 <= g < |ids|
      ensures DBManager.Names(l.nModule, g, ids[g].0, ids[g].1)
    {
      assert DBManager.Names(l.nModule, g, db.fmIgemtoPlane[g], db.fmIgemtoModule[g]);
    }
  }

  ghost function LengthOf(l: Layout, cs: seq<Chamber>, plane: nat, m: nat, proj: nat): nat
    requires |cs| == DBManager.Before(l.nModule, |l.nModule|)
  {
    if IsReadout(l, plane, m, proj) then
      DBManager.BeforeMonotone(l.nModule, plane, |l.nModule|);
      |cs[DBManager.Number(l.nModule, plane, m)].Plane(proj).strips|
    else 0
  }

  ghost function LengthsOf(l: Layout, cs: seq<Chamber>): Lengths
    requires |cs| == DBManager.Before(l.nModule, |l.nModule|)
  {
    (plane, m, proj) => LengthOf(l, cs, plane, m, proj)
  }

  lemma NumberedIdsDistinct(l: Layout, ids: Ids)
    requires Numbers(l, ids)
    ensures DistinctIds(ids)
  {
    forall g, h | 0 <= g < h < |ids|
      ensures ids[g] != ids[h]
    {
      assert DBManager.Names(l.nModule, g, ids[g].0, ids[g].1) && DBManager.Names(l.nModule, h, ids[h].0, ids[h].1);
    }
  }

  ghost predicate ChambersFilled(cs: seq<Chamber>)
  {
    forall g :: 0 <= g < |cs| ==> |cs[g].x.strips| > 0 && |cs[g].y.strips| > 0
  }

  lemma {:induction false} EmittedIsReadout(noise: Noise, l: Layout, ids: Ids, cs: seq<Chamber>, i: nat)
    requires l.Valid() && Numbers(l, ids) && |ids| == |cs| && i < |Emitted(noise, ids, cs, |cs|)|
    ensures HasStrip(l, LengthsOf(l, cs), Emitted(noise, ids, cs, |cs|)[i].channel)
  {
    var g, proj, chan := EmittedAt(noise, ids, cs, |cs|, i);
    assert DBManager.Names(l.nModule, g, ids[g].0, ids[g].1);
  }

  lemma {:induction false} ReadoutIsEmitted(noise: Noise, l: Layout, ids: Ids, cs: seq<Chamber>, c: Channel) returns (i: nat)
    requires l.Valid() && Numbers(l, ids) && |ids| == |cs| && HasStrip(l, LengthsOf(l, cs), c)
    ensures i < |Emitted(noise, ids, cs, |cs|)| && Emitted(noise, ids, cs, |cs|)[i].channel == c
  {
    DBManager.BeforeMonotone(l.nModule, c.plane, |l.nModule|);
    var g := DBManager.Number(l.nModule, c.plane, c.m);
    assert DBManager.Names(l.nModule, g, ids[g].0, ids[g].1);
    DBManager.NumberOrder(l.nModule, c.plane, c.m, ids[g].0, ids[g].1);
    DBManager.NumberOrder(l.nModule, ids[g].0, ids[g].1, c.plane, c.m);
    i := EmittedComplete(noise, ids, cs, |cs|, g, c.proj, c.chan);
  }

  /** The channels of an event's strips: all readouts of the layout, each channel once. */
  ghost predicate ListsReadouts(l: Layout, n: Lengths, channels: seq<Channel>)
  {
    && (forall i :: 0 <= i < |channels| ==> HasStrip(l, n, channels[i]))
    && (forall c :: HasStrip(l, n, c) ==> c in channels)
    && (forall i, j :: 0 <= i < j < |channels| ==> channels[i] != channels[j])
  }

  lemma {:induction false} EmittedListsReadouts(noise: Noise, l: Layout, ids: Ids, cs: seq<Chamber>)
    requires l.Valid() && Numbers(l, ids) && |ids| == |cs|
    ensures ListsReadouts(l, LengthsOf(l, cs), Channels(Emitted(noise, ids, cs, |cs|)))
  {
    var channels, n := Channels(Emitted(noise, ids, cs, |cs|)), LengthsOf(l, cs);
    forall i | 0 <= i < |channels|
      ensures HasStrip(l, n, channels[i])
    {
      EmittedIsReadout(noise, l, ids, cs, i);
    }
    forall c | HasStrip(l, n, c)
      ensures c in channels
    {
      var i := ReadoutIsEmitted(noise, l, ids, cs, c);
      assert channels[i] == c;
    }
    NumberedIdsDistinct(l, ids);
    EmittedOnce(noise, ids, cs, |cs|);
  }

  lemma FreshIffKeysDistinct(l: Layout, n: Lengths, channels: seq<Channel>)
    requires l.Valid() && ListsReadouts(l, n, channels)
    ensures InLayout(l, channels) && (AllFresh(l, channels, |channels|) <==> KeysDistinct(l, n))
  {
    if AllFresh(l, channels, |channels|) {
      forall c, d | HasStrip(l, n, c) && HasStrip(l, n, d) && Key(l, c) == Key(l, d)
        ensures c == d
      {
        var i :| 0 <= i < |channels| && channels[i] == c;
        var j :| 0 <= j < |channels| && channels[j] == d;
      }
    }
  }

  /** Every strip of an event finds itself again through its hardware address exactly when
      slots have channels enough and the planes' slots are apart. */
  lemma EveryStripFindsItselfIff(noise: Noise, l: Layout, ids: Ids, cs: seq<Chamber>, fStripMap: map<int, nat>)
    requires l.Valid() && Numbers(l, ids) && |ids| == |cs| && ChambersFilled(cs)
    requires var channels := Channels(Emitted(noise, ids, cs, |cs|));
             InLayout(l, channels) && MapsToFirst(l, channels, |channels|, fStripMap)
    ensures ReturnsOwn(l, Channels(Emitted(noise, ids, cs, |cs|)), fStripMap) <==>
            SlotsSuffice(l, LengthsOf(l, cs)) && PlanesApart(l)
  {
    EmittedListsReadouts(noise, l, ids, cs);
    forall plane, m, proj | IsReadout(l, plane, m, proj)
      ensures LengthsOf(l, cs)(plane, m, proj) > 0
    {
      DBManager.BeforeMonotone(l.nModule, plane, |l.nModule|);
    }
    FindsItselfIff(l, LengthsOf(l, cs), Channels(Emitted(noise, ids, cs, |cs|)), fStripMap);
  }

  lemma FindsItselfIff(l: Layout, n: Lengths, channels: seq<Channel>, fStripMap: map<int, nat>)
    requires l.Valid() && ListsReadouts(l, n, channels)
    requires forall plane, m, proj :: IsReadout(l, plane, m, proj) ==> n(plane, m, proj) > 0
    requires InLayout(l, channels) && MapsToFirst(l, channels, |channels|, fStripMap)
    ensures ReturnsOwn(l, channels, fStripMap) <==> SlotsSuffice(l, n) && PlanesApart(l)
  {
    FreshIffKeysDistinct(l, n, channels);
    RoundTripIff(l, channels, fStripMap);
    KeysDistinctIff(l, n);
  }

  // ---- what the decoder asserts --------------------------------------------------

  /** Each cluster number on a written strip names a cluster of the strip's plane and module. */
  ghost predicate ReferencesHold(e: Event, d: DigiStrip)
  {
    forall id :: id in d.fClusters ==> NamesClusterOf(e, id, d.channel.plane, d.channel.m)
  }

  lemma DecoderAssertionsHold(noise: Noise, ids: Ids, e: Event, i: nat)
    requires |ids| == |e.chambers| && Linked(ids, e) && i < |Emitted(noise, ids, e.chambers, |ids|)|
    ensures ReferencesHold(e, Emitted(noise, ids, e.chambers, |ids|)[i])
  {
    var g, proj, chan := EmittedAt(noise, ids, e.chambers, |ids|, i);
    assert AllName(e, e.chambers[g].Plane(proj), ids[g]);
  }
}
