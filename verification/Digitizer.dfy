/** Building an event: every simulated hit leaves a cluster record, and its digitized signal
    goes to the two readout planes of its chamber together with the cluster's number. */
module Digitizer {
  import opened StripPlane
  import SimAuxi

  datatype Option<T> = None | Some(value: T)

  datatype Vector = Vector(x: real, y: real, z: real)

  /** The record of a hit. `fSize` and `fStart` tell, for each readout plane, how many strips
      its signal has and which is the first. */
  datatype Cluster = Cluster(fID: int, fPlane: int, fModule: int, fSource: int, fType: int, fTRID: int, fPID: int,
                             fHitpos: Vector, fCharge: real, fTime: real, fSize: (nat, nat), fStart: (int, int),
                             fXProj: (real, real))

  const PRIMARY_TYPE := 1
  const PRIMARY_SOURCE := 0

  /** A chamber's two readout planes. */
  datatype Chamber = Chamber(x: Plane, y: Plane)
  {
    ghost predicate Shaped() { StripPlane.Shaped(x) && StripPlane.Shaped(y) }

    function Plane(proj: nat): Plane
      requires proj < 2
    {
      if proj == 0 then x else y
    }
  }

  /** What the avalanche model made of a hit, one hit per readout plane. */
  datatype Avalanche = Avalanche(x: HitValue, y: HitValue, xtalkX: CrossTalk, xtalkY: CrossTalk)

  /** A simulated hit; `avalanche` is `None` when the model gave no signal. */
  datatype SimHit = SimHit(chamber: nat, entrance: Vector, exit: Vector, energy: real, particle: int, track: int, pid: int,
                           time: real, xproj: (real, real), avalanche: Option<Avalanche>)

  datatype HitData = HitData(source: int, hits: seq<SimHit>)

  /** Plane and module of each chamber. */
  type Ids = seq<(nat, nat)>

  datatype Event = Event(chambers: seq<Chamber>, clusters: seq<Cluster>, nSignal: nat)

  ghost predicate ShapedEvent(e: Event)
  {
    forall g :: 0 <= g < |e.chambers| ==> e.chambers[g].Shaped()
  }

  const MAX_SPREAD := 50.0

  function Distance(a: real, b: real): real { if a < b then b - a else a - b }

  predicate TooLong(h: SimHit)
  {
    Distance(h.entrance.x, h.exit.x) > MAX_SPREAD || Distance(h.entrance.y, h.exit.y) > MAX_SPREAD
  }

  /** The hits that are digitized: the chamber exists and the track segment is short. */
  predicate Taken(e: Event, h: SimHit)
  {
    h.chamber < |e.chambers| && !TooLong(h)
  }

  ghost predicate FitsChamber(h: SimHit, c: Chamber)
  {
    h.avalanche.Some? ==>
      && Fits(h.avalanche.value.x, |c.x.strips|, c.x.nSamples)
      && Fits(h.avalanche.value.y, |c.y.strips|, c.y.nSamples)
  }

  /** What the avalanche model guarantees of every hit. */
  ghost predicate Fitting(hits: seq<SimHit>, e: Event)
  {
    forall i :: 0 <= i < |hits| && Taken(e, hits[i]) ==> FitsChamber(hits[i], e.chambers[hits[i].chamber])
  }

  ghost predicate SameShape(e: Event, f: Event)
  {
    && |e.chambers| == |f.chambers|
    && forall g :: 0 <= g < |e.chambers| ==>
         && |e.chambers[g].x.strips| == |f.chambers[g].x.strips| && e.chambers[g].x.nSamples == f.chambers[g].x.nSamples
         && |e.chambers[g].y.strips| == |f.chambers[g].y.strips| && e.chambers[g].y.nSamples == f.chambers[g].y.nSamples
  }

  // ---- what one hit does ---------------------------------------------------------

  function SignalBit(h: SimHit): Bits { if h.particle == 1 then {0} else {1} }

  function Middle(a: Vector, b: Vector): Vector
  {
    Vector((a.x + b.x) / 2.0, (a.y + b.y) / 2.0, (a.z + b.z) / 2.0)
  }

  function FirstStrip(hit: HitValue): int
  {
    if hit.signals == [] then -1 else hit.signals[0].idx
  }

  /** The record of a hit; its number is a 16-bit integer. */
  function ClusterOf(ids: Ids, e: Event, source: int, h: SimHit): Cluster
    requires h.chamber < |ids|
  {
    var (sizes, starts) := match h.avalanche
      case None => ((0, 0), (0, 0))
      case Some(a) => ((|a.x.signals|, |a.y.signals|), (FirstStrip(a.x), FirstStrip(a.y)));
    Cluster(SimAuxi.ToShort(|e.clusters| + 1), ids[h.chamber].0, ids[h.chamber].1, source, h.particle, h.track, h.pid,
            Middle(h.entrance, h.exit), h.energy, h.time, sizes, starts, h.xproj)
  }

  function Struck(c: Chamber, h: SimHit, id: int): (r: Chamber)
    requires c.Shaped() && FitsChamber(h, c)
    ensures r.Shaped() && |r.x.strips| == |c.x.strips| && |r.y.strips| == |c.y.strips|
    ensures r.x.nSamples == c.x.nSamples && r.y.nSamples == c.y.nSamples
  {
    if h.avalanche.None? then c
    else
      var a := h.avalanche.value;
      Chamber(Cumulated(c.x, a.x, SignalBit(h), id, a.xtalkX), Cumulated(c.y, a.y, SignalBit(h), id, a.xtalkY))
  }

  function HitAdded(ids: Ids, e: Event, source: int, h: SimHit): (r: Event)
    requires ShapedEvent(e) && |ids| == |e.chambers| && (Taken(e, h) ==> FitsChamber(h, e.chambers[h.chamber]))
    ensures ShapedEvent(r) && SameShape(e, r)
  {
    if !Taken(e, h) then e
    else
      var clust := ClusterOf(ids, e, source, h);
      Event(e.chambers[h.chamber := Struck(e.chambers[h.chamber], h, clust.fID)], e.clusters + [clust],
            if clust.fType == PRIMARY_TYPE && source == PRIMARY_SOURCE then e.nSignal + 1 else e.nSignal)
  }

  function HitsAdded(ids: Ids, e: Event, data: HitData, n: nat): (r: Event)
    requires ShapedEvent(e) && |ids| == |e.chambers| && n <= |data.hits| && Fitting(data.hits, e)
    ensures ShapedEvent(r) && SameShape(e, r)
  {
    if n == 0 then e else HitAdded(ids, HitsAdded(ids, e, data, n - 1), data.source, data.hits[n - 1])
  }

  function Wiped(e: Event): (r: Event)
    ensures ShapedEvent(r) && SameShape(e, r)
  {
    Event(WipedChambers(e.chambers), [], 0)
  }

  function WipedChambers(cs: seq<Chamber>): (r: seq<Chamber>)
    ensures |r| == |cs| && forall g :: 0 <= g < |r| ==> r[g] == Chamber(Cleared(cs[g].x), Cleared(cs[g].y))
  {
    seq(|cs|, g requires 0 <= g < |cs| => Chamber(Cleared(cs[g].x), Cleared(cs[g].y)))
  }

  // ---- runs ----------------------------------------------------------------------

  datatype Op = Digitize(data: HitData) | AdditiveDigitize(data: HitData)

  ghost predicate Legal(ops: seq<Op>, e: Event)
  {
    forall i :: 0 <= i < |ops| ==> Fitting(ops[i].data.hits, e)
  }

  /** The event after `ops`, from an event as initialized. */
  function Run(ids: Ids, e: Event, ops: seq<Op>): (r: Event)
    requires ShapedEvent(e) && |ids| == |e.chambers| && Legal(ops, e)
    ensures ShapedEvent(r) && SameShape(e, r)
  {
    if ops == [] then Wiped(e)
    else
      var n := |ops| - 1;
      assert Legal(ops[..n], e);
      var before := Run(ids, e, ops[..n]);
      var from := if ops[n].Digitize? then Wiped(before) else before;
      HitsAdded(ids, from, ops[n].data, |ops[n].data.hits|)
  }

  // ---- cross references ----------------------------------------------------------

  const MAX_CLUSTERS := 32767

  ghost predicate Numbered(e: Event)
  {
    forall i :: 0 <= i < |e.clusters| ==> e.clusters[i].fID == i + 1
  }

  /** `id` is the number of a cluster of that plane and module. */
  ghost predicate NamesClusterOf(e: Event, id: int, plane: int, m: int)
  {
    && 1 <= id <= |e.clusters|
    && e.clusters[id - 1].fID == id && e.clusters[id - 1].fPlane == plane && e.clusters[id - 1].fModule == m
  }

  ghost predicate AllName(e: Event, p: Plane, at: (nat, nat))
  {
    forall s, id :: 0 <= s < |p.strips| && id in p.strips[s].clusters ==> NamesClusterOf(e, id, at.0, at.1)
  }

  /** Every cluster number stored on a strip names a cluster of that strip's chamber. */
  ghost predicate Linked(ids: Ids, e: Event)
    requires |ids| == |e.chambers|
  {
    forall g :: 0 <= g < |ids| ==> AllName(e, e.chambers[g].x, ids[g]) && AllName(e, e.chambers[g].y, ids[g])
  }

  /** A strip's list of clusters only ever grows, and only by the cluster being added. */
  ghost predicate Grows(p: Plane, q: Plane, id: int)
  {
    && |q.strips| == |p.strips|
    && (forall s, c :: 0 <= s < |p.strips| && c in q.strips[s].clusters ==> c in p.strips[s].clusters || c == id)
    && (forall s, c :: 0 <= s < |p.strips| && c in p.strips[s].clusters ==> c in q.strips[s].clusters)
  }

  lemma GrowsThrough(p: Plane, q: Plane, r: Plane, id: int)
    requires Grows(p, q, id) && Grows(q, r, id)
    ensures Grows(p, r, id)
  {
  }

  lemma PutGrows(p: Plane, i: nat, s: Strip, id: int)
    requires i < |p.strips| && (s.clusters == p.strips[i].clusters || s.clusters == p.strips[i].clusters + [id])
    ensures Grows(p, Put(p, i, s), id)
  {
  }

  lemma {:induction false} DirectGrows(p: Plane, hit: HitValue, kind: Bits, id: int, n: nat)
    requires StripPlane.Shaped(p) && Fits(hit, |p.strips|, p.nSamples) && n <= |hit.signals|
    ensures Grows(p, DirectAll(p, hit, kind, id, n), id)
  {
    if n > 0 {
      DirectGrows(p, hit, kind, id, n - 1);
      assert FitsOne(hit.signals[n - 1], |p.strips|, p.nSamples);
      DirectOneGrows(DirectAll(p, hit, kind, id, n - 1), hit.signals[n - 1], hit, kind, id);
      GrowsThrough(p, DirectAll(p, hit, kind, id, n - 1), DirectAll(p, hit, kind, id, n), id);
    }
  }

  lemma DirectOneGrows(p: Plane, g: Signal, hit: HitValue, kind: Bits, id: int)
    requires StripPlane.Shaped(p) && FitsOne(g, |p.strips|, p.nSamples)
    ensures Grows(p, DirectOne(p, g, hit, kind, id), id)
  {
    PutGrows(p, g.idx, Direct(p.strips[g.idx], g, hit.time, hit.total, kind, id), id);
  }

  lemma {:induction false} InducedGrows(p: Plane, hit: HitValue, step: int, factor: real, n: nat, id: int)
    requires StripPlane.Shaped(p) && Fits(hit, |p.strips|, p.nSamples) && n <= |hit.signals|
    ensures Grows(p, InducedAll(p, hit, step, factor, n), id)
  {
    if n > 0 {
      InducedGrows(p, hit, step, factor, n - 1, id);
      assert FitsOne(hit.signals[n - 1], |p.strips|, p.nSamples);
      InducedOneGrows(InducedAll(p, hit, step, factor, n - 1), hit.signals[n - 1], hit, step, factor, id);
      GrowsThrough(p, InducedAll(p, hit, step, factor, n - 1), InducedAll(p, hit, step, factor, n), id);
    }
  }

  lemma InducedOneGrows(p: Plane, g: Signal, hit: HitValue, step: int, factor: real, id: int)
    requires StripPlane.Shaped(p) && FitsOne(g, |p.strips|, p.nSamples)
    ensures Grows(p, InducedOne(p, g, hit, step, factor), id)
  {
    var i := g.idx + step;
    if 0 <= i < |p.strips| {
      PutGrows(p, i, Induced(p.strips[i], g, factor, Earlier(p.strips[g.idx].time, hit.time)), id);
    }
  }

  lemma CumulatedGrows(p: Plane, hit: HitValue, kind: Bits, id: int, xtalk: CrossTalk)
    requires StripPlane.Shaped(p) && Fits(hit, |p.strips|, p.nSamples)
    ensures Grows(p, Cumulated(p, hit, kind, id, xtalk), id)
  {
    var n := |hit.signals|;
    DirectGrows(p, hit, kind, id, n);
    if xtalk.On? && xtalk.factor > 0.0 {
      InducedGrows(DirectAll(p, hit, kind, id, n), hit, xtalk.step, xtalk.factor, n, id);
    }
  }

  lemma StillName(e: Event, f: Event, p: Plane, q: Plane, at: (nat, nat), id: int)
    requires e.clusters <= f.clusters && AllName(e, p, at) && Grows(p, q, id)
    requires NamesClusterOf(f, id, at.0, at.1) || q == p
    ensures AllName(f, q, at)
  {
    forall s, c | 0 <= s < |q.strips| && c in q.strips[s].clusters
      ensures NamesClusterOf(f, c, at.0, at.1)
    {
      if c in p.strips[s].clusters {
        assert NamesClusterOf(e, c, at.0, at.1);
      }
    }
  }

  lemma HitAddedLinked(ids: Ids, e: Event, source: int, h: SimHit)
    requires ShapedEvent(e) && |ids| == |e.chambers| && Taken(e, h) && FitsChamber(h, e.chambers[h.chamber])
    requires Linked(ids, e) && |e.clusters| < MAX_CLUSTERS
    ensures Linked(ids, HitAdded(ids, e, source, h))
  {
    var f := HitAdded(ids, e, source, h);
    var id := |f.clusters|;
    var c := h.chamber;
    assert NamesClusterOf(f, id, ids[c].0, ids[c].1);
    forall g | 0 <= g < |ids|
      ensures AllName(f, f.chambers[g].x, ids[g]) && AllName(f, f.chambers[g].y, ids[g])
    {
      if g == c && h.avalanche.Some? {
        var a := h.avalanche.value;
        CumulatedGrows(e.chambers[g].x, a.x, SignalBit(h), id, a.xtalkX);
        CumulatedGrows(e.chambers[g].y, a.y, SignalBit(h), id, a.xtalkY);
      }
      StillName(e, f, e.chambers[g].x, f.chambers[g].x, ids[g], id);
      StillName(e, f, e.chambers[g].y, f.chambers[g].y, ids[g], id);
    }
  }

  lemma NumberedNext(e: Event, f: Event)
    requires |f.clusters| == |e.clusters| + 1 && f.clusters[..|e.clusters|] == e.clusters
    requires f.clusters[|e.clusters|].fID == SimAuxi.ToShort(|e.clusters| + 1)
    requires Numbered(e) <==> |e.clusters| <= MAX_CLUSTERS
    ensures Numbered(f) <==> |f.clusters| <= MAX_CLUSTERS
  {
    if Numbered(f) {
      assert forall i :: 0 <= i < |e.clusters| ==> e.clusters[i] == f.clusters[i];
    } else if |f.clusters| <= MAX_CLUSTERS && Numbered(e) {
      assert Numbered(f);
    }
  }

  /** The numbering is right exactly while it fits 16 bits, and as long as it is, so are the
      references. */
  ghost predicate Referenced(ids: Ids, e: Event)
    requires |ids| == |e.chambers|
  {
    && (Numbered(e) <==> |e.clusters| <= MAX_CLUSTERS)
    && (|e.clusters| <= MAX_CLUSTERS ==> Linked(ids, e))
  }

  lemma HitAddedReferenced(ids: Ids, e: Event, source: int, h: SimHit)
    requires ShapedEvent(e) && |ids| == |e.chambers| && (Taken(e, h) ==> FitsChamber(h, e.chambers[h.chamber]))
    requires Referenced(ids, e)
    ensures Referenced(ids, HitAdded(ids, e, source, h))
  {
    if Taken(e, h) {
      if |e.clusters| < MAX_CLUSTERS {
        HitAddedLinked(ids, e, source, h);
      }
      NumberedNext(e, HitAdded(ids, e, source, h));
    }
  }

  lemma {:induction false} HitsAddedReferenced(ids: Ids, e: Event, data: HitData, n: nat)
    requires ShapedEvent(e) && |ids| == |e.chambers| && n <= |data.hits| && Fitting(data.hits, e)
    requires Referenced(ids, e)
    ensures Referenced(ids, HitsAdded(ids, e, data, n))
  {
    if n > 0 {
      HitsAddedReferenced(ids, e, data, n - 1);
      HitAddedReferenced(ids, HitsAdded(ids, e, data, n - 1), data.source, data.hits[n - 1]);
    }
  }

  lemma WipedReferenced(ids: Ids, e: Event)
    requires |ids| == |e.chambers|
    ensures Referenced(ids, Wiped(e))
  {
  }

  /** The event keeps one record for each hit taken, signal hits counted apart. */
  function TakenOf(e: Event, hits: seq<SimHit>, n: nat): seq<SimHit>
    requires n <= |hits|
  {
    if n == 0 then []
    else if Taken(e, hits[n - 1]) then TakenOf(e, hits, n - 1) + [hits[n - 1]]
    else TakenOf(e, hits, n - 1)
  }

  function CountSignal(hits: seq<SimHit>): nat
  {
    if hits == [] then 0
    else CountSignal(hits[..|hits| - 1]) + if hits[|hits| - 1].particle == 1 then 1 else 0
  }

  /** The record is the hit's: its particle, and the chamber it was in. */
  predicate Records(ids: Ids, c: Cluster, h: SimHit)
  {
    && h.chamber < |ids| && c.fPlane == ids[h.chamber].0 && c.fModule == ids[h.chamber].1
    && c.fPID == h.pid && c.fType == h.particle
  }

  lemma {:induction false} OneClusterPerHit(ids: Ids, e: Event, data: HitData, n: nat)
    requires ShapedEvent(e) && |ids| == |e.chambers| && n <= |data.hits| && Fitting(data.hits, e)
    ensures var f, taken := HitsAdded(ids, e, data, n), TakenOf(e, data.hits, n);
            && |f.clusters| == |e.clusters| + |taken| && e.clusters <= f.clusters
            && f.nSignal == e.nSignal + (if data.source == 0 then CountSignal(taken) else 0)
            && forall k :: 0 <= k < |taken| ==> Records(ids, f.clusters[|e.clusters| + k], taken[k])
  {
    if n > 0 {
      OneClusterPerHit(ids, e, data, n - 1);
      ClusterPerHit(ids, HitsAdded(ids, e, data, n - 1), data.source, data.hits[n - 1], TakenOf(e, data.hits, n - 1));
    }
  }

  lemma ClusterPerHit(ids: Ids, e: Event, source: int, h: SimHit, taken: seq<SimHit>)
    requires ShapedEvent(e) && |ids| == |e.chambers| && (Taken(e, h) ==> FitsChamber(h, e.chambers[h.chamber]))
    ensures var f := HitAdded(ids, e, source, h);
            if Taken(e, h) then
              && |f.clusters| == |e.clusters| + 1 && f.clusters[..|e.clusters|] == e.clusters
              && Records(ids, f.clusters[|e.clusters|], h)
              && f.nSignal - e.nSignal == (if source == 0 then CountSignal(taken + [h]) - CountSignal(taken) else 0)
            else f == e
  {
    assert (taken + [h])[..|taken|] == taken;
  }

  // ---- how many clusters a run records -------------------------------------------

  lemma {:induction false} TakenOfSame(e: Event, f: Event, hits: seq<SimHit>, n: nat)
    requires |e.chambers| == |f.chambers| && n <= |hits|
    ensures TakenOf(e, hits, n) == TakenOf(f, hits, n)
  {
    if n > 0 {
      TakenOfSame(e, f, hits, n - 1);
    }
  }

  /** The hits taken since the last `Digitize`. */
  function HitsOnRecord(e: Event, ops: seq<Op>): nat
  {
    if ops == [] then 0
    else
      var n := |ops| - 1;
      (if ops[n].Digitize? then 0 else HitsOnRecord(e, ops[..n])) + |TakenOf(e, ops[n].data.hits, |ops[n].data.hits|)|
  }

  lemma {:induction false} HitsOnRecordIs(ids: Ids, e: Event, ops: seq<Op>)
    requires ShapedEvent(e) && |ids| == |e.chambers| && Legal(ops, e)
    ensures |Run(ids, e, ops).clusters| == HitsOnRecord(e, ops)
  {
    if ops != [] {
      var n := |ops| - 1;
      assert Legal(ops[..n], e);
      HitsOnRecordIs(ids, e, ops[..n]);
      var before := Run(ids, e, ops[..n]);
      var from := if ops[n].Digitize? then Wiped(before) else before;
      OneClusterPerHit(ids, from, ops[n].data, |ops[n].data.hits|);
      TakenOfSame(e, from, ops[n].data.hits, |ops[n].data.hits|);
    }
  }

  /** Over any run: clusters carry their position as number exactly while no more than 32767
      hits have been taken since the last `Digitize`, and then every number stored on a strip
      names a cluster of that strip's own plane and module. */
  lemma RunReferenced(ids: Ids, e: Event, ops: seq<Op>)
    requires ShapedEvent(e) && |ids| == |e.chambers| && Legal(ops, e)
    ensures Numbered(Run(ids, e, ops)) <==> HitsOnRecord(e, ops) <= MAX_CLUSTERS
    ensures HitsOnRecord(e, ops) <= MAX_CLUSTERS ==> Linked(ids, Run(ids, e, ops))
  {
    StaysReferenced(ids, e, ops);
    HitsOnRecordIs(ids, e, ops);
  }

  lemma {:induction false} StaysReferenced(ids: Ids, e: Event, ops: seq<Op>)
    requires ShapedEvent(e) && |ids| == |e.chambers| && Legal(ops, e)
    ensures Referenced(ids, Run(ids, e, ops))
  {
    if ops == [] {
      WipedReferenced(ids, e);
    } else {
      var n := |ops| - 1;
      assert Legal(ops[..n], e);
      StaysReferenced(ids, e, ops[..n]);
      var before := Run(ids, e, ops[..n]);
      WipedReferenced(ids, before);
      var from := if ops[n].Digitize? then Wiped(before) else before;
      HitsAddedReferenced(ids, from, ops[n].data, |ops[n].data.hits|);
    }
  }

  // ---- beyond the last number ----------------------------------------------------

  /** The number that comes after 32767. */
  const WRAPPED := -32768

  /** A strip carries a number that names nothing. */
  ghost predicate Dangling(e: Event)
  {
    exists g, s :: Carries(e, g, s, WRAPPED)
  }

  ghost predicate Carries(e: Event, g: int, s: int, id: int)
  {
    0 <= g < |e.chambers| && 0 <= s < |e.chambers[g].x.strips| && id in e.chambers[g].x.strips[s].clusters
  }

  lemma DanglingBreaks(ids: Ids, e: Event)
    requires |ids| == |e.chambers| && Dangling(e)
    ensures !Linked(ids, e)
  {
    var g, s :| Carries(e, g, s, WRAPPED);
    assert !NamesClusterOf(e, WRAPPED, ids[g].0, ids[g].1);
  }

  /** The hit shows a signal in x. */
  ghost predicate Signals(h: SimHit)
  {
    h.avalanche.Some? && h.avalanche.value.x.signals != []
  }

  lemma {:induction false} DirectLeaves(p: Plane, hit: HitValue, kind: Bits, id: int, n: nat)
    requires StripPlane.Shaped(p) && Fits(hit, |p.strips|, p.nSamples) && 0 < n <= |hit.signals|
    ensures FitsOne(hit.signals[0], |p.strips|, p.nSamples)
    ensures id in DirectAll(p, hit, kind, id, n).strips[hit.signals[0].idx].clusters
  {
    assert FitsOne(hit.signals[0], |p.strips|, p.nSamples) && FitsOne(hit.signals[n - 1], |p.strips|, p.nSamples);
    if n > 1 {
      DirectLeaves(p, hit, kind, id, n - 1);
    } else {
      assert DirectAll(p, hit, kind, id, 0) == p;
    }
  }

  lemma CumulatedLeaves(p: Plane, hit: HitValue, kind: Bits, id: int, xtalk: CrossTalk)
    requires StripPlane.Shaped(p) && Fits(hit, |p.strips|, p.nSamples) && hit.signals != []
    ensures FitsOne(hit.signals[0], |p.strips|, p.nSamples)
    ensures id in Cumulated(p, hit, kind, id, xtalk).strips[hit.signals[0].idx].clusters
  {
    var n := |hit.signals|;
    DirectLeaves(p, hit, kind, id, n);
    if xtalk.On? && xtalk.factor > 0.0 {
      InducedGrows(DirectAll(p, hit, kind, id, n), hit, xtalk.step, xtalk.factor, n, id);
    }
  }

  /** The 32768th hit, if it shows a signal, leaves a number that names no cluster. */
  lemma OverflowDangles(ids: Ids, e: Event, source: int, h: SimHit)
    requires ShapedEvent(e) && |ids| == |e.chambers| && Taken(e, h) && FitsChamber(h, e.chambers[h.chamber])
    requires |e.clusters| == MAX_CLUSTERS && Signals(h)
    ensures Dangling(HitAdded(ids, e, source, h)) && !Linked(ids, HitAdded(ids, e, source, h))
  {
    var a, c, f := h.avalanche.value, e.chambers[h.chamber], HitAdded(ids, e, source, h);
    assert SimAuxi.ToShort(MAX_CLUSTERS + 1) == WRAPPED;
    CumulatedLeaves(c.x, a.x, SignalBit(h), WRAPPED, a.xtalkX);
    assert Carries(f, h.chamber, a.x.signals[0].idx, WRAPPED);
    DanglingBreaks(ids, f);
  }

  /** Nothing but clearing takes it off again. */
  lemma DanglingStays(ids: Ids, e: Event, source: int, h: SimHit)
    requires ShapedEvent(e) && |ids| == |e.chambers| && (Taken(e, h) ==> FitsChamber(h, e.chambers[h.chamber]))
    requires Dangling(e)
    ensures Dangling(HitAdded(ids, e, source, h))
  {
    var g, s :| Carries(e, g, s, WRAPPED);
    if Taken(e, h) && g == h.chamber && h.avalanche.Some? {
      var a := h.avalanche.value;
      CumulatedGrows(e.chambers[g].x, a.x, SignalBit(h), SimAuxi.ToShort(|e.clusters| + 1), a.xtalkX);
    }
    assert Carries(HitAdded(ids, e, source, h), g, s, WRAPPED);
  }

  ghost predicate AllSignal(hits: seq<SimHit>, e: Event)
  {
    forall i :: 0 <= i < |hits| && Taken(e, hits[i]) ==> Signals(hits[i])
  }

  ghost predicate DanglesWhenFull(e: Event)
  {
    |e.clusters| > MAX_CLUSTERS ==> Dangling(e)
  }

  lemma {:induction false} HitsAddedDangle(ids: Ids, e: Event, data: HitData, n: nat)
    requires ShapedEvent(e) && |ids| == |e.chambers| && n <= |data.hits| && Fitting(data.hits, e)
    requires AllSignal(data.hits, e) && DanglesWhenFull(e)
    ensures DanglesWhenFull(HitsAdded(ids, e, data, n))
  {
    if n > 0 {
      HitsAddedDangle(ids, e, data, n - 1);
      HitAddedDangles(ids, HitsAdded(ids, e, data, n - 1), data.source, data.hits[n - 1]);
    }
  }

  lemma HitAddedDangles(ids: Ids, e: Event, source: int, h: SimHit)
    requires ShapedEvent(e) && |ids| == |e.chambers| && (Taken(e, h) ==> FitsChamber(h, e.chambers[h.chamber]) && Signals(h))
    requires DanglesWhenFull(e)
    ensures DanglesWhenFull(HitAdded(ids, e, source, h))
  {
    if Dangling(e) {
      DanglingStays(ids, e, source, h);
    } else if Taken(e, h) && |e.clusters| == MAX_CLUSTERS {
      OverflowDangles(ids, e, source, h);
    }
  }

  lemma {:induction false} RunDangles(ids: Ids, e: Event, ops: seq<Op>)
    requires ShapedEvent(e) && |ids| == |e.chambers| && Legal(ops, e)
    requires forall i :: 0 <= i < |ops| ==> AllSignal(ops[i].data.hits, e)
    ensures DanglesWhenFull(Run(ids, e, ops))
  {
    if ops != [] {
      var n := |ops| - 1;
      assert Legal(ops[..n], e);
      RunDangles(ids, e, ops[..n]);
      var before := Run(ids, e, ops[..n]);
      var from := if ops[n].Digitize? then Wiped(before) else before;
      assert AllSignal(ops[n].data.hits, from) by {
        assert AllSignal(ops[n].data.hits, e);
      }
      HitsAddedDangle(ids, from, ops[n].data, |ops[n].data.hits|);
    }
  }

  /** When every hit taken shows a signal, the references hold exactly while no more than
      32767 hits have been taken since the last `Digitize`. */
  lemma {:induction false} RunLinkedIff(ids: Ids, e: Event, ops: seq<Op>)
    requires ShapedEvent(e) && |ids| == |e.chambers| && Legal(ops, e)
    requires forall i :: 0 <= i < |ops| ==> AllSignal(ops[i].data.hits, e)
    ensures Linked(ids, Run(ids, e, ops)) <==> HitsOnRecord(e, ops) <= MAX_CLUSTERS
  {
    RunReferenced(ids, e, ops);
    HitsOnRecordIs(ids, e, ops);
    RunDangles(ids, e, ops);
    if Dangling(Run(ids, e, ops)) {
      DanglingBreaks(ids, Run(ids, e, ops));
    }
  }
}
