/** What a run leaves on record of its hits, field by field, and how a record's sizes and
    starts agree with what the hit left on the strips. */
module ClusterRecords {
  import opened StripPlane
  import opened Digitizer
  import PlaneHistory
  import StripRecords
  import SimAuxi

  // ---- the records ---------------------------------------------------------------

  /** Strips of one plane: how many show the hit's signal, and which is the first. */
  ghost predicate Spans(size: nat, start: int, hit: HitValue)
  {
    size == |hit.signals| && start == if hit.signals == [] then -1 else hit.signals[0].idx
  }

  ghost predicate IsRecord(ids: Ids, c: Cluster, source: int, h: SimHit)
  {
    && h.chamber < |ids| && c.fPlane == ids[h.chamber].0 && c.fModule == ids[h.chamber].1
    && c.fSource == source && c.fType == h.particle && c.fTRID == h.track && c.fPID == h.pid
    && 2.0 * c.fHitpos.x == h.entrance.x + h.exit.x && 2.0 * c.fHitpos.y == h.entrance.y + h.exit.y
    && 2.0 * c.fHitpos.z == h.entrance.z + h.exit.z
    && c.fCharge == h.energy && c.fTime == h.time && c.fXProj == h.xproj
    && match h.avalanche
       case None => c.fSize == (0, 0) && c.fStart == (0, 0)
       case Some(a) => Spans(c.fSize.0, c.fStart.0, a.x) && Spans(c.fSize.1, c.fStart.1, a.y)
  }

  lemma RecordIs(ids: Ids, e: Event, source: int, h: SimHit)
    requires h.chamber < |ids|
    ensures IsRecord(ids, ClusterOf(ids, e, source, h), source, h)
  {
  }

  /** Which hits are taken. */
  lemma TakenIff(e: Event, h: SimHit)
    ensures Taken(e, h) <==>
              && h.chamber < |e.chambers|
              && -50.0 <= h.entrance.x - h.exit.x <= 50.0 && -50.0 <= h.entrance.y - h.exit.y <= 50.0
  {
  }

  /** The hits taken since the last `Digitize`, each with the source of its data. */
  function HitsTaken(e: Event, ops: seq<Op>): seq<(int, SimHit)>
  {
    if ops == [] then []
    else
      var n := |ops| - 1;
      (if ops[n].Digitize? then [] else HitsTaken(e, ops[..n])) + FromData(e, ops[n].data, |ops[n].data.hits|)
  }

  function FromData(e: Event, data: HitData, n: nat): seq<(int, SimHit)>
    requires n <= |data.hits|
  {
    if n == 0 then []
    else FromData(e, data, n - 1) + if Taken(e, data.hits[n - 1]) then [(data.source, data.hits[n - 1])] else []
  }

  /** One record per hit taken, in order. */
  ghost predicate Recorded(ids: Ids, clusters: seq<Cluster>, taken: seq<(int, SimHit)>)
  {
    && |clusters| == |taken|
    && forall k :: 0 <= k < |taken| ==> IsRecord(ids, clusters[k], taken[k].0, taken[k].1)
  }

  lemma {:induction false} HitsAddedRecorded(ids: Ids, e: Event, f: Event, data: HitData, n: nat, taken: seq<(int, SimHit)>)
    requires ShapedEvent(e) && |ids| == |e.chambers| == |f.chambers| && n <= |data.hits| && Fitting(data.hits, e)
    requires Recorded(ids, e.clusters, taken)
    ensures Recorded(ids, HitsAdded(ids, e, data, n).clusters, taken + FromData(f, data, n))
  {
    if n == 0 {
      assert taken + [] == taken;
    } else {
      var before, h, soFar := HitsAdded(ids, e, data, n - 1), data.hits[n - 1], taken + FromData(f, data, n - 1);
      HitsAddedRecorded(ids, e, f, data, n - 1, taken);
      HitRecorded(ids, before, data.source, h, soFar);
      assert taken + FromData(f, data, n) == if Taken(f, h) then soFar + [(data.source, h)] else soFar;
    }
  }

  lemma HitRecorded(ids: Ids, e: Event, source: int, h: SimHit, taken: seq<(int, SimHit)>)
    requires ShapedEvent(e) && |ids| == |e.chambers| && (Taken(e, h) ==> FitsChamber(h, e.chambers[h.chamber]))
    requires Recorded(ids, e.clusters, taken)
    ensures Recorded(ids, HitAdded(ids, e, source, h).clusters, if Taken(e, h) then taken + [(source, h)] else taken)
  {
    if Taken(e, h) {
      RecordIs(ids, e, source, h);
      assert HitAdded(ids, e, source, h).clusters == e.clusters + [ClusterOf(ids, e, source, h)];
    }
  }

  /** In every reachable state the records are those of the hits taken since the last
      `Digitize`, in order and field by field. */
  lemma {:induction false} RunRecords(ids: Ids, e: Event, ops: seq<Op>)
    requires ShapedEvent(e) && |ids| == |e.chambers| && Legal(ops, e)
    ensures Recorded(ids, Run(ids, e, ops).clusters, HitsTaken(e, ops))
  {
    if ops != [] {
      var n := |ops| - 1;
      assert Legal(ops[..n], e);
      RunRecords(ids, e, ops[..n]);
      var before := Run(ids, e, ops[..n]);
      var from := if ops[n].Digitize? then Wiped(before) else before;
      HitsAddedRecorded(ids, from, e, ops[n].data, |ops[n].data.hits|,
                        if ops[n].Digitize? then [] else HitsTaken(e, ops[..n]));
    }
  }

  // ---- a record and its strips ---------------------------------------------------

  function StripsHit(hit: HitValue): (s: seq<int>)
    ensures |s| == |hit.signals| && forall j :: 0 <= j < |s| ==> s[j] == hit.signals[j].idx
  {
    seq(|hit.signals|, j requires 0 <= j < |hit.signals| => hit.signals[j].idx)
  }

  /** The strips whose list of clusters went from `p` to `q` by exactly this number. */
  function Joined(p: Plane, q: Plane, id: int): set<int>
    requires |q.strips| == |p.strips|
  {
    set s | 0 <= s < |p.strips| && q.strips[s].clusters == p.strips[s].clusters + [id]
  }

  lemma {:induction false} DirectJoins(p: Plane, hit: HitValue, kind: Bits, id: int, n: nat, i: nat)
    requires Shaped(p) && Fits(hit, |p.strips|, p.nSamples) && n <= |hit.signals| && i < |p.strips|
    requires PlaneHistory.Distinct(StripsHit(hit))
    ensures DirectAll(p, hit, kind, id, n).strips[i].clusters ==
            if StripRecords.HasSignal(hit, i, n) then p.strips[i].clusters + [id] else p.strips[i].clusters
  {
    if n > 0 {
      DirectJoins(p, hit, kind, id, n - 1, i);
      LastJoins(p, hit, kind, id, n, i);
      StripRecords.HasSignalNext(hit, i, n - 1);
      OnceOnly(hit, n - 1);
    }
  }

  lemma LastJoins(p: Plane, hit: HitValue, kind: Bits, id: int, n: nat, i: nat)
    requires Shaped(p) && Fits(hit, |p.strips|, p.nSamples) && 0 < n <= |hit.signals| && i < |p.strips|
    ensures var was := DirectAll(p, hit, kind, id, n - 1).strips[i].clusters;
            DirectAll(p, hit, kind, id, n).strips[i].clusters == if hit.signals[n - 1].idx == i then was + [id] else was
  {
    assert FitsOne(hit.signals[n - 1], |p.strips|, p.nSamples);
  }

  lemma OnceOnly(hit: HitValue, m: nat)
    requires m < |hit.signals| && PlaneHistory.Distinct(StripsHit(hit))
    ensures !StripRecords.HasSignal(hit, hit.signals[m].idx, m)
  {
  }

  lemma {:induction false} InducedJoins(p: Plane, hit: HitValue, step: int, factor: real, n: nat, i: nat)
    requires Shaped(p) && Fits(hit, |p.strips|, p.nSamples) && n <= |hit.signals| && i < |p.strips|
    ensures InducedAll(p, hit, step, factor, n).strips[i].clusters == p.strips[i].clusters
  {
    if n > 0 {
      InducedJoins(p, hit, step, factor, n - 1, i);
    }
  }

  /** Exactly the strips of the hit get the number, each once; the others keep their lists. */
  lemma {:induction false} CumulatedJoins(p: Plane, hit: HitValue, kind: Bits, id: int, xtalk: CrossTalk)
    requires Shaped(p) && Fits(hit, |p.strips|, p.nSamples) && PlaneHistory.Distinct(StripsHit(hit))
    ensures var q := Cumulated(p, hit, kind, id, xtalk);
            && (forall i :: i in Joined(p, q, id) <==> i in StripsHit(hit)) && |Joined(p, q, id)| == |hit.signals|
            && forall i :: 0 <= i < |p.strips| && i !in StripsHit(hit) ==> q.strips[i].clusters == p.strips[i].clusters
  {
    var q, n := Cumulated(p, hit, kind, id, xtalk), |hit.signals|;
    forall i | 0 <= i < |p.strips|
      ensures q.strips[i].clusters == if i in StripsHit(hit) then p.strips[i].clusters + [id] else p.strips[i].clusters
    {
      StripJoins(p, hit, kind, id, xtalk, i);
    }
    forall i | i in StripsHit(hit)
      ensures 0 <= i < |p.strips|
    {
      var j :| 0 <= j < n && StripsHit(hit)[j] == i;
      assert FitsOne(hit.signals[j], |p.strips|, p.nSamples);
    }
    assert Joined(p, q, id) == PlaneHistory.Elements(StripsHit(hit));
    PlaneHistory.DistinctSize(StripsHit(hit));
  }

  lemma {:induction false} StripJoins(p: Plane, hit: HitValue, kind: Bits, id: int, xtalk: CrossTalk, i: nat)
    requires Shaped(p) && Fits(hit, |p.strips|, p.nSamples) && PlaneHistory.Distinct(StripsHit(hit)) && i < |p.strips|
    ensures Cumulated(p, hit, kind, id, xtalk).strips[i].clusters ==
            if i in StripsHit(hit) then p.strips[i].clusters + [id] else p.strips[i].clusters
  {
    var n := |hit.signals|;
    DirectJoins(p, hit, kind, id, n, i);
    if i in StripsHit(hit) {
      var j :| 0 <= j < n && StripsHit(hit)[j] == i;
    }
    if xtalk.On? && xtalk.factor > 0.0 {
      InducedJoins(DirectAll(p, hit, kind, id, n), hit, xtalk.step, xtalk.factor, n, i);
    }
  }

  /** The plane went from `p` to `q` as the record says: `size` strips got the number, the
      first of them in the hit's own order is `start`, and all of them show the type bit. */
  ghost predicate Agrees(p: Plane, q: Plane, id: int, size: nat, start: int, bit: nat)
    requires |q.strips| == |p.strips|
  {
    && |Joined(p, q, id)| == size && (if size == 0 then start == -1 else start in Joined(p, q, id))
    && forall s :: 0 <= s < |p.strips| ==>
         (s in Joined(p, q, id) ==> bit in q.strips[s].kind)
         && (s !in Joined(p, q, id) ==> q.strips[s].clusters == p.strips[s].clusters)
  }

  lemma {:induction false} CumulatedAgrees(p: Plane, hit: HitValue, id: int, xtalk: CrossTalk, bit: nat)
    requires Shaped(p) && Fits(hit, |p.strips|, p.nSamples) && PlaneHistory.Distinct(StripsHit(hit))
    ensures Agrees(p, Cumulated(p, hit, {bit}, id, xtalk), id, |hit.signals|,
                   if hit.signals == [] then -1 else hit.signals[0].idx, bit)
  {
    CumulatedJoins(p, hit, {bit}, id, xtalk);
    var q := Cumulated(p, hit, {bit}, id, xtalk);
    if hit.signals != [] {
      assert StripsHit(hit)[0] in StripsHit(hit);
    }
    forall s | s in Joined(p, q, id)
      ensures bit in q.strips[s].kind
    {
      var j :| 0 <= j < |hit.signals| && StripsHit(hit)[j] == s;
      BitShows(p, hit, id, xtalk, bit, j);
    }
  }

  lemma {:induction false} BitShows(p: Plane, hit: HitValue, id: int, xtalk: CrossTalk, bit: nat, j: nat)
    requires Shaped(p) && Fits(hit, |p.strips|, p.nSamples) && j < |hit.signals|
    ensures 0 <= hit.signals[j].idx < |p.strips|
    ensures bit in Cumulated(p, hit, {bit}, id, xtalk).strips[hit.signals[j].idx].kind
  {
    assert FitsOne(hit.signals[j], |p.strips|, p.nSamples);
    DirectShows(p, hit, id, bit, |hit.signals|, j);
    if xtalk.On? && xtalk.factor > 0.0 {
      InducedKeepsBits(DirectAll(p, hit, {bit}, id, |hit.signals|), hit, xtalk.step, xtalk.factor, |hit.signals|,
                       hit.signals[j].idx, bit);
    }
  }

  lemma {:induction false} DirectShows(p: Plane, hit: HitValue, id: int, bit: nat, n: nat, j: nat)
    requires Shaped(p) && Fits(hit, |p.strips|, p.nSamples) && j < n <= |hit.signals|
    ensures 0 <= hit.signals[j].idx < |p.strips| && bit in DirectAll(p, hit, {bit}, id, n).strips[hit.signals[j].idx].kind
  {
    assert FitsOne(hit.signals[j], |p.strips|, p.nSamples) && FitsOne(hit.signals[n - 1], |p.strips|, p.nSamples);
    if j < n - 1 {
      DirectShows(p, hit, id, bit, n - 1, j);
    }
  }

  lemma {:induction false} InducedKeepsBits(p: Plane, hit: HitValue, step: int, factor: real, n: nat, i: nat, bit: nat)
    requires Shaped(p) && Fits(hit, |p.strips|, p.nSamples) && n <= |hit.signals| && i < |p.strips| && bit in p.strips[i].kind
    ensures bit in InducedAll(p, hit, step, factor, n).strips[i].kind
  {
    if n > 0 {
      InducedKeepsBits(p, hit, step, factor, n - 1, i, bit);
    }
  }

  /** No strip has two signals of the hit. */
  ghost predicate StripsApart(h: SimHit)
  {
    h.avalanche.Some? ==>
      PlaneHistory.Distinct(StripsHit(h.avalanche.value.x)) && PlaneHistory.Distinct(StripsHit(h.avalanche.value.y))
  }

  /** A taken hit whose strips are distinct: on each readout plane of its chamber exactly as
      many strips get its number as the record tells, the recorded start among them, all
      with type bit 0 for a primary particle and bit 1 for any other. */
  lemma {:induction false} RecordMatchesStrips(ids: Ids, e: Event, source: int, h: SimHit)
    requires ShapedEvent(e) && |ids| == |e.chambers| && Taken(e, h) && FitsChamber(h, e.chambers[h.chamber]) && StripsApart(h)
    ensures var f, g, bit := HitAdded(ids, e, source, h), h.chamber, if h.particle == 1 then 0 else 1;
            && |f.clusters| == |e.clusters| + 1
            && var c := f.clusters[|e.clusters|];
            if h.avalanche.None? then f.chambers == e.chambers
            else
              && Agrees(e.chambers[g].x, f.chambers[g].x, c.fID, c.fSize.0, c.fStart.0, bit)
              && Agrees(e.chambers[g].y, f.chambers[g].y, c.fID, c.fSize.1, c.fStart.1, bit)
  {
    RecordIs(ids, e, source, h);
    var f, g, bit := HitAdded(ids, e, source, h), h.chamber, if h.particle == 1 then 0 else 1;
    var id := SimAuxi.ToShort(|e.clusters| + 1);
    if h.avalanche.Some? {
      var a := h.avalanche.value;
      assert SignalBit(h) == {bit};
      CumulatedAgrees(e.chambers[g].x, a.x, id, a.xtalkX, bit);
      CumulatedAgrees(e.chambers[g].y, a.y, id, a.xtalkY, bit);
    } else {
      assert f.chambers == e.chambers[g := e.chambers[g]];
    }
  }
}
