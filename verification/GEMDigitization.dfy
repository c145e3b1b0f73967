/** The digitizer itself: it adds hits to the current event and writes its strips out. */
module GEMDigitization {
  import opened StripPlane
  import opened Digitizer
  import opened TreeStrips
  import ClusterRecords

  class GEMDigitization {
    const ids: Ids
    var fDP: seq<Chamber>
    var fGEMClust: seq<Cluster>
    var fNSignal: nat
    var fGEMStrips: seq<DigiStrip>
    var fFilledStrips: bool
    ghost var noise: Noise

    function View(): Event
      reads this
    {
      Event(fDP, fGEMClust, fNSignal)
    }

    ghost predicate Valid()
      reads this
    {
      |ids| == |fDP| && ShapedEvent(View())
    }

    /** When the strips count as written they are those of the planes, unless there has been
        nothing to write since the last clearing. */
    ghost predicate UpToDate()
      requires Valid()
      reads this
    {
      fFilledStrips ==>
        || fGEMStrips == Emitted(noise, ids, fDP, |ids|)
        || (fGEMStrips == [] && View() == Wiped(View()))
    }

    constructor Initialize(numbering: Ids, chambers: seq<Chamber>)
      requires |numbering| == |chambers|
      ensures Valid() && UpToDate() && ids == numbering
      ensures View() == Wiped(Event(chambers, [], 0)) && fGEMStrips == []
    {
      ids := numbering;
      fDP, fGEMClust, fNSignal := WipedChambers(chambers), [], 0;
      fGEMStrips, fFilledStrips, noise := [], true, (_, _, _, _) => 0.0;
      new;
      WipedTwice(Event(chambers, [], 0));
    }

    /** Starts a new event with these hits. */
    method Digitize(data: HitData)
      requires Valid() && Fitting(data.hits, View())
      modifies this
      ensures Valid() && UpToDate() && View() == HitsAdded(ids, Wiped(old(View())), data, |data.hits|)
      ensures fGEMStrips == [] && (fFilledStrips <==> data.hits == [])
    {
      fGEMClust, fNSignal, fGEMStrips := [], 0, [];
      fDP := WipedChambers(fDP);
      assert View() == Wiped(old(View()));
      WipedTwice(old(View()));
      fFilledStrips := true;
      AdditiveDigitize(data);
    }

    /** Adds hits to the current event. */
    method AdditiveDigitize(data: HitData)
      requires Valid() && UpToDate() && Fitting(data.hits, View())
      modifies this
      ensures Valid() && UpToDate() && View() == HitsAdded(ids, old(View()), data, |data.hits|)
      ensures fGEMStrips == old(fGEMStrips)
      ensures fFilledStrips == if data.hits == [] then old(fFilledStrips) else false
    {
      if |data.hits| == 0 {
        return;
      }
      AddHits(data);
      fFilledStrips := false;
    }

    method AddHits(data: HitData)
      requires Valid() && Fitting(data.hits, View())
      modifies this`fDP, this`fGEMClust, this`fNSignal
      ensures Valid() && View() == HitsAdded(ids, old(View()), data, |data.hits|)
    {
      ghost var before := View();
      for ih := 0 to |data.hits|
        invariant Valid() && View() == HitsAdded(ids, before, data, ih)
      {
        StillFits(before, View(), data.hits[ih]);
        AddHit(data.source, data.hits[ih]);
      }
    }

    method AddHit(source: int, h: SimHit)
      requires Valid() && (Taken(View(), h) ==> FitsChamber(h, fDP[h.chamber]))
      modifies this`fDP, this`fGEMClust, this`fNSignal
      ensures Valid() && View() == HitAdded(ids, old(View()), source, h)
    {
      if h.chamber >= |fDP| || TooLong(h) {
        return;
      }
      ghost var before := View();
      var id := SetTreeHit(source, h);
      if h.avalanche.Some? {
        var a, c := h.avalanche.value, fDP[h.chamber];
        var kind := SignalBit(h);
        c := c.(x := Cumulated(c.x, a.x, kind, id, a.xtalkX));
        c := c.(y := Cumulated(c.y, a.y, kind, id, a.xtalkY));
        fDP := fDP[h.chamber := c];
      } else {
        assert fDP == fDP[h.chamber := fDP[h.chamber]];
      }
      assert View() == HitAdded(ids, before, source, h);
    }

    /** Records the hit as a cluster and returns the cluster's number. */
    method SetTreeHit(source: int, h: SimHit) returns (id: int)
      requires Valid() && h.chamber < |ids|
      modifies this`fGEMClust, this`fNSignal
      ensures Valid() && fGEMClust == old(fGEMClust) + [ClusterOf(ids, old(View()), source, h)]
      ensures id == ClusterOf(ids, old(View()), source, h).fID
      ensures ClusterRecords.IsRecord(ids, fGEMClust[|old(fGEMClust)|], source, h)
      ensures fNSignal == old(fNSignal) + if h.particle == 1 && source == 0 then 1 else 0
    {
      var clust := ClusterOf(ids, View(), source, h);
      ClusterRecords.RecordIs(ids, View(), source, h);
      fGEMClust := fGEMClust + [clust];
      if clust.fType == 1 && clust.fSource == 0 {
        fNSignal := fNSignal + 1;
      }
      id := clust.fID;
    }

    /** Writes all strips, with the noise drawn for this writing. */
    method SetTreeStrips(draws: Noise)
      requires Valid()
      modifies this`fGEMStrips, this`fFilledStrips, this`noise
      ensures Valid() && UpToDate() && fFilledStrips && fGEMStrips == Emitted(draws, ids, fDP, |ids|)
    {
      fGEMStrips := [];
      for ich := 0 to |fDP|
        invariant fGEMStrips == Emitted(draws, ids, fDP, ich)
      {
        EmittedNext(draws, ids, fDP, ich);
        WriteChamber(draws, ich, fDP[ich], ids[ich]);
      }
      fFilledStrips := true;
      noise := draws;
    }

    method WriteChamber(draws: Noise, g: nat, c: Chamber, at: (nat, nat))
      modifies this`fGEMStrips
      ensures fGEMStrips == old(fGEMStrips) + OfChamber(draws, g, c, at)
    {
      ghost var before := fGEMStrips;
      WritePlane(draws, g, c.x, at, 0);
      WritePlane(draws, g, c.y, at, 1);
      Regroup(before, StripsOf(draws, g, c.x, at, 0, |c.x.strips|), StripsOf(draws, g, c.y, at, 1, |c.y.strips|));
    }

    method WritePlane(draws: Noise, g: nat, p: Plane, at: (nat, nat), proj: nat)
      modifies this`fGEMStrips
      ensures fGEMStrips == old(fGEMStrips) + StripsOf(draws, g, p, at, proj, |p.strips|)
    {
      for istrip := 0 to |p.strips|
        invariant fGEMStrips == old(fGEMStrips) + StripsOf(draws, g, p, at, proj, istrip)
      {
        Regroup(old(fGEMStrips), StripsOf(draws, g, p, at, proj, istrip), [Digi(draws, g, at, proj, istrip, p.strips[istrip])]);
        fGEMStrips := fGEMStrips + [Digi(draws, g, at, proj, istrip, p.strips[istrip])];
      }
    }

    /** Before the event is stored its strips are written, unless they count as written. */
    method FillTree(draws: Noise)
      requires Valid() && UpToDate()
      modifies this`fGEMStrips, this`fFilledStrips, this`noise
      ensures Valid() && UpToDate() && fFilledStrips
    {
      if !fFilledStrips {
        SetTreeStrips(draws);
      }
    }
  }

  lemma Regroup<T>(a: seq<T>, b: seq<T>, c: seq<T>)
    ensures (a + b) + c == a + (b + c)
  {
  }

  lemma StillFits(e: Event, f: Event, h: SimHit)
    requires SameShape(e, f) && (Taken(e, h) ==> FitsChamber(h, e.chambers[h.chamber]))
    ensures Taken(f, h) ==> FitsChamber(h, f.chambers[h.chamber])
  {
  }

  lemma WipedTwice(e: Event)
    ensures Wiped(Wiped(e)) == Wiped(e)
  {
    assert Wiped(Wiped(e)).chambers == Wiped(e).chambers;
  }

  /** Whatever is stored, its cluster references hold while there are at most 32767 clusters. */
  lemma StoredReferencesHold(d: GEMDigitization, i: nat)
    requires d.Valid() && d.UpToDate() && d.fFilledStrips && Linked(d.ids, d.View()) && i < |d.fGEMStrips|
    ensures ReferencesHold(d.View(), d.fGEMStrips[i])
  {
    DecoderAssertionsHold(d.noise, d.ids, d.View(), i);
  }
}
