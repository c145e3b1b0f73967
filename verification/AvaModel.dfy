/** One hit in one chamber, from the track to the chamber's strips: the avalanche region, the
    hits it gives on the two readout planes, and these added to the planes' arrays. */
module AvaModel {
  import opened GEMPlane
  import opened Avalanche
  import opened StripPlane
  import opened Digitizer
  import AvalancheGrid
  import AvalancheHit
  import DigitizedPlane
  import GEMHit

  // ---- from the track to two digitized hits --------------------------------------

  /** What the model makes of a hit: nothing, a failed assertion, or a hit on each plane. */
  datatype Modelled =
    | NoSignal
    | AssertionFails
    | TwoHits(x: GEMHit.GEMHit, y: GEMHit.GEMHit)

  /** An ion where it arrives, turned into the strip frame. */
  function IonOn(a: Angle, ion: AvalancheGrid.Ion): AvalancheGrid.Ion
  {
    var p := PlaneToStrip(a, Point(ion.x, ion.y));
    ion.(x := p.x, y := p.y)
  }

  function IonsOn(a: Angle, ions: seq<AvalancheGrid.Ion>): (r: seq<AvalancheGrid.Ion>)
    ensures AvalancheGrid.AllValid(ions) ==> AvalancheGrid.AllValid(r)
  {
    seq(|ions|, i requires 0 <= i < |ions| => IonOn(a, ions[i]))
  }

  /** The chamber's limits: the middles of the outermost strips, x from the one plane and y
      from the other. */
  method ChamberLimits(plx: GEMPlane, ply: GEMPlane) returns (gl: Point, gu: Point)
    requires plx.Valid() && ply.Valid()
    ensures gl == Point(FirstMiddle(plx), FirstMiddle(ply)) && gu == Point(LastMiddle(plx), LastMiddle(ply))
    ensures gl.x <= gu.x && gl.y <= gu.y
  {
    gl := Point(plx.LowerEdge(0) + plx.fSPitch / 2.0, ply.LowerEdge(0) + ply.fSPitch / 2.0);
    gu := Point(plx.UpperEdge(plx.fNStrips - 1) - plx.fSPitch / 2.0, ply.UpperEdge(ply.fNStrips - 1) - ply.fSPitch / 2.0);
    MiddlesOrdered(plx);
    MiddlesOrdered(ply);
  }

  function FirstMiddle(pl: GEMPlane): real
    reads pl
  {
    pl.LowerEdge(0) + pl.fSPitch / 2.0
  }

  function LastMiddle(pl: GEMPlane): real
    reads pl
  {
    pl.UpperEdge(pl.fNStrips - 1) - pl.fSPitch / 2.0
  }

  lemma MiddlesOrdered(pl: GEMPlane)
    requires pl.Valid()
    ensures FirstMiddle(pl) <= LastMiddle(pl)
  {
    HasStrips(pl);
    EdgesOrdered(pl, 0, pl.fNStrips - 1);
  }

  ghost predicate IsOutside(pl: GEMPlane, tr: Track)
    reads pl
  {
    !InBox(pl, tr.p0) && !InBox(pl, tr.p1)
  }

  /** The two corners are level along the strips, on a whole number of steps. */
  ghost predicate IsLevel(pl: GEMPlane, tr: Track, s: Settings)
    requires s.Valid()
    reads pl
  {
    tr.p0.y == tr.p1.y && IsMultiple(tr.p0.y, pl.fSPitch / s.ySteps as real)
  }

  /** The hit was digitized from the track on that plane. */
  ghost predicate MadeFrom(pl: GEMPlane, tr: Track, s: Settings, pulses: seq<seq<real>>, hit: GEMHit.GEMHit)
    requires s.Valid() && AvalancheGrid.AllValid(tr.ions) && |pulses| == pl.fNStrips
    reads pl, hit.Footprint()
  {
    hit.Valid() && exists r, g, cells, us :: DigitizedFrom(pl, tr, s, pulses, hit, r, g, cells, us)
  }

  method ModelPlane(pl: GEMPlane, tr: Track, s: Settings, pulses: seq<seq<real>>) returns (outcome: Outcome)
    requires pl.Valid() && s.Valid() && AvalancheGrid.AllValid(tr.ions) && PulseTable(pl, pulses, s.nsample)
    ensures outcome.Outside? <==> IsOutside(pl, tr)
    ensures outcome.AssertionFails? <==> !IsOutside(pl, tr) && IsLevel(pl, tr, s)
    ensures outcome.Digitized? ==> fresh(outcome.hit.Footprint()) && MadeFrom(pl, tr, s, pulses, outcome.hit)
  {
    ghost var r, g, cells, us;
    outcome, r, g, cells, us := AvaPlane(pl, tr, s, pulses);
  }

  /** The loop over a chamber's two planes. */
  method ModelPlanes(plx: GEMPlane, ply: GEMPlane, tx: Track, ty: Track, s: Settings,
                     pulsesX: seq<seq<real>>, pulsesY: seq<seq<real>>)
    returns (m: Modelled)
    requires plx.Valid() && ply.Valid() && s.Valid() && AvalancheGrid.AllValid(tx.ions) && AvalancheGrid.AllValid(ty.ions)
    requires PulseTable(plx, pulsesX, s.nsample) && PulseTable(ply, pulsesY, s.nsample)
    ensures m.NoSignal? <==> IsOutside(plx, tx) || (!IsLevel(plx, tx, s) && IsOutside(ply, ty))
    ensures m.TwoHits? <==> !IsOutside(plx, tx) && !IsLevel(plx, tx, s) && !IsOutside(ply, ty) && !IsLevel(ply, ty, s)
    ensures m.TwoHits? ==>
              && fresh(m.x.Footprint()) && fresh(m.y.Footprint())
              && MadeFrom(plx, tx, s, pulsesX, m.x) && MadeFrom(ply, ty, s, pulsesY, m.y)
  {
    var ox := ModelPlane(plx, tx, s, pulsesX);
    if ox.Outside? {
      return NoSignal;
    } else if ox.AssertionFails? {
      return Modelled.AssertionFails;
    }
    m := ModelSecond(plx, tx, pulsesX, ox.hit, ply, ty, s, pulsesY);
  }

  /** The second pass, with the first plane's hit at hand. */
  method ModelSecond(plx: GEMPlane, tx: Track, pulsesX: seq<seq<real>>, hx: GEMHit.GEMHit,
                     ply: GEMPlane, ty: Track, s: Settings, pulsesY: seq<seq<real>>) returns (m: Modelled)
    requires ply.Valid() && s.Valid() && AvalancheGrid.AllValid(tx.ions) && AvalancheGrid.AllValid(ty.ions)
    requires |pulsesX| == plx.fNStrips && MadeFrom(plx, tx, s, pulsesX, hx) && PulseTable(ply, pulsesY, s.nsample)
    ensures m.NoSignal? <==> IsOutside(ply, ty)
    ensures m.TwoHits? <==> !IsOutside(ply, ty) && !IsLevel(ply, ty, s)
    ensures m.TwoHits? ==> m.x == hx && fresh(m.y.Footprint())
    ensures m.TwoHits? ==> MadeFrom(plx, tx, s, pulsesX, m.x) && MadeFrom(ply, ty, s, pulsesY, m.y)
  {
    ghost var r, g, cells, us :| DigitizedFrom(plx, tx, s, pulsesX, hx, r, g, cells, us);
    var oy := ModelPlane(ply, ty, s, pulsesY);
    assert DigitizedFrom(plx, tx, s, pulsesX, hx, r, g, cells, us);
    if oy.Outside? {
      return NoSignal;
    } else if oy.AssertionFails? {
      return Modelled.AssertionFails;
    }
    m := TwoHits(hx, oy.hit);
  }

  /** What the model depends on besides the hit: the band around a track, and for each plane its
      pulse shapes. */
  datatype Inputs = Inputs(margin: real, s: Settings, pulsesX: seq<seq<real>>, pulsesY: seq<seq<real>>)

  ghost predicate Usable(plx: GEMPlane, ply: GEMPlane, inp: Inputs)
    reads plx, ply
  {
    && plx.Valid() && ply.Valid() && inp.margin >= 0.0 && inp.s.Valid()
    && PulseTable(plx, inp.pulsesX, inp.s.nsample) && PulseTable(ply, inp.pulsesY, inp.s.nsample)
  }

  /** A track's ions, when its drifting electrons arrive, and its charge. */
  datatype Ionization = Ionization(ions: seq<AvalancheGrid.Ion>, t0: real, charge: real)

  /** The track as a plane sees it: the region's lower left and upper right corner, and the
      ions, in the plane's strip frame. */
  function SeenBy(pl: GEMPlane, r: Region, ion: Ionization): Track
    requires r.Region?
    reads pl
  {
    Track(PlaneToStrip(pl.angle, Point(r.x0, r.y0)), PlaneToStrip(pl.angle, Point(r.x1, r.y1)),
          IonsOn(pl.angle, ion.ions), ion.t0, ion.charge)
  }

  /** `r` is the avalanche region of the hit in the chamber. */
  ghost predicate RegionOf(plx: GEMPlane, ply: GEMPlane, h: SimHit, margin: real, r: Region)
    reads plx, ply
  {
    IsRegion(r, Point(h.entrance.x, h.entrance.y), Point(h.exit.x, h.exit.y), margin,
             Point(FirstMiddle(plx), FirstMiddle(ply)), Point(LastMiddle(plx), LastMiddle(ply)))
  }

  /** The planes are both struck. */
  ghost predicate Strikes(plx: GEMPlane, ply: GEMPlane, r: Region, ion: Ionization)
    reads plx, ply
  {
    ion.ions != [] && r.Region? && !IsOutside(plx, SeenBy(plx, r, ion)) && !IsOutside(ply, SeenBy(ply, r, ion))
  }

  /** One of the planes' assertions fails: the x plane's, or the y plane's when it is reached. */
  ghost predicate Fails(plx: GEMPlane, ply: GEMPlane, r: Region, ion: Ionization, s: Settings)
    requires s.Valid()
    reads plx, ply
  {
    && ion.ions != [] && r.Region? && !IsOutside(plx, SeenBy(plx, r, ion))
    && (IsLevel(plx, SeenBy(plx, r, ion), s) ||
        (!IsOutside(ply, SeenBy(ply, r, ion)) && IsLevel(ply, SeenBy(ply, r, ion), s)))
  }

  /** The model for one hit: its region, and what that gives on the planes. The hits share
      nothing with what is already in use. */
  method ModelHit(plx: GEMPlane, ply: GEMPlane, h: SimHit, ion: Ionization, inp: Inputs, ghost used: set<object>)
    returns (m: Modelled, r: Region)
    requires Usable(plx, ply, inp) && AvalancheGrid.AllValid(ion.ions)
    ensures RegionOf(plx, ply, h, inp.margin, r)
    ensures m.AssertionFails? <==> Fails(plx, ply, r, ion, inp.s)
    ensures m.TwoHits? <==> Strikes(plx, ply, r, ion) && !Fails(plx, ply, r, ion, inp.s)
    ensures m.TwoHits? ==>
              && m.x.Footprint() + m.y.Footprint() !! used
              && MadeFrom(plx, SeenBy(plx, r, ion), inp.s, inp.pulsesX, m.x)
              && MadeFrom(ply, SeenBy(ply, r, ion), inp.s, inp.pulsesY, m.y)
  {
    var gl, gu := ChamberLimits(plx, ply);
    r := AvaRegion(Point(h.entrance.x, h.entrance.y), Point(h.exit.x, h.exit.y), inp.margin, gl, gu);
    if r.OutOfSector? || |ion.ions| == 0 {
      return NoSignal, r;
    }
    m := ModelPlanes(plx, ply, SeenBy(plx, r, ion), SeenBy(ply, r, ion), inp.s, inp.pulsesX, inp.pulsesY);
  }

  // ---- what the hits are like ----------------------------------------------------

  /** The hit holds the signals of neighbouring strips that show one, for some charges on them. */
  ghost predicate Packs(v: HitValue, nStrips: int, s: Settings, pulses: seq<seq<real>>)
    requires s.Valid()
  {
    Pulses(pulses, nStrips, s.nsample) && exists iL: nat, us: seq<real> :: PacksFrom(v, s, pulses, iL, us)
  }

  ghost predicate PacksFrom(v: HitValue, s: Settings, pulses: seq<seq<real>>, iL: nat, us: seq<real>)
    requires s.Valid()
  {
    iL + |us| <= |pulses| && v == AvalancheHit.PackedHit(s.converter, pulses[iL..iL + |us|], us, iL, v.time)
  }

  lemma {:induction false} MadeIsPacked(pl: GEMPlane, tr: Track, s: Settings, pulses: seq<seq<real>>, hit: GEMHit.GEMHit)
    requires s.Valid() && AvalancheGrid.AllValid(tr.ions) && PulseTable(pl, pulses, s.nsample)
    requires MadeFrom(pl, tr, s, pulses, hit)
    ensures Packs(hit.Value(), |pulses|, s, pulses) && hit.Value().time == tr.t0
  {
    var r, g, cells, us :| DigitizedFrom(pl, tr, s, pulses, hit, r, g, cells, us);
    DigitizedIsPacked(pl, tr, s, pulses, hit, r, g, cells, us);
  }

  lemma {:induction false} DigitizedIsPacked(pl: GEMPlane, tr: Track, s: Settings, pulses: seq<seq<real>>, hit: GEMHit.GEMHit,
                          r: Range, g: AvalancheGrid.Grid, cells: seq<real>, us: seq<real>)
    requires s.Valid() && AvalancheGrid.AllValid(tr.ions) && PulseTable(pl, pulses, s.nsample)
    requires DigitizedFrom(pl, tr, s, pulses, hit, r, g, cells, us)
    ensures Packs(hit.Value(), |pulses|, s, pulses) && hit.Value().time == tr.t0
  {
    PacksAtPacks(hit.Value(), s, pulses, r.iL, r.iU - r.iL + 1, us, tr.t0);
  }

  lemma {:induction false} PacksAtPacks(v: HitValue, s: Settings, pulses: seq<seq<real>>, iL: nat, n: nat, us: seq<real>, t0: real)
    requires s.Valid() && iL + n <= |pulses| && |us| == n && PacksAt(v, s, pulses, iL, n, us, t0)
    requires Pulses(pulses, |pulses|, s.nsample)
    ensures Packs(v, |pulses|, s, pulses) && v.time == t0
  {
    assert PacksFrom(v, s, pulses, iL, us);
  }

  /** So it satisfies what the strip planes assert of it. */
  lemma {:induction false} PackedFits(v: HitValue, nStrips: nat, s: Settings, pulses: seq<seq<real>>)
    requires s.Valid() && Packs(v, nStrips, s, pulses)
    ensures Fits(v, nStrips, s.nsample) && AvalancheHit.Ascending(v.signals)
    ensures forall i :: 0 <= i < |v.signals| ==> Total(v.signals[i].adc) > 0
  {
    var iL: nat, us: seq<real> :| PacksFrom(v, s, pulses, iL, us);
    SignalsFit(iL, |us|, s, pulses, us, v);
  }

  // ---- whole runs ----------------------------------------------------------------

  /** What the avalanche model made of the hit, on a chamber with these planes. */
  ghost predicate ModelledOn(h: SimHit, c: Chamber, s: Settings, pulsesX: seq<seq<real>>, pulsesY: seq<seq<real>>)
    requires s.Valid()
  {
    h.avalanche.Some? ==>
      && c.x.nSamples == c.y.nSamples == s.nsample
      && Packs(h.avalanche.value.x, |c.x.strips|, s, pulsesX) && Packs(h.avalanche.value.y, |c.y.strips|, s, pulsesY)
  }

  lemma {:induction false} ModelledFits(h: SimHit, c: Chamber, s: Settings, pulsesX: seq<seq<real>>, pulsesY: seq<seq<real>>)
    requires s.Valid() && ModelledOn(h, c, s, pulsesX, pulsesY)
    ensures FitsChamber(h, c)
  {
    if h.avalanche.Some? {
      PackedFits(h.avalanche.value.x, |c.x.strips|, s, pulsesX);
      PackedFits(h.avalanche.value.y, |c.y.strips|, s, pulsesY);
    }
  }

  /** The digitized signal of every hit taken comes from the avalanche model, with whatever
      pulse shapes. */
  ghost predicate AllModelled(hits: seq<SimHit>, e: Event, s: Settings)
    requires s.Valid()
  {
    forall i :: 0 <= i < |hits| && Taken(e, hits[i]) ==> IsModelled(hits[i], e.chambers[hits[i].chamber], s)
  }

  ghost predicate IsModelled(h: SimHit, c: Chamber, s: Settings)
    requires s.Valid()
  {
    exists pulsesX, pulsesY :: ModelledOn(h, c, s, pulsesX, pulsesY)
  }

  /** From the avalanche model to the stored references: in a run all of whose hits come from
      the model, the cluster numbers on the strips hold while at most 32767 hits were taken
      since the last `Digitize`. */
  lemma {:induction false} ModelledRunReferenced(ids: Ids, e: Event, ops: seq<Op>, s: Settings)
    requires ShapedEvent(e) && |ids| == |e.chambers| && s.Valid()
    requires forall i :: 0 <= i < |ops| ==> AllModelled(ops[i].data.hits, e, s)
    ensures Legal(ops, e)
    ensures Numbered(Run(ids, e, ops)) <==> HitsOnRecord(e, ops) <= MAX_CLUSTERS
    ensures HitsOnRecord(e, ops) <= MAX_CLUSTERS ==> Linked(ids, Run(ids, e, ops))
  {
    forall i | 0 <= i < |ops|
      ensures Fitting(ops[i].data.hits, e)
    {
      ModelledHitsFit(ops[i].data.hits, e, s);
    }
    RunReferenced(ids, e, ops);
  }

  lemma {:induction false} ModelledHitsFit(hits: seq<SimHit>, e: Event, s: Settings)
    requires s.Valid() && AllModelled(hits, e, s)
    ensures Fitting(hits, e)
  {
    forall i | 0 <= i < |hits| && Taken(e, hits[i])
      ensures FitsChamber(hits[i], e.chambers[hits[i].chamber])
    {
      var pulsesX, pulsesY :| ModelledOn(hits[i], e.chambers[hits[i].chamber], s, pulsesX, pulsesY);
      ModelledFits(hits[i], e.chambers[hits[i].chamber], s, pulsesX, pulsesY);
    }
  }

  // ---- into the planes' arrays ---------------------------------------------------

  /** Both planes of a chamber, sharing nothing. */
  ghost predicate Pair(dx: DigitizedPlane.DigitizedPlane, dy: DigitizedPlane.DigitizedPlane)
    reads dx, dy, dx.Arrays(), dy.Arrays()
  {
    && dx != dy && dx.Allocated() && dy.Allocated() && dx.Valid() && dy.Valid()
    && dx.Arrays() !! dy.Arrays()
  }

  ghost function ChamberOf(dx: DigitizedPlane.DigitizedPlane, dy: DigitizedPlane.DigitizedPlane): (c: Chamber)
    requires Pair(dx, dy)
    reads dx, dy, dx.Arrays(), dy.Arrays()
    ensures c.Shaped()
  {
    Chamber(dx.View(), dy.View())
  }

  /** Cumulates a hit on one plane; the other plane and the next hit stay as they are. */
  method CumulateBeside(d: DigitizedPlane.DigitizedPlane, hit: GEMHit.GEMHit, kind: Bits, id: int, xtalk: CrossTalk,
                        ghost other: DigitizedPlane.DigitizedPlane, ghost next: GEMHit.GEMHit)
    requires Pair(d, other) && hit.Valid() && next.Valid() && Fits(hit.Value(), d.fNStrips, d.fNSamples)
    requires hit.Footprint() !! d.Arrays() + {d} && next.Footprint() !! d.Arrays() + {d}
    modifies d`fNOT, d`strips, d.Arrays()
    ensures Pair(d, other) && d.View() == Cumulated(old(d.View()), old(hit.Value()), kind, id, xtalk)
    ensures other.View() == old(other.View()) && next.Valid() && next.Value() == old(next.Value())
  {
    d.Cumulate(hit, kind, id, xtalk);
  }

  /** Cumulates the two hits, each on its plane. */
  method Strike(dx: DigitizedPlane.DigitizedPlane, dy: DigitizedPlane.DigitizedPlane, hx: GEMHit.GEMHit, hy: GEMHit.GEMHit,
                kind: Bits, id: int, xtalkX: CrossTalk, xtalkY: CrossTalk)
    requires Pair(dx, dy) && hx.Valid() && hy.Valid()
    requires Fits(hx.Value(), dx.fNStrips, dx.fNSamples) && Fits(hy.Value(), dy.fNStrips, dy.fNSamples)
    requires hx.Footprint() + hy.Footprint() !! dx.Arrays() + {dx} + dy.Arrays() + {dy}
    modifies dx`fNOT, dx`strips, dx.Arrays(), dy`fNOT, dy`strips, dy.Arrays()
    ensures Pair(dx, dy)
    ensures dx.View() == Cumulated(old(dx.View()), old(hx.Value()), kind, id, xtalkX)
    ensures dy.View() == Cumulated(old(dy.View()), old(hy.Value()), kind, id, xtalkY)
  {
    CumulateBeside(dx, hx, kind, id, xtalkX, dy, hy);
    CumulateBeside(dy, hy, kind, id, xtalkY, dx, hx);
  }

  /** The model for one hit, with what its hits hold. */
  method ModelPacked(plx: GEMPlane, ply: GEMPlane, h: SimHit, ion: Ionization, inp: Inputs, ghost used: set<object>)
    returns (m: Modelled, r: Region)
    requires Usable(plx, ply, inp) && AvalancheGrid.AllValid(ion.ions)
    ensures RegionOf(plx, ply, h, inp.margin, r)
    ensures m.AssertionFails? <==> Fails(plx, ply, r, ion, inp.s)
    ensures m.TwoHits? <==> Strikes(plx, ply, r, ion) && !Fails(plx, ply, r, ion, inp.s)
    ensures m.TwoHits? ==> m.x.Footprint() + m.y.Footprint() !! used && m.x.Valid() && m.y.Valid()
    ensures m.TwoHits? ==> m.x.Value().time == ion.t0 && Packs(m.x.Value(), plx.fNStrips, inp.s, inp.pulsesX)
    ensures m.TwoHits? ==> m.y.Value().time == ion.t0 && Packs(m.y.Value(), ply.fNStrips, inp.s, inp.pulsesY)
  {
    m, r := ModelHit(plx, ply, h, ion, inp, used);
    if m.TwoHits? {
      MadeIsPacked(plx, SeenBy(plx, r, ion), inp.s, inp.pulsesX, m.x);
      MadeIsPacked(ply, SeenBy(ply, r, ion), inp.s, inp.pulsesY, m.y);
    }
  }

  /** The chamber `c` struck by the hit is `c'`. */
  ghost predicate Becomes(c: Chamber, c': Chamber, h: SimHit, id: int)
    requires c.Shaped()
  {
    FitsChamber(h, c) && c' == Struck(c, h, id)
  }

  /** Adds the hits the model made to the chamber. */
  method AddSignals(dx: DigitizedPlane.DigitizedPlane, dy: DigitizedPlane.DigitizedPlane, h: SimHit, hx: GEMHit.GEMHit,
                    hy: GEMHit.GEMHit, inp: Inputs, id: int, xtalkX: CrossTalk, xtalkY: CrossTalk)
    returns (ghost struck: SimHit)
    requires Pair(dx, dy) && inp.s.Valid() && hx.Valid() && hy.Valid() && dx.fNSamples == dy.fNSamples == inp.s.nsample
    requires Packs(hx.Value(), dx.fNStrips, inp.s, inp.pulsesX) && Packs(hy.Value(), dy.fNStrips, inp.s, inp.pulsesY)
    requires hx.Footprint() + hy.Footprint() !! dx.Arrays() + {dx} + dy.Arrays() + {dy}
    modifies dx`fNOT, dx`strips, dx.Arrays(), dy`fNOT, dy`strips, dy.Arrays()
    ensures struck == h.(avalanche := Some(Avalanche(old(hx.Value()), old(hy.Value()), xtalkX, xtalkY)))
    ensures ModelledOn(struck, old(ChamberOf(dx, dy)), inp.s, inp.pulsesX, inp.pulsesY)
    ensures Pair(dx, dy) && Becomes(old(ChamberOf(dx, dy)), ChamberOf(dx, dy), struck, id)
  {
    struck := h.(avalanche := Some(Avalanche(hx.Value(), hy.Value(), xtalkX, xtalkY)));
    ModelledFits(struck, ChamberOf(dx, dy), inp.s, inp.pulsesX, inp.pulsesY);
    Strike(dx, dy, hx, hy, SignalBit(h), id, xtalkX, xtalkY);
  }

  /** Both hits come at the track's time, with the cross talk drawn for each plane. */
  predicate Arrived(a: Digitizer.Avalanche, ion: Ionization, xtalkX: CrossTalk, xtalkY: CrossTalk)
  {
    a.x.time == a.y.time == ion.t0 && a.xtalkX == xtalkX && a.xtalkY == xtalkY
  }

  /** The model's two hits can be added to the chamber. */
  ghost predicate Ready(m: Modelled, dx: DigitizedPlane.DigitizedPlane, dy: DigitizedPlane.DigitizedPlane,
                        ion: Ionization, inp: Inputs)
    requires inp.s.Valid()
    reads if m.TwoHits? then m.x.Footprint() + m.y.Footprint() else {}
  {
    m.TwoHits? ==>
      && m.x.Footprint() + m.y.Footprint() !! dx.Arrays() + {dx} + dy.Arrays() + {dy} && m.x.Valid() && m.y.Valid()
      && m.x.Value().time == ion.t0 && Packs(m.x.Value(), dx.fNStrips, inp.s, inp.pulsesX)
      && m.y.Value().time == ion.t0 && Packs(m.y.Value(), dy.fNStrips, inp.s, inp.pulsesY)
  }

  /** What a hit does to the arrays, given what the model made of it. */
  method Deposit(dx: DigitizedPlane.DigitizedPlane, dy: DigitizedPlane.DigitizedPlane, h: SimHit, m: Modelled, ion: Ionization,
                 inp: Inputs, id: int, xtalkX: CrossTalk, xtalkY: CrossTalk) returns (ghost struck: SimHit)
    requires Pair(dx, dy) && inp.s.Valid() && dx.fNSamples == dy.fNSamples == inp.s.nsample && Ready(m, dx, dy, ion, inp)
    modifies dx`fNOT, dx`strips, dx.Arrays(), dy`fNOT, dy`strips, dy.Arrays()
    ensures struck == h.(avalanche := struck.avalanche) && (struck.avalanche.Some? <==> m.TwoHits?)
    ensures struck.avalanche.Some? ==> Arrived(struck.avalanche.value, ion, xtalkX, xtalkY)
    ensures ModelledOn(struck, old(ChamberOf(dx, dy)), inp.s, inp.pulsesX, inp.pulsesY)
    ensures Pair(dx, dy) && Becomes(old(ChamberOf(dx, dy)), ChamberOf(dx, dy), struck, id)
  {
    if m.TwoHits? {
      struck := AddSignals(dx, dy, h, m.x, m.y, inp, id, xtalkX, xtalkY);
    } else {
      struck := h.(avalanche := None);
    }
  }

  /** The whole way of one hit: unless an assertion fails, its chamber's arrays end up as the
      event builder has the chamber struck by it, with the signals the avalanche model made. */
  method DigitizeHit(plx: GEMPlane, ply: GEMPlane, dx: DigitizedPlane.DigitizedPlane, dy: DigitizedPlane.DigitizedPlane,
                     h: SimHit, ion: Ionization, inp: Inputs, id: int, xtalkX: CrossTalk, xtalkY: CrossTalk)
    returns (ok: bool, r: Region, ghost struck: SimHit)
    requires Usable(plx, ply, inp) && AvalancheGrid.AllValid(ion.ions) && Pair(dx, dy)
    requires dx.fNStrips == plx.fNStrips && dy.fNStrips == ply.fNStrips && dx.fNSamples == dy.fNSamples == inp.s.nsample
    modifies dx`fNOT, dx`strips, dx.Arrays(), dy`fNOT, dy`strips, dy.Arrays()
    ensures old(RegionOf(plx, ply, h, inp.margin, r))
    ensures ok <==> !old(Fails(plx, ply, r, ion, inp.s))
    ensures ok ==>
              && struck == h.(avalanche := struck.avalanche)
              && (struck.avalanche.Some? <==> old(Strikes(plx, ply, r, ion)))
              && (struck.avalanche.Some? ==> Arrived(struck.avalanche.value, ion, xtalkX, xtalkY))
              && ModelledOn(struck, old(ChamberOf(dx, dy)), inp.s, inp.pulsesX, inp.pulsesY)
    ensures Pair(dx, dy)
    ensures ok ==> Becomes(old(ChamberOf(dx, dy)), ChamberOf(dx, dy), struck, id)
  {
    var m;
    m, r := ModelPacked(plx, ply, h, ion, inp, dx.Arrays() + {dx} + dy.Arrays() + {dy});
    ok := !m.AssertionFails?;
    struck := Deposit(dx, dy, h, m, ion, inp, id, xtalkX, xtalkY);
  }
}
