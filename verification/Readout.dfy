/** Hardware addresses of strips, and the way back from an address to the strip. */
module Readout {
  import opened Rows

  /** Modules per plane, channels per slot, and slots per crate (`SIM_MAXSLOT`). */
  datatype Layout = Layout(nModule: seq<nat>, chanPerSlot: nat, maxSlot: nat)
  {
    ghost predicate Valid() { chanPerSlot > 0 && maxSlot > 0 }

    function GetNModule(plane: int): nat
      requires plane < |nModule|
    {
      if plane < 0 then 0 else nModule[plane]
    }

    /** The modules of `plane` take the numbers from `Start` up to `End` among the slot pairs. */
    function Start(plane: nat): nat
      requires plane <= |nModule|
    {
      var n := GetNModule(plane - 1) * plane;
      assert n >= 0;
      n
    }

    function End(plane: nat): nat
      requires plane < |nModule|
    {
      Start(plane) + nModule[plane]
    }
  }

  datatype Channel = Channel(plane: nat, m: nat, proj: nat, chan: nat)

  datatype Address = Address(crate: int, slot: int, chan: int)

  function Slot(l: Layout, c: Channel): nat
    requires c.plane <= |l.nModule|
  {
    c.proj + 2 * (c.m + l.Start(c.plane))
  }

  function StripToROCD(l: Layout, c: Channel): Address
    requires l.Valid() && c.plane <= |l.nModule|
  {
    var ix := Slot(l, c);
    Address(ix / l.maxSlot, ix % l.maxSlot, c.chan % l.chanPerSlot)
  }

  function MakeROCKey(l: Layout, a: Address): int
  {
    a.chan + l.chanPerSlot * (a.slot + l.maxSlot * a.crate)
  }

  function Key(l: Layout, c: Channel): int
    requires l.Valid() && c.plane <= |l.nModule|
  {
    MakeROCKey(l, StripToROCD(l, c))
  }

  /** Slots are numbered through all crates: two for each module, the even one for x and the odd
      one for y, starting for each plane behind as many modules as there would be if all planes
      before it had those of the one right before it. */
  lemma AddressIs(l: Layout, c: Channel, before: nat)
    requires l.Valid() && c.plane <= |l.nModule| && before == if c.plane == 0 then 0 else c.plane * l.nModule[c.plane - 1]
    ensures var a, number := StripToROCD(l, c), c.m + before;
            && a.crate * l.maxSlot + a.slot == 2 * number + c.proj
            && a.crate >= 0 && 0 <= a.slot < l.maxSlot
            && 0 <= a.chan < l.chanPerSlot && a.chan == c.chan % l.chanPerSlot
            && (c.proj < 2 ==> (a.crate * l.maxSlot + a.slot) % 2 == c.proj)
  {
    var ix := Slot(l, c);
    assert l.Start(c.plane) == before;
    assert ix / l.maxSlot * l.maxSlot + ix % l.maxSlot == ix;
  }

  lemma KeyIs(l: Layout, c: Channel)
    requires l.Valid() && c.plane <= |l.nModule|
    ensures Key(l, c) == c.chan % l.chanPerSlot + Slot(l, c) * l.chanPerSlot
  {
    var ix := Slot(l, c);
    assert ix % l.maxSlot + l.maxSlot * (ix / l.maxSlot) == ix;
  }

  lemma {:induction false} SameCell(a: nat, i: nat, b: nat, j: nat, w: nat)
    requires a < w && b < w && a + i * w == b + j * w
    ensures a == b && i == j
  {
    CellsIs(i, w);
    CellsIs(j, w);
    if i < j {
      RowsApart(i, j, w);
    } else if j < i {
      RowsApart(j, i, w);
    }
  }

  /** Two channels share a key exactly when they share slot and channel within the slot. */
  lemma {:induction false} KeysEqual(l: Layout, c: Channel, d: Channel)
    requires l.Valid() && c.plane <= |l.nModule| && d.plane <= |l.nModule|
    ensures Key(l, c) == Key(l, d) <==> c.chan % l.chanPerSlot == d.chan % l.chanPerSlot && Slot(l, c) == Slot(l, d)
  {
    KeyIs(l, c);
    KeyIs(l, d);
    if Key(l, c) == Key(l, d) {
      SameCell(c.chan % l.chanPerSlot, Slot(l, c), d.chan % l.chanPerSlot, Slot(l, d), l.chanPerSlot);
    }
  }

  // ---- which layouts keep the channels apart -------------------------------------

  /** The number of strips of each chamber and projection. */
  type Lengths = (nat, nat, nat) -> nat

  ghost predicate IsReadout(l: Layout, plane: nat, m: nat, proj: nat)
  {
    plane < |l.nModule| && m < l.nModule[plane] && proj < 2
  }

  ghost predicate HasStrip(l: Layout, n: Lengths, c: Channel)
  {
    IsReadout(l, c.plane, c.m, c.proj) && c.chan < n(c.plane, c.m, c.proj)
  }

  ghost predicate NoneEmpty(l: Layout, n: Lengths)
  {
    forall plane, m, proj :: IsReadout(l, plane, m, proj) ==> n(plane, m, proj) > 0
  }

  ghost predicate KeysDistinct(l: Layout, n: Lengths)
    requires l.Valid()
  {
    forall c, d :: HasStrip(l, n, c) && HasStrip(l, n, d) && Key(l, c) == Key(l, d) ==> c == d
  }

  ghost predicate SlotsSuffice(l: Layout, n: Lengths)
  {
    forall plane, m, proj :: IsReadout(l, plane, m, proj) ==> n(plane, m, proj) <= l.chanPerSlot
  }

  ghost predicate PlanesApart(l: Layout)
  {
    forall p, q :: 0 <= p < q < |l.nModule| && l.nModule[p] > 0 && l.nModule[q] > 0 ==>
      l.End(p) <= l.Start(q) || l.End(q) <= l.Start(p)
  }

  /** The keys tell all strips apart exactly when no readout has more strips than a slot has
      channels and no two planes reach into the same slots. */
  lemma {:induction false} KeysDistinctIff(l: Layout, n: Lengths)
    requires l.Valid() && NoneEmpty(l, n)
    ensures KeysDistinct(l, n) <==> SlotsSuffice(l, n) && PlanesApart(l)
  {
    if SlotsSuffice(l, n) && PlanesApart(l) {
      forall c, d | HasStrip(l, n, c) && HasStrip(l, n, d) && Key(l, c) == Key(l, d)
        ensures c == d
      {
        SameKeySameStrip(l, n, c, d);
      }
    }
    if KeysDistinct(l, n) {
      DistinctNeedsSlots(l, n);
      DistinctNeedsPlanesApart(l, n);
    }
  }

  lemma {:induction false} SameKeySameStrip(l: Layout, n: Lengths, c: Channel, d: Channel)
    requires l.Valid() && SlotsSuffice(l, n) && PlanesApart(l)
    requires HasStrip(l, n, c) && HasStrip(l, n, d) && Key(l, c) == Key(l, d)
    ensures c == d
  {
    KeysEqual(l, c, d);
    InSlot(l, n, c);
    InSlot(l, n, d);
    assert c.plane == d.plane by {
      SamePlane(l, c, d);
    }
  }

  lemma InSlot(l: Layout, n: Lengths, c: Channel)
    requires l.Valid() && SlotsSuffice(l, n) && HasStrip(l, n, c)
    ensures c.chan % l.chanPerSlot == c.chan
  {
  }

  lemma SamePlane(l: Layout, c: Channel, d: Channel)
    requires PlanesApart(l) && IsReadout(l, c.plane, c.m, c.proj) && IsReadout(l, d.plane, d.m, d.proj)
    requires Slot(l, c) == Slot(l, d)
    ensures c.plane == d.plane
  {
    assert c.m + l.Start(c.plane) == d.m + l.Start(d.plane);
  }

  lemma DistinctNeedsSlots(l: Layout, n: Lengths)
    requires l.Valid() && NoneEmpty(l, n) && KeysDistinct(l, n)
    ensures SlotsSuffice(l, n)
  {
    forall plane, m, proj | IsReadout(l, plane, m, proj)
      ensures n(plane, m, proj) <= l.chanPerSlot
    {
      var c, d := Channel(plane, m, proj, 0), Channel(plane, m, proj, l.chanPerSlot);
      KeysEqual(l, c, d);
      assert HasStrip(l, n, c);
    }
  }

  lemma DistinctNeedsPlanesApart(l: Layout, n: Lengths)
    requires l.Valid() && NoneEmpty(l, n) && KeysDistinct(l, n)
    ensures PlanesApart(l)
  {
    forall p, q | 0 <= p < q < |l.nModule| && l.nModule[p] > 0 && l.nModule[q] > 0
      ensures l.End(p) <= l.Start(q) || l.End(q) <= l.Start(p)
    {
      var at := if l.Start(p) < l.Start(q) then l.Start(q) else l.Start(p);
      if at < l.End(p) && at < l.End(q) {
        var c, d := Channel(p, at - l.Start(p), 0, 0), Channel(q, at - l.Start(q), 0, 0);
        KeysEqual(l, c, d);
        assert HasStrip(l, n, c) && HasStrip(l, n, d);
      }
    }
  }

  ghost predicate Nondecreasing(s: seq<nat>)
  {
    forall i, j :: 0 <= i <= j < |s| ==> s[i] <= s[j]
  }

  /** Planes stay apart when later planes have no fewer modules than earlier ones. */
  lemma {:induction false} NondecreasingPlanesApart(l: Layout)
    requires Nondecreasing(l.nModule)
    ensures PlanesApart(l)
  {
    forall p, q | 0 <= p < q < |l.nModule| && l.nModule[p] > 0 && l.nModule[q] > 0
      ensures l.End(p) <= l.Start(q)
    {
      var a, b, c := l.GetNModule(p - 1), l.nModule[p], l.nModule[q - 1];
      ProductGrows(a, b, p);
      ProductGrows(b, c, q);
      ProductGrows(p + 1, q, b);
      assert (p + 1) * b == b * p + b;
    }
  }

  /** Without that they may collide: of 4, 3 and 3 modules, the last module of plane 1 and the
      first of plane 2 get the same slot. */
  lemma DecreasingPlanesMayCollide(l: Layout)
    requires l.Valid() && l.nModule == [4, 3, 3]
    ensures Key(l, Channel(1, 2, 0, 0)) == Key(l, Channel(2, 0, 0, 0))
    ensures !PlanesApart(l)
  {
    KeysEqual(l, Channel(1, 2, 0, 0), Channel(2, 0, 0, 0));
    assert l.End(1) == 7 && l.Start(2) == 6 && l.End(2) == 9 && l.Start(1) == 4;
  }

  // ---- the strip map -------------------------------------------------------------

  ghost predicate InLayout(l: Layout, strips: seq<Channel>)
  {
    forall i :: 0 <= i < |strips| ==> strips[i].plane <= |l.nModule|
  }

  /** `m` maps each key among the first `n` strips to the first strip that has it. */
  ghost predicate MapsToFirst(l: Layout, strips: seq<Channel>, n: nat, m: map<int, nat>)
    requires l.Valid() && InLayout(l, strips) && n <= |strips|
  {
    && (forall k :: k in m ==> m[k] < n && Key(l, strips[m[k]]) == k)
    && (forall i :: 0 <= i < n ==> Key(l, strips[i]) in m && m[Key(l, strips[i])] <= i)
  }

  ghost predicate AllFresh(l: Layout, strips: seq<Channel>, n: nat)
    requires l.Valid() && InLayout(l, strips) && n <= |strips|
  {
    forall i, j :: 0 <= i < j < n ==> Key(l, strips[i]) != Key(l, strips[j])
  }

  /** The strip loop of `DoLoadEvent`: `insert` leaves a key alone that is already there, and
      the assertion after it holds throughout exactly when every key is new. */
  method BuildStripMap(l: Layout, strips: seq<Channel>) returns (fStripMap: map<int, nat>, allInserted: bool)
    requires l.Valid() && InLayout(l, strips)
    ensures MapsToFirst(l, strips, |strips|, fStripMap)
    ensures allInserted <==> AllFresh(l, strips, |strips|)
  {
    fStripMap, allInserted := map[], true;
    for i := 0 to |strips|
      invariant MapsToFirst(l, strips, i, fStripMap)
      invariant allInserted <==> AllFresh(l, strips, i)
    {
      var key := MakeROCKey(l, StripToROCD(l, strips[i]));
      FreshNext(l, strips, i, fStripMap, key);
      if key in fStripMap {
        allInserted := false;
      } else {
        fStripMap := fStripMap[key := i];
      }
    }
  }

  lemma FreshNext(l: Layout, strips: seq<Channel>, i: nat, m: map<int, nat>, key: int)
    requires l.Valid() && InLayout(l, strips) && i < |strips| && key == Key(l, strips[i]) && MapsToFirst(l, strips, i, m)
    ensures AllFresh(l, strips, i + 1) <==> AllFresh(l, strips, i) && key !in m
    ensures MapsToFirst(l, strips, i + 1, if key in m then m else m[key := i])
  {
    if key in m {
      assert Key(l, strips[m[key]]) == Key(l, strips[i]);
    }
  }

  function StripFromROC(l: Layout, fStripMap: map<int, nat>, a: Address): int
  {
    if fStripMap == map[] then -1
    else if MakeROCKey(l, a) !in fStripMap then -1
    else fStripMap[MakeROCKey(l, a)]
  }

  ghost predicate ReturnsOwn(l: Layout, strips: seq<Channel>, m: map<int, nat>)
    requires l.Valid() && InLayout(l, strips)
  {
    forall i :: 0 <= i < |strips| ==> StripFromROC(l, m, StripToROCD(l, strips[i])) == i
  }

  /** Every strip's address leads back to that strip exactly when all keys differ. */
  lemma RoundTripIff(l: Layout, strips: seq<Channel>, m: map<int, nat>)
    requires l.Valid() && InLayout(l, strips) && MapsToFirst(l, strips, |strips|, m)
    ensures ReturnsOwn(l, strips, m) <==> AllFresh(l, strips, |strips|)
  {
    forall i | 0 <= i < |strips|
      ensures StripFromROC(l, m, StripToROCD(l, strips[i])) == m[Key(l, strips[i])]
    {
      assert Key(l, strips[i]) in m;
    }
    if ReturnsOwn(l, strips, m) {
      forall i, j | 0 <= i < j < |strips|
        ensures Key(l, strips[i]) != Key(l, strips[j])
      {
        assert StripFromROC(l, m, StripToROCD(l, strips[i])) == i;
        assert StripFromROC(l, m, StripToROCD(l, strips[j])) == j;
      }
    }
  }

  /** An address no strip has is answered with -1. */
  lemma UnknownAddress(l: Layout, strips: seq<Channel>, m: map<int, nat>, a: Address)
    requires l.Valid() && InLayout(l, strips) && MapsToFirst(l, strips, |strips|, m)
    ensures StripFromROC(l, m, a) == -1 <==> forall i :: 0 <= i < |strips| ==> Key(l, strips[i]) != MakeROCKey(l, a)
  {
    if StripFromROC(l, m, a) != -1 {
      assert Key(l, strips[m[MakeROCKey(l, a)]]) == MakeROCKey(l, a);
    }
  }
}
