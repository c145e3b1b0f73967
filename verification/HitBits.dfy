/** Counting the planes a primary particle has crossed: a bit pattern, and the bit count of
    its 32-bit word by parallel addition. */
module HitBits {
  import opened Digitizer

  // ---- the bit count -------------------------------------------------------------

  predicate Set(v: bv32, k: nat)
    requires k < 32
  {
    v & ((1 as bv32) << k) != 0
  }

  function Bit(v: bv32, k: nat): nat
    requires k < 32
  {
    if Set(v, k) then 1 else 0
  }

  /** The bits set among the first `n`, one by one. */
  function CountTo(v: bv32, n: nat): nat
    requires n <= 32
  {
    if n == 0 then 0 else CountTo(v, n - 1) + Bit(v, n - 1)
  }

  function Count(v: bv32): nat { CountTo(v, 32) }

  lemma FourBits(v: bv32, n: nat)
    requires n <= 28
    ensures CountTo(v, n + 4) == CountTo(v, n) + Bit(v, n) + Bit(v, n + 1) + Bit(v, n + 2) + Bit(v, n + 3)
  {
    assert CountTo(v, n + 2) == CountTo(v, n) + Bit(v, n) + Bit(v, n + 1);
  }

  function Byte0(v: bv32): bv32 { v & 0xFF }
  function Byte1(v: bv32): bv32 { (v >> 8) & 0xFF }
  function Byte2(v: bv32): bv32 { (v >> 16) & 0xFF }
  function Byte3(v: bv32): bv32 { v >> 24 }

  /** The bits of one byte, as a 32-bit sum. */
  function SumByte(b: bv32): bv32
  {
    (b & 1) + ((b >> 1) & 1) + ((b >> 2) & 1) + ((b >> 3) & 1)
    + ((b >> 4) & 1) + ((b >> 5) & 1) + ((b >> 6) & 1) + ((b >> 7) & 1)
  }

  function CountByte(b: bv32): nat
  {
    Bit(b, 0) + Bit(b, 1) + Bit(b, 2) + Bit(b, 3) + Bit(b, 4) + Bit(b, 5) + Bit(b, 6) + Bit(b, 7)
  }

  lemma SumIsCount(b: bv32)
    ensures SumByte(b) as nat == CountByte(b)
  {
  }

  lemma Count0(v: bv32, b: bv32)
    requires b == Byte0(v)
    ensures Bit(v, 0) + Bit(v, 1) + Bit(v, 2) + Bit(v, 3) + Bit(v, 4) + Bit(v, 5) + Bit(v, 6) + Bit(v, 7) == CountByte(b)
  {
  }

  lemma Count1(v: bv32, b: bv32)
    requires b == Byte1(v)
    ensures Bit(v, 8) + Bit(v, 9) + Bit(v, 10) + Bit(v, 11) + Bit(v, 12) + Bit(v, 13) + Bit(v, 14) + Bit(v, 15) == CountByte(b)
  {
  }

  lemma Count2(v: bv32, b: bv32)
    requires b == Byte2(v)
    ensures Bit(v, 16) + Bit(v, 17) + Bit(v, 18) + Bit(v, 19) + Bit(v, 20) + Bit(v, 21) + Bit(v, 22) + Bit(v, 23) == CountByte(b)
  {
  }

  lemma Count3(v: bv32, b: bv32)
    requires b == Byte3(v)
    ensures Bit(v, 24) + Bit(v, 25) + Bit(v, 26) + Bit(v, 27) + Bit(v, 28) + Bit(v, 29) + Bit(v, 30) + Bit(v, 31) == CountByte(b)
  {
  }

  lemma EightBits(v: bv32, n: nat)
    requires n <= 24
    ensures CountTo(v, n + 8) == CountTo(v, n) + Bit(v, n) + Bit(v, n + 1) + Bit(v, n + 2) + Bit(v, n + 3)
                                 + Bit(v, n + 4) + Bit(v, n + 5) + Bit(v, n + 6) + Bit(v, n + 7)
  {
    FourBits(v, n);
    FourBits(v, n + 4);
  }

  lemma LowBytes(v: bv32, a: bv32, b: bv32)
    requires a == Byte0(v) && b == Byte1(v)
    ensures CountTo(v, 16) == CountByte(a) + CountByte(b)
  {
    EightBits(v, 0);
    EightBits(v, 8);
    Count0(v, a);
    Count1(v, b);
  }

  lemma HighBytes(v: bv32, c: bv32, d: bv32)
    requires c == Byte2(v) && d == Byte3(v)
    ensures CountTo(v, 32) == CountTo(v, 16) + CountByte(c) + CountByte(d)
  {
    EightBits(v, 16);
    EightBits(v, 24);
    Count2(v, c);
    Count3(v, d);
  }

  lemma CountByBytes(v: bv32)
    ensures Count(v) == CountByte(Byte0(v)) + CountByte(Byte1(v)) + CountByte(Byte2(v)) + CountByte(Byte3(v))
  {
    LowBytes(v, Byte0(v), Byte1(v));
    HighBytes(v, Byte2(v), Byte3(v));
  }

  // ---- in parallel ---------------------------------------------------------------

  /** `y` comes from `v` by the three parallel additions. */
  ghost predicate Added(v: bv32, w: bv32, x: bv32, y: bv32)
  {
    && w == v - ((v >> 1) & 0x55555555)
    && x == (w & 0x33333333) + ((w >> 2) & 0x33333333)
    && y == (x + (x >> 4)) & 0x0F0F0F0F
  }

  /** Then every byte holds the bit count of that byte; none has spilled into the next. */
  lemma Added0(v: bv32, w: bv32, x: bv32, y: bv32)
    requires Added(v, w, x, y)
    ensures Byte0(y) == SumByte(Byte0(v))
  {
  }

  lemma Added1(v: bv32, w: bv32, x: bv32, y: bv32)
    requires Added(v, w, x, y)
    ensures Byte1(y) == SumByte(Byte1(v))
  {
  }

  lemma Added2(v: bv32, w: bv32, x: bv32, y: bv32)
    requires Added(v, w, x, y)
    ensures Byte2(y) == SumByte(Byte2(v))
  {
  }

  lemma Added3(v: bv32, w: bv32, x: bv32, y: bv32)
    requires Added(v, w, x, y)
    ensures Byte3(y) == SumByte(Byte3(v))
  {
  }

  /** The multiplication adds up the four bytes. */
  lemma TopOfProduct(y: bv32, r: bv32, s: bv32, t: bv32)
    requires y & 0x0F0F0F0F == y && r == (y * 0x01010101) >> 24
    requires s == Byte0(y) + Byte1(y) && t == s + Byte2(y)
    ensures r == t + Byte3(y)
  {
  }

  lemma AddTwo(a: bv32, b: bv32, s: bv32)
    requires a <= 45 && b <= 15 && s == a + b
    ensures s as nat == a as nat + b as nat
    ensures a <= 15 ==> s <= 30
    ensures a <= 30 ==> s <= 45
  {
  }

  lemma {:induction false} AddsUp(a: bv32, b: bv32, c: bv32, d: bv32, s: bv32, t: bv32, u: bv32)
    requires a <= 15 && b <= 15 && c <= 15 && d <= 15
    requires s == a + b && t == s + c && u == t + d
    ensures u as nat == a as nat + b as nat + c as nat + d as nat
  {
    AddTwo(a, b, s);
    AddTwo(s, c, t);
    AddTwo(t, d, u);
  }

  method NumberOfSetBits(v: bv32) returns (n: nat)
    ensures n == Count(v)
  {
    var w := v - ((v >> 1) & 0x55555555);
    var x := (w & 0x33333333) + ((w >> 2) & 0x33333333);
    var y := (x + (x >> 4)) & 0x0F0F0F0F;
    var r := (y * 0x01010101) >> 24;
    TopIsCount(v, w, x, y, r);
    n := r as nat;
  }

  lemma TopIsCount(v: bv32, w: bv32, x: bv32, y: bv32, r: bv32)
    requires Added(v, w, x, y) && r == (y * 0x01010101) >> 24
    ensures r as nat == Count(v)
  {
    var a, b, c, d := ByteCounts(v, w, x, y);
    var s := a + b;
    var t := s + c;
    Top(y, r, a, b, c, d, s, t);
    CountByBytes(v);
    AddsUp(a, b, c, d, s, t, r);
  }

  lemma ByteCounts(v: bv32, w: bv32, x: bv32, y: bv32) returns (a: bv32, b: bv32, c: bv32, d: bv32)
    requires Added(v, w, x, y)
    ensures a == Byte0(y) && b == Byte1(y) && c == Byte2(y) && d == Byte3(y)
    ensures a as nat == CountByte(Byte0(v)) && b as nat == CountByte(Byte1(v))
    ensures c as nat == CountByte(Byte2(v)) && d as nat == CountByte(Byte3(v))
  {
    Added0(v, w, x, y);
    Added1(v, w, x, y);
    Added2(v, w, x, y);
    Added3(v, w, x, y);
    SumIsCount(Byte0(v));
    SumIsCount(Byte1(v));
    SumIsCount(Byte2(v));
    SumIsCount(Byte3(v));
    a, b, c, d := Byte0(y), Byte1(y), Byte2(y), Byte3(y);
  }

  lemma Top(y: bv32, r: bv32, a: bv32, b: bv32, c: bv32, d: bv32, s: bv32, t: bv32)
    requires y & 0x0F0F0F0F == y && r == (y * 0x01010101) >> 24
    requires a == Byte0(y) && b == Byte1(y) && c == Byte2(y) && d == Byte3(y) && s == a + b && t == s + c
    ensures r == t + d && a <= 15 && b <= 15 && c <= 15 && d <= 15
  {
    TopOfProduct(y, r, s, t);
    SmallBytes(y);
  }

  lemma SmallBytes(y: bv32)
    requires y & 0x0F0F0F0F == y
    ensures Byte0(y) <= 15 && Byte1(y) <= 15 && Byte2(y) <= 15 && Byte3(y) <= 15
  {
  }

  // ---- planes with a primary hit -------------------------------------------------

  predicate IsPrimary(c: Cluster) { c.fType == PRIMARY_TYPE && c.fSource == PRIMARY_SOURCE }

  /** `SETBIT` on a 32-bit word. */
  function SetBit(v: bv32, p: nat): bv32
    requires p < 32
  {
    v | ((1 as bv32) << p)
  }

  lemma OwnBit(v: bv32, p: nat)
    requires p < 32
    ensures Set(SetBit(v, p), p)
  {
  }

  lemma BitsApart(p: nat, k: nat)
    requires p < 32 && k < 32 && k != p
    ensures ((1 as bv32) << p) & ((1 as bv32) << k) == 0
  {
  }

  lemma {:induction false} OtherBit(v: bv32, p: nat, k: nat)
    requires p < 32 && k < 32 && k != p
    ensures Set(SetBit(v, p), k) == Set(v, k)
  {
    BitsApart(p, k);
  }

  lemma {:induction false} SetBitIs(v: bv32, p: nat, k: nat)
    requires p < 32 && k < 32
    ensures Set(SetBit(v, p), k) <==> Set(v, k) || k == p
  {
    if k == p {
      OwnBit(v, p);
    } else {
      OtherBit(v, p, k);
    }
  }

  ghost function BitsOf(v: bv32, n: nat): set<nat>
    requires n <= 32
  {
    set k: nat | k < n && Set(v, k)
  }

  lemma {:induction false} CountIsSize(v: bv32, n: nat)
    requires n <= 32
    ensures CountTo(v, n) == |BitsOf(v, n)|
  {
    if n > 0 {
      CountIsSize(v, n - 1);
      BitsNext(BitsOf(v, n), BitsOf(v, n - 1), n - 1, Set(v, n - 1));
    } else {
      assert BitsOf(v, 0) == {};
    }
  }

  lemma BitsNext(s: set<nat>, s0: set<nat>, n: nat, added: bool)
    requires forall k: nat :: k in s0 ==> k < n
    requires forall k: nat :: k in s <==> k in s0 || (k == n && added)
    ensures |s| == |s0| + if added then 1 else 0
  {
    assert s == s0 + if added then {n} else {};
  }

  /** The three patterns: planes with a primary signal cluster, and those where it left no
      signal in x or none in y. */
  datatype Pattern = Crossed | MissedX | MissedY

  predicate Marked(c: Cluster, k: Pattern)
  {
    && IsPrimary(c)
    && match k
       case Crossed => true
       case MissedX => c.fSize.0 == 0
       case MissedY => c.fSize.1 == 0
  }

  ghost function PlanesOf(cs: seq<Cluster>, k: Pattern): set<int>
  {
    set i | 0 <= i < |cs| && Marked(cs[i], k) :: cs[i].fPlane
  }

  ghost function Below32(planes: set<int>): set<int>
  {
    set p | p in planes && 0 <= p < 32
  }

  predicate LegalPlane(c: Cluster, nChamber: int) { 0 <= c.fPlane < nChamber }

  ghost predicate AllLegal(cs: seq<Cluster>, nChamber: int)
  {
    forall i :: 0 <= i < |cs| ==> LegalPlane(cs[i], nChamber)
  }

  /** `v` has the bits of those planes. */
  ghost predicate Marks(v: bv32, planes: set<int>)
  {
    forall k: nat :: k < 32 ==> (Set(v, k) <==> k in planes)
  }

  /** `best` is the first primary cluster closest to plane 0, or -1 if there is none. */
  ghost predicate IsBest(cs: seq<Cluster>, best: int)
  {
    if best < 0 then best == -1 && forall i :: 0 <= i < |cs| ==> !IsPrimary(cs[i])
    else
      && best < |cs| && IsPrimary(cs[best])
      && forall i :: 0 <= i < |cs| && IsPrimary(cs[i]) ==>
           cs[best].fPlane < cs[i].fPlane || (cs[best].fPlane == cs[i].fPlane && best <= i)
  }

  datatype Primary = Fatal | Primary(fNHits: nat, fHitBits: bv32, ufail: bv32, vfail: bv32, best: int)

  /** The cluster loop of `DoLoadEvent`, and the statistics it ends in. */
  method PrimaryHits(cs: seq<Cluster>, nChamber: int) returns (r: Primary)
    ensures r.Fatal? <==> !AllLegal(cs, nChamber)
    ensures r.Primary? ==> Marks(r.fHitBits, PlanesOf(cs, Crossed)) && IsBest(cs, r.best)
    ensures r.Primary? ==> Marks(r.ufail, PlanesOf(cs, MissedX)) && Marks(r.vfail, PlanesOf(cs, MissedY))
    ensures r.Primary? ==> r.fNHits == 2 * |Below32(PlanesOf(cs, Crossed))|
  {
    var best_primary, best_primary_plane := -1, nChamber;
    var primary_hitbits: bv32, ufail: bv32, vfail: bv32 := 0, 0, 0;
    NoBits();
    for i := 0 to |cs|
      invariant AllLegal(cs[..i], nChamber) && Marks(primary_hitbits, PlanesOf(cs[..i], Crossed))
      invariant Marks(ufail, PlanesOf(cs[..i], MissedX)) && Marks(vfail, PlanesOf(cs[..i], MissedY))
      invariant IsBest(cs[..i], best_primary)
      invariant best_primary_plane == if best_primary < 0 then nChamber else cs[best_primary].fPlane
    {
      var c := cs[i];
      if c.fPlane < 0 || c.fPlane >= nChamber {
        return Fatal;
      }
      if IsPrimary(c) && c.fPlane < best_primary_plane {
        best_primary, best_primary_plane := i, c.fPlane;
      }
      primary_hitbits := MarkPlane(primary_hitbits, cs, i, Crossed);
      ufail := MarkPlane(ufail, cs, i, MissedX);
      vfail := MarkPlane(vfail, cs, i, MissedY);
    }
    assert cs[..|cs|] == cs;
    var n := NumberOfSetBits(primary_hitbits);
    MarkedCount(primary_hitbits, PlanesOf(cs, Crossed));
    r := Primary(2 * n, primary_hitbits, ufail, vfail, best_primary);
  }

  /** Sets the plane's bit if the cluster belongs to the pattern; a bit beyond the 32-bit word
      would be lost. */
  method MarkPlane(v: bv32, cs: seq<Cluster>, i: nat, k: Pattern) returns (w: bv32)
    requires i < |cs| && cs[i].fPlane >= 0 && Marks(v, PlanesOf(cs[..i], k))
    ensures Marks(w, PlanesOf(cs[..i + 1], k))
  {
    w := v;
    PlanesNext(cs, i, k);
    if Marked(cs[i], k) && cs[i].fPlane < 32 {
      w := SetBit(v, cs[i].fPlane);
      MarksAdded(v, PlanesOf(cs[..i], k), cs[i].fPlane);
    }
  }

  lemma NoBits()
    ensures forall k: Pattern :: Marks(0, PlanesOf([], k))
  {
    forall k: nat | k < 32
      ensures !Set(0, k)
    {
      assert (0 as bv32) & ((1 as bv32) << k) == 0;
    }
  }

  lemma PlanesNext(cs: seq<Cluster>, i: nat, k: Pattern)
    requires i < |cs|
    ensures PlanesOf(cs[..i + 1], k) == PlanesOf(cs[..i], k) + if Marked(cs[i], k) then {cs[i].fPlane} else {}
  {
    var before, after := cs[..i], cs[..i + 1];
    assert forall j :: 0 <= j < i ==> after[j] == before[j];
    assert after[i] == cs[i];
  }

  lemma {:induction false} MarksAdded(v: bv32, planes: set<int>, p: nat)
    requires p < 32 && Marks(v, planes)
    ensures Marks(SetBit(v, p), planes + {p})
  {
    forall k: nat | k < 32
      ensures Set(SetBit(v, p), k) <==> k in planes || k == p
    {
      SetBitIs(v, p, k);
    }
  }

  lemma MarkedCount(v: bv32, planes: set<int>)
    requires Marks(v, planes)
    ensures Count(v) == |Below32(planes)|
  {
    CountIsSize(v, 32);
    SameSize(BitsOf(v, 32), Below32(planes));
  }

  lemma {:induction false} SameSize(a: set<nat>, b: set<int>)
    requires forall k: int :: k in b <==> k >= 0 && k in a
    ensures |a| == |b|
  {
    if a != {} {
      var k :| k in a;
      SameSize(a - {k}, b - {k});
    } else {
      assert forall k :: k in b ==> k >= 0 && k in a;
      assert b == {};
    }
  }

  /** The patterns in full: planes with a primary signal cluster, those where one has no strip in
      x, and those where one has none in y. */
  lemma {:induction false} PatternsAre(cs: seq<Cluster>, p: int)
    ensures p in PlanesOf(cs, Crossed) <==>
              exists i :: 0 <= i < |cs| && cs[i].fPlane == p && cs[i].fType == 1 && cs[i].fSource == 0
    ensures p in PlanesOf(cs, MissedX) <==>
              exists i :: 0 <= i < |cs| && cs[i].fPlane == p && cs[i].fType == 1 && cs[i].fSource == 0 && cs[i].fSize.0 == 0
    ensures p in PlanesOf(cs, MissedY) <==>
              exists i :: 0 <= i < |cs| && cs[i].fPlane == p && cs[i].fType == 1 && cs[i].fSource == 0 && cs[i].fSize.1 == 0
  {
    forall i | 0 <= i < |cs|
      ensures Marked(cs[i], Crossed) <==> cs[i].fType == 1 && cs[i].fSource == 0
      ensures Marked(cs[i], MissedX) <==> cs[i].fType == 1 && cs[i].fSource == 0 && cs[i].fSize.0 == 0
      ensures Marked(cs[i], MissedY) <==> cs[i].fType == 1 && cs[i].fSource == 0 && cs[i].fSize.1 == 0
    {
    }
  }

  /** With at most 32 planes none is missed: twice the number of distinct planes. */
  lemma NothingMissed(cs: seq<Cluster>, nChamber: int)
    requires AllLegal(cs, nChamber) && nChamber <= 32
    ensures Below32(PlanesOf(cs, Crossed)) == PlanesOf(cs, Crossed)
  {
    forall p | p in PlanesOf(cs, Crossed)
      ensures 0 <= p < 32
    {
      var i :| 0 <= i < |cs| && Marked(cs[i], Crossed) && cs[i].fPlane == p;
      assert LegalPlane(cs[i], nChamber);
    }
  }
}
