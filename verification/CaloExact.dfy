/** What calorimeter clusters come to in coordinates: which blocks are joined, which stay
    apart, what two hits are reported as, and that x and y are alike. */
module CaloExact {
  import opened Numeric
  import opened RealAlgebra
  import opened Sums
  import opened CaloGrowth
  import opened CaloReconstruction
  import opened CaloResults

  // ---- two blocks ----------------------------------------------------------------

  lemma NearIs(e: real, f: real, x: real, y: real, dx: real, dy: real, r: real)
    ensures Near(Block(f, x + dx, y + dy), Block(e, x, y), r) <==> dx * dx + dy * dy < r
  {
    var a, b := Block(e, x, y), Block(f, x + dx, y + dy);
    assert b.x - a.x == dx && b.y - a.y == dy;
  }

  predicate Closer(dx: real, dy: real, r: real)
  {
    dx * dx + dy * dy < r
  }

  /** Grown from a block at (x, y), the cluster takes in a block at (x + dx, y + dy) exactly
      when the two are closer than the reach. */
  lemma {:induction false} PairGrows(e: real, f: real, x: real, y: real, dx: real, dy: real, r: real,
                                      blocks: seq<Block>, clus: seq<Block>)
    requires Extends([Block(f, x + dx, y + dy)], [Block(e, x, y)], blocks, clus, r) && Closed(blocks, clus, r)
    ensures if dx * dx + dy * dy < r then blocks == [] && clus == [Block(e, x, y), Block(f, x + dx, y + dy)]
            else blocks == [Block(f, x + dx, y + dy)] && clus == [Block(e, x, y)]
  {
    var a, b := Block(e, x, y), Block(f, x + dx, y + dy);
    NearIs(e, f, x, y, dx, dy, r);
    SizesAddUp([b], [a], blocks, clus, r);
    assert clus[0] == a;
    if |clus| == 1 {
      OnlyOne(blocks, clus, a, b);
      assert !Near(blocks[0], clus[0], r);
    } else {
      OtherOne(blocks, clus, a, b);
      assert Joined(clus, 1, r);
    }
  }

  lemma OnlyOne(blocks: seq<Block>, clus: seq<Block>, a: Block, b: Block)
    requires |blocks| == 1 && |clus| == 1 && clus[0] == a
    requires multiset(blocks) + multiset(clus) == multiset([b]) + multiset([a])
    ensures blocks == [b] && clus == [a]
  {
    assert blocks == [blocks[0]] && clus == [a];
    MultisetCancel(multiset(blocks), multiset([b]), a);
    MultisetCancel(multiset([b]), multiset(blocks), a);
    assert blocks[0] in multiset(blocks);
  }

  lemma OtherOne(blocks: seq<Block>, clus: seq<Block>, a: Block, b: Block)
    requires |blocks| == 0 && |clus| == 2 && clus[0] == a
    requires multiset(blocks) + multiset(clus) == multiset([b]) + multiset([a])
    ensures clus == [a, b]
  {
    assert clus == [a] + [clus[1]];
    assert multiset(clus) == multiset([clus[1]]) + multiset{a};
    MultisetCancel(multiset([clus[1]]), multiset([b]), a);
    assert clus[1] in multiset([clus[1]]);
  }

  // ---- blocks that stay apart ----------------------------------------------------

  lemma {:induction false} WalkMisses(p: seq<Block>, pool: multiset<Block>, h: Block, r: real)
    requires Chain(p, pool, r) && p[0] != h && forall b :: b in pool && b != h ==> !Near(h, b, r)
    ensures p[|p| - 1] != h
  {
    var n := |p| - 1;
    if n > 0 {
      WalkMisses(p[..n], pool, h, r);
      assert Near(p[n], p[n - 1], r);
    }
  }

  lemma {:induction false} NotLinked(a: Block, h: Block, pool: multiset<Block>, r: real)
    requires a != h && forall b :: b in pool && b != h ==> !Near(h, b, r)
    ensures !Linked(a, h, pool, r) && !Linked(h, a, pool, r)
  {
    if Linked(h, a, pool, r) {
      LinkedBack(h, a, pool, r);
    }
    if Linked(a, h, pool, r) {
      var p :| Chain(p, pool, r) && p[0] == a && p[|p| - 1] == h;
      WalkMisses(p, pool, h, r);
    }
  }

  /** At least `reach` away from all other accepted blocks in y, or in x. */
  ghost predicate Alone(acc: seq<Block>, h: Block, reach: real)
  {
    || (forall b :: b in acc && b != h ==> b.y - h.y >= reach || h.y - b.y >= reach)
    || (forall b :: b in acc && b != h ==> b.x - h.x >= reach || h.x - b.x >= reach)
  }

  lemma FarApart(d: real, other: real, reach: real)
    requires reach > 0.0 && (d >= reach || -d >= reach)
    ensures d * d + other * other >= reach * reach
  {
    var m := if d >= reach then d else -d;
    assert d * d == m * m;
    ScaleOrder(reach, reach, m);
    ScaleOrder(m, reach, m);
    SquareIs(other);
  }

  lemma SquareIs(a: real)
    ensures a * a >= 0.0
  {
    assert Square(a) == a * a;
  }

  lemma NotNear(h: Block, b: Block, reach: real)
    requires reach > 0.0
    requires b.y - h.y >= reach || h.y - b.y >= reach || b.x - h.x >= reach || h.x - b.x >= reach
    ensures !Near(h, b, reach * reach)
  {
    var dx, dy := h.x - b.x, h.y - b.y;
    if dy >= reach || -dy >= reach {
      FarApart(dy, dx, reach);
    } else {
      FarApart(dx, dy, reach);
    }
    NearIs(b.e, h.e, b.x, b.y, dx, dy, reach * reach);
    assert h == Block(h.e, b.x + dx, b.y + dy) && b == Block(b.e, b.x, b.y);
  }

  /** A block that far from all others is in no cluster but its own, and alone in that. */
  lemma {:induction false} AloneStaysAlone(acc: seq<Block>, clus: seq<Block>, reach: real, h: Block)
    requires reach > 0.0 && acc != [] && IsComponent(acc, clus, reach * reach) && Alone(acc, h, reach)
    ensures Seed(acc) != h ==> h !in clus
    ensures Seed(acc) == h ==> forall g :: g in clus ==> g == h
  {
    var r, pool := reach * reach, multiset(acc);
    forall b | b in pool && b != h
      ensures !Near(h, b, r)
    {
      NotNear(h, b, reach);
    }
    if Seed(acc) != h {
      NotLinked(Seed(acc), h, pool, r);
      assert multiset(clus)[h] == 0;
    } else {
      forall g | g in clus
        ensures g == h
      {
        assert g in multiset(clus);
        if g != h {
          NotLinked(g, h, pool, r);
        }
      }
    }
  }

  // ---- what two hits are reported as ---------------------------------------------

  lemma SumOfTwo(a: Block, b: Block, w: Block -> real)
    ensures Sum([a], w) == w(a) && Sum([a, b], w) == w(a) + w(b)
  {
    assert [a] == [] + [a] && [a, b] == [a] + [b];
    SumSnoc([], a, w);
    SumSnoc([a], b, w);
  }

  lemma SeedOfTwo(a: Block, b: Block)
    requires a.e >= b.e
    ensures Seed([a, b]) == a
  {
    assert [a, b][..1] == [a];
  }

  lemma NearPair(a: Block, b: Block, dx: real, dy: real, r: real)
    requires r > 0.0 && b.x == a.x + dx && b.y == a.y + dy
    ensures Near(b, a, r) == Closer(dx, dy, r) && (a == b ==> Near(b, a, r))
  {
    NearIs(a.e, b.e, a.x, a.y, dx, dy, r);
    assert a == Block(a.e, a.x, a.y) && b == Block(b.e, a.x + dx, a.y + dy);
    if a == b {
      NearItself(a, r);
    }
  }

  /** The cluster of two accepted hits, the first with at least the energy of the second. */
  lemma {:induction false} PairCluster(a: Block, b: Block, near: bool, r: real, clus: seq<Block>)
    requires r > 0.0 && a.e >= b.e && near == Near(b, a, r) && (a == b ==> near) && IsComponent([a, b], clus, r)
    ensures multiset(clus) == if near then multiset([a, b]) else multiset([a])
  {
    SeedOfTwo(a, b);
    PairLinked(a, b, r);
    PairHolds(a, b, near, r, clus);
  }

  lemma {:induction false} PairLinked(a: Block, b: Block, r: real)
    requires r > 0.0
    ensures Linked(a, a, multiset([a, b]), r)
    ensures Linked(a, b, multiset([a, b]), r) <==> Near(b, a, r)
  {
    var pool := multiset([a, b]);
    assert Chain([a], pool, r) && [a][0] == a;
    if Near(b, a, r) {
      var w := [a, b];
      assert Chain(w, pool, r) && w[0] == a && w[|w| - 1] == b;
    } else {
      if a == b {
        NearItself(a, r);
      }
      NotLinked(a, b, pool, r);
    }
  }

  lemma {:induction false} PairHolds(a: Block, b: Block, near: bool, r: real, clus: seq<Block>)
    requires Around([a, b], a, clus, r) && Linked(a, a, multiset([a, b]), r)
    requires Linked(a, b, multiset([a, b]), r) <==> near
    requires a == b ==> near
    ensures multiset(clus) == if near then multiset([a, b]) else multiset([a])
  {
    forall h: Block
      ensures multiset(clus)[h] == (if near then multiset([a, b]) else multiset([a]))[h]
    {
      if h != a && h != b {
        assert multiset([a, b])[h] == 0;
      }
    }
  }

  /** ... and its sums. */
  lemma {:induction false} PairSums(a: Block, b: Block, dx: real, dy: real, near: bool, r: real, clus: seq<Block>)
    requires r > 0.0 && a.e >= b.e && b.x == a.x + dx && b.y == a.y + dy && near == Closer(dx, dy, r)
    requires IsComponent([a, b], clus, r)
    ensures && Energy(clus) == (if near then a.e + b.e else a.e)
            && Sum(clus, XMoment) == (if near then Product(a.x, a.e) + Product(b.x, b.e) else Product(a.x, a.e))
            && Sum(clus, YMoment) == (if near then Product(a.y, a.e) + Product(b.y, b.e) else Product(a.y, a.e))
  {
    NearPair(a, b, dx, dy, r);
    PairCluster(a, b, near, r, clus);
    var s := if near then [a, b] else [a];
    SumOrderFree(clus, s, EnergyOf);
    SumOrderFree(clus, s, XMoment);
    SumOrderFree(clus, s, YMoment);
    SumOfTwo(a, b, EnergyOf);
    SumOfTwo(a, b, XMoment);
    SumOfTwo(a, b, YMoment);
    assert EnergyOf(a) == a.e && EnergyOf(b) == b.e;
    assert XMoment(a) == Product(a.x, a.e) && XMoment(b) == Product(b.x, b.e);
    assert YMoment(a) == Product(a.y, a.e) && YMoment(b) == Product(b.y, b.e);
  }

  /** The hits with at least three photoelectrons, in order. */
  function Strong(hits: seq<Hit>): seq<Hit>
  {
    if hits == [] then []
    else Strong(hits[..|hits| - 1]) + if hits[|hits| - 1].npe >= 3 then [hits[|hits| - 1]] else []
  }

  predicate BlockOf(b: Block, h: Hit, perGeV: real)
  {
    b.x == h.x && b.y == h.y && b.e * perGeV == h.npe as real
  }

  /** The accepted blocks are those, each at its place and with its photoelectrons' energy. */
  lemma {:induction false} AcceptedAre(hits: seq<Hit>, perGeV: real)
    requires perGeV > 0.0
    ensures |Accepted(hits, perGeV)| == |Strong(hits)|
    ensures forall i :: 0 <= i < |Strong(hits)| ==> BlockOf(Accepted(hits, perGeV)[i], Strong(hits)[i], perGeV)
  {
    if hits != [] {
      var n := |hits| - 1;
      AcceptedAre(hits[..n], perGeV);
      AcceptsOne(hits[n], perGeV);
    }
  }

  lemma AcceptsOne(h: Hit, perGeV: real)
    requires perGeV > 0.0
    ensures if h.npe >= 3 then |Accept(h, perGeV)| == 1 && BlockOf(Accept(h, perGeV)[0], h, perGeV) else Accept(h, perGeV) == []
  {
    QuotientOrder(perGeV, 0.0, h.npe as real);
  }

  lemma AcceptedTwo(n: int, x: real, y: real, m: int, u: real, v: real, perGeV: real)
    requires n >= 3 && m >= 3 && perGeV > 0.0
    ensures Accepted([Hit(n, x, y), Hit(m, u, v)], perGeV) == [Block(n as real / perGeV, x, y), Block(m as real / perGeV, u, v)]
  {
    var hits := [Hit(n, x, y), Hit(m, u, v)];
    assert hits[..1] == [Hit(n, x, y)] && hits[..1][..0] == [];
    assert Accepted(hits[..1], perGeV) == [] + [Block(n as real / perGeV, x, y)];
  }

  /** A mean of two positions weighted with counts: the energy scale drops out. */
  lemma MeanOfTwo(n: int, m: int, x: real, u: real, perGeV: real, e: real, moment: real)
    requires n >= m >= 3 && perGeV > 0.0 && e == n as real / perGeV + m as real / perGeV
    requires moment == Product(x, n as real / perGeV) + Product(u, m as real / perGeV)
    ensures e == (n + m) as real / perGeV > 0.0
    ensures Quotient(moment, e).Finite? && Quotient(moment, e).value * (n + m) as real == n as real * x + m as real * u
  {
    var a, b, q := n as real / perGeV, m as real / perGeV, Quotient(moment, e);
    QuotientOrder(perGeV, 0.0, n as real);
    QuotientOrder(perGeV, 0.0, m as real);
    Dist(perGeV, a, b);
    assert a * perGeV == n as real && b * perGeV == m as real && e * perGeV == (n + m) as real;
    SumOverScale(perGeV, e, (n + m) as real);
    ScaleOrder(perGeV, 0.0, e);
    MeanScales(q.value, e, x, a, u, b, perGeV, n as real, m as real, (n + m) as real);
  }

  lemma SumOverScale(p: real, e: real, t: real)
    requires p > 0.0 && e * p == t
    ensures e == t / p
  {
    ScaleOrder(p, e, t / p);
    ScaleOrder(p, t / p, e);
  }

  lemma MeanScales(q: real, e: real, x: real, a: real, u: real, b: real, p: real, pa: real, pb: real, pe: real)
    requires q * e == x * a + u * b && a * p == pa && b * p == pb && e * p == pe
    ensures q * pe == pa * x + pb * u
  {
    assert q * pe == (q * e) * p;
    Dist(p, x * a, u * b);
    assert (x * a) * p == x * pa;
    assert (u * b) * p == u * pb;
  }

  /** One position: the energy drops out altogether. */
  lemma MeanOfOne(n: int, x: real, perGeV: real, e: real, moment: real)
    requires n >= 3 && perGeV > 0.0 && e == n as real / perGeV && moment == Product(x, e)
    ensures e > 0.0 && Quotient(moment, e) == Finite(x)
  {
    QuotientOrder(perGeV, 0.0, n as real);
    SumOverScale(e, x, moment);
  }

  /** A cluster at the mean of both positions when the hits are near, else at the first. */
  ghost predicate AtMean(x: Double, near: bool, n: int, x0: real, m: int, dx: real)
  {
    x.Finite? && if near then x.value * (n + m) as real == n as real * x0 + m as real * (x0 + dx) else x.value == x0
  }

  lemma {:induction false} PairMean(near: bool, n: int, m: int, x: real, dx: real, perGeV: real, e: real, moment: real)
    requires n >= m >= 3 && perGeV > 0.0
    requires e == if near then n as real / perGeV + m as real / perGeV else n as real / perGeV
    requires moment == if near then Product(x, n as real / perGeV) + Product(x + dx, m as real / perGeV)
                       else Product(x, n as real / perGeV)
    ensures e == (if near then n + m else n) as real / perGeV && AtMean(Quotient(moment, e), near, n, x, m, dx)
  {
    if near {
      MeanOfTwo(n, m, x, x + dx, perGeV, e, moment);
    } else {
      MeanOfOne(n, x, perGeV, e, moment);
    }
  }

  /** Two ECal hits, the first with at least as many photoelectrons: joined when closer than
      0.0462, reported when the cluster's energy exceeds the threshold, at their mean position
      and with the place of the first. */
  lemma {:induction false} ECalTwoHits(n: int, x: real, y: real, m: int, dx: real, dy: real, near: bool, caloThr: real,
                                       ecal: seq<CaloCluster>)
    requires near <==> dx * dx + dy * dy < 0.0462 * 0.0462
    requires n >= m >= 3 && IsECal(Accepted([Hit(n, x, y), Hit(m, x + dx, y + dy)], NPE_EDEP_ECAL), caloThr, ecal)
    ensures var e := (if near then n + m else n) as real / 538.0;
            if e <= caloThr then ecal == []
            else
              && |ecal| == 1 && ecal[0].energy == e && ecal[0].detFlag == 12 && ecal[0].time == 0.0
              && AtMean(ecal[0].xPos, near, n, x, m, dx) && AtMean(ecal[0].yPos, near, n, y, m, dy)
              && ecal[0].xMax == x && ecal[0].yMax == y
  {
    var a, b := Block(n as real / 538.0, x, y), Block(m as real / 538.0, x + dx, y + dy);
    assert near == Closer(dx, dy, ECAL_REACH);
    AcceptedTwo(n, x, y, m, x + dx, y + dy, 538.0);
    ECalOfTwo(n, a, m, b, dx, dy, near, caloThr, Accepted([Hit(n, x, y), Hit(m, x + dx, y + dy)], NPE_EDEP_ECAL), ecal);
  }

  lemma {:induction false} ECalOfTwo(n: int, a: Block, m: int, b: Block, dx: real, dy: real, near: bool, caloThr: real,
                                     acc: seq<Block>, ecal: seq<CaloCluster>)
    requires n >= m >= 3 && near == Closer(dx, dy, ECAL_REACH) && b.x == a.x + dx && b.y == a.y + dy
    requires a.e == n as real / 538.0 && b.e == m as real / 538.0 && acc == [a, b] && IsECal(acc, caloThr, ecal)
    ensures var e := (if near then n + m else n) as real / 538.0;
            if e <= caloThr then ecal == []
            else
              && |ecal| == 1 && ecal[0].energy == e && ecal[0].detFlag == 12 && ecal[0].time == 0.0
              && AtMean(ecal[0].xPos, near, n, a.x, m, dx) && AtMean(ecal[0].yPos, near, n, a.y, m, dy)
              && ecal[0].xMax == a.x && ecal[0].yMax == a.y
  {
    var clus :| IsComponent(acc, clus, ECAL_REACH) && ecal == ECalClusters(acc, clus, caloThr);
    TwoHitCluster(n, m, a, b, dx, dy, near, 538.0, ECAL_REACH, clus);
    SeedOfTwo(a, b);
  }

  /** The energy and the two means of a cluster of two hits. */
  lemma {:induction false} TwoHitCluster(n: int, m: int, a: Block, b: Block, dx: real, dy: real, near: bool,
                                         perGeV: real, r: real, clus: seq<Block>)
    requires n >= m >= 3 && perGeV > 0.0 && r > 0.0 && near == Closer(dx, dy, r)
    requires a.e == n as real / perGeV && b.e == m as real / perGeV && b.x == a.x + dx && b.y == a.y + dy
    requires IsComponent([a, b], clus, r)
    ensures a.e >= b.e
    ensures && Energy(clus) == (if near then n + m else n) as real / perGeV > 0.0
            && AtMean(Quotient(Sum(clus, XMoment), Energy(clus)), near, n, a.x, m, dx)
            && AtMean(Quotient(Sum(clus, YMoment), Energy(clus)), near, n, a.y, m, dy)
  {
    QuotientOrder(perGeV, m as real, n as real);
    QuotientOrder(perGeV, 0.0, n as real);
    PairSums(a, b, dx, dy, near, r, clus);
    PairMean(near, n, m, a.x, dx, perGeV, Energy(clus), Sum(clus, XMoment));
    PairMean(near, n, m, a.y, dy, perGeV, Energy(clus), Sum(clus, YMoment));
    QuotientOrder(perGeV, 0.0, (if near then n + m else n) as real);
  }

  /** Two HCal hits: joined when closer than 0.228; X is minus the mean of the cells' y, Y the
      mean of their x. */
  lemma {:induction false} HCalTwoHits(n: int, x: real, y: real, m: int, dx: real, dy: real, near: bool, hcal: seq<CaloCluster>)
    requires near <==> dx * dx + dy * dy < 0.228 * 0.228
    requires n >= m >= 3 && IsHCalEvent([Hit(n, x, y), Hit(m, x + dx, y + dy)], hcal)
    ensures if (n + m) as real / 5000.0 <= 0.01 then hcal == []
            else
              && |hcal| == 1 && hcal[0].energy == (if near then n + m else n) as real / 5000.0
              && hcal[0].xPos.Finite? && AtMean(Finite(-hcal[0].xPos.value), near, n, y, m, dy)
              && AtMean(hcal[0].yPos, near, n, x, m, dx) && hcal[0].detFlag == 0 && hcal[0].time == 0.0
  {
    assert near == Closer(dx, dy, HCAL_REACH);
    var a, b := HCalTwoHitsTotal(n, x, y, m, x + dx, y + dy);
    if (n + m) as real / 5000.0 > 0.01 {
      HCalTwoHitsCluster(n, a, m, b, dx, dy, near, Accepted([Hit(n, x, y), Hit(m, x + dx, y + dy)], NPE_EDEP_HCAL), hcal);
    }
  }

  lemma HCalTwoHitsTotal(n: int, x: real, y: real, m: int, u: real, v: real) returns (a: Block, b: Block)
    requires n >= 3 && m >= 3
    ensures a == Block(n as real / 5000.0, x, y) && b == Block(m as real / 5000.0, u, v)
    ensures Accepted([Hit(n, x, y), Hit(m, u, v)], NPE_EDEP_HCAL) == [a, b]
    ensures Energy(Accepted([Hit(n, x, y), Hit(m, u, v)], NPE_EDEP_HCAL)) == (n + m) as real / 5000.0
  {
    a, b := Block(n as real / 5000.0, x, y), Block(m as real / 5000.0, u, v);
    AcceptedTwo(n, x, y, m, u, v, 5000.0);
    SumOfTwo(a, b, EnergyOf);
    assert EnergyOf(a) == a.e && EnergyOf(b) == b.e;
  }

  lemma {:induction false} HCalTwoHitsCluster(n: int, a: Block, m: int, b: Block, dx: real, dy: real, near: bool,
                                              acc: seq<Block>, hcal: seq<CaloCluster>)
    requires n >= m >= 3 && near == Closer(dx, dy, HCAL_REACH) && b.x == a.x + dx && b.y == a.y + dy
    requires a.e == n as real / 5000.0 && b.e == m as real / 5000.0 && acc == [a, b] && IsHCal(acc, hcal)
    ensures && |hcal| == 1 && hcal[0].energy == (if near then n + m else n) as real / 5000.0
            && hcal[0].xPos.Finite? && AtMean(Finite(-hcal[0].xPos.value), near, n, a.y, m, dy)
            && AtMean(hcal[0].yPos, near, n, a.x, m, dx) && hcal[0].detFlag == 0 && hcal[0].time == 0.0
  {
    var clus :| IsComponent(acc, clus, HCAL_REACH) && hcal == [Turned(clus)];
    TwoHitCluster(n, m, a, b, dx, dy, near, 5000.0, HCAL_REACH, clus);
    TurnedMeans(clus);
  }

  lemma TurnedMeans(clus: seq<Block>)
    requires Energy(clus) > 0.0
    ensures Turned(clus).xPos.Finite? && Finite(-Turned(clus).xPos.value) == Quotient(Sum(clus, YMoment), Energy(clus))
    ensures Turned(clus).yPos == Quotient(Sum(clus, XMoment), Energy(clus))
    ensures Turned(clus).energy == Energy(clus) && Turned(clus).detFlag == 0 && Turned(clus).time == 0.0
  {
    QuotientOrder(Energy(clus), 0.0, Sum(clus, YMoment));
  }

  function OffCentre(xcell: real, col: int): real
  {
    if col % 2 == 1 then xcell + 0.255 else xcell - 0.255
  }

  /** Two slats of a CDet plane, in cells an x distance `dx` apart: joined when closer than
      0.0055; a slat of an odd column lies 0.255 above its cell's x, of an even one below. */
  lemma {:induction false} CDetTwoSlats(n: int, u: real, y: real, col: int, m: int, v: real, dy: real, col2: int,
                                        x: real, dx: real, near: bool, plane: int, s: ScintCluster)
    requires n >= m >= 3 && x == OffCentre(u, col) && x + dx == OffCentre(v, col2)
    requires near <==> dx * dx + dy * dy < 0.0055 * 0.0055
    requires IsScint(SlatsOn([SlatHit(n, u, y, col, plane), SlatHit(m, v, y + dy, col2, plane)], plane), plane, s)
    ensures s.plane == plane && s.cluster.energy == (if near then n + m else n) as real / 5634.0
    ensures AtMean(s.cluster.xPos, near, n, x, m, dx) && AtMean(s.cluster.yPos, near, n, y, m, dy)
    ensures s.cluster.detFlag == 31 && s.cluster.time == 0.0 && s.cluster.xMax == s.cluster.yMax == 0.0
  {
    assert near == Closer(dx, dy, CDET_REACH);
    var slats := [SlatHit(n, u, y, col, plane), SlatHit(m, v, y + dy, col2, plane)];
    var a, b := TwoSlats(n, u, y, col, m, v, y + dy, col2, plane, x, x + dx);
    ScintOfTwo(n, a, m, b, dx, dy, near, plane, SlatsOn(slats, plane), s);
  }

  lemma TwoSlats(n: int, u: real, y: real, col: int, m: int, v: real, w: real, col2: int, plane: int, x: real, x2: real)
    returns (a: Block, b: Block)
    requires n >= 3 && m >= 3 && x == OffCentre(u, col) && x2 == OffCentre(v, col2)
    ensures a == Block(n as real / 5634.0, x, y) && b == Block(m as real / 5634.0, x2, w)
    ensures SlatsOn([SlatHit(n, u, y, col, plane), SlatHit(m, v, w, col2, plane)], plane) == [a, b]
  {
    a, b := Block(n as real / 5634.0, x, y), Block(m as real / 5634.0, x2, w);
    SlatsOnTwo(SlatHit(n, u, y, col, plane), SlatHit(m, v, w, col2, plane));
    AcceptedTwo(n, x, y, m, x2, w, 5634.0);
  }

  lemma {:induction false} ScintOfTwo(n: int, a: Block, m: int, b: Block, dx: real, dy: real, near: bool, plane: int,
                                      acc: seq<Block>, s: ScintCluster)
    requires n >= m >= 3 && near == Closer(dx, dy, CDET_REACH) && b.x == a.x + dx && b.y == a.y + dy
    requires a.e == n as real / 5634.0 && b.e == m as real / 5634.0 && acc == [a, b] && IsScint(acc, plane, s)
    ensures && s.plane == plane && s.cluster.energy == (if near then n + m else n) as real / 5634.0
            && AtMean(s.cluster.xPos, near, n, a.x, m, dx) && AtMean(s.cluster.yPos, near, n, a.y, m, dy)
            && s.cluster.detFlag == 31 && s.cluster.time == 0.0 && s.cluster.xMax == s.cluster.yMax == 0.0
  {
    var clus :| IsComponent(acc, clus, CDET_REACH) && s == ScintCluster(plane, Reconstructed(clus, CDET_FLAG, 0.0, 0.0));
    TwoHitCluster(n, m, a, b, dx, dy, near, 5634.0, CDET_REACH, clus);
  }

  lemma SlatXIs(h: SlatHit)
    ensures SlatX(h) == OffCentre(h.xcell, h.col)
  {
    assert (h.col - 1) % 2 == 0 <==> h.col % 2 == 1;
  }

  lemma SlatsOnTwo(a: SlatHit, b: SlatHit)
    requires a.plane == b.plane
    ensures SlatsOn([a, b], a.plane) ==
            Accepted([Hit(a.npe, OffCentre(a.xcell, a.col), a.ycell),
                      Hit(b.npe, OffCentre(b.xcell, b.col), b.ycell)], NPE_EDEP_CDET)
  {
    SlatXIs(a);
    SlatXIs(b);
    assert [a, b][..0] == [];
    OnPlaneNext([a, b], 0, a.plane);
    OnPlaneNext([a, b], 1, a.plane);
    assert [a, b][..2] == [a, b];
    assert OnPlane([a, b], a.plane) == [Hit(a.npe, SlatX(a), a.ycell), Hit(b.npe, SlatX(b), b.ycell)];
  }

  // ---- x and y are alike ---------------------------------------------------------

  function Exchanged(b: Block): Block { Block(b.e, b.y, b.x) }

  function AllExchanged(s: seq<Block>): (r: seq<Block>)
    ensures |r| == |s| && forall i :: 0 <= i < |s| ==> r[i] == Exchanged(s[i])
  {
    seq(|s|, i requires 0 <= i < |s| => Exchanged(s[i]))
  }

  lemma ExchangedNear(a: Block, b: Block, r: real)
    ensures Near(Exchanged(a), Exchanged(b), r) == Near(a, b, r)
  {
  }

  lemma {:induction false} ExchangedCount(s: seq<Block>, h: Block)
    ensures multiset(AllExchanged(s))[Exchanged(h)] == multiset(s)[h]
  {
    if s != [] {
      var n := |s| - 1;
      ExchangedCount(s[..n], h);
      LastMultiset(s);
      LastMultiset(AllExchanged(s));
      assert AllExchanged(s)[..n] == AllExchanged(s[..n]);
    }
  }

  lemma {:induction false} ExchangedLinked(a: Block, b: Block, s: seq<Block>, r: real)
    requires Linked(a, b, multiset(s), r)
    ensures Linked(Exchanged(a), Exchanged(b), multiset(AllExchanged(s)), r)
  {
    var p :| Chain(p, multiset(s), r) && p[0] == a && p[|p| - 1] == b;
    var q := AllExchanged(p);
    forall k | 0 <= k < |q|
      ensures q[k] in multiset(AllExchanged(s))
    {
      assert p[k] in multiset(s);
      ExchangedCount(s, p[k]);
    }
    forall k | 0 < k < |q|
      ensures Near(q[k], q[k - 1], r)
    {
      ExchangedNear(p[k], p[k - 1], r);
    }
    assert Chain(q, multiset(AllExchanged(s)), r) && q[0] == Exchanged(a) && q[|q| - 1] == Exchanged(b);
  }

  lemma ExchangedTwice(s: seq<Block>)
    ensures AllExchanged(AllExchanged(s)) == s
  {
  }

  lemma {:induction false} ExchangedFirst(acc: seq<Block>)
    requires acc != []
    ensures FirstMax(AllExchanged(acc)) == FirstMax(acc)
  {
    var m, k := FirstMax(acc), FirstMax(AllExchanged(acc));
    assert AllExchanged(acc)[m].e == acc[m].e && AllExchanged(acc)[k].e == acc[k].e;
  }

  /** Exchanging x and y of all blocks exchanges them in the cluster. */
  lemma {:induction false} ComponentExchanged(acc: seq<Block>, clus: seq<Block>, reach: real)
    requires IsComponent(acc, clus, reach)
    ensures IsComponent(AllExchanged(acc), AllExchanged(clus), reach)
  {
    if acc != [] {
      ExchangedFirst(acc);
      var seed := Seed(acc);
      forall h: Block
        ensures multiset(AllExchanged(clus))[h] ==
                if Linked(Exchanged(seed), h, multiset(AllExchanged(acc)), reach) then multiset(AllExchanged(acc))[h] else 0
      {
        var g := Exchanged(h);
        assert h == Exchanged(g);
        ExchangedCount(clus, g);
        ExchangedCount(acc, g);
        if Linked(seed, g, multiset(acc), reach) {
          ExchangedLinked(seed, g, acc, reach);
        } else if Linked(Exchanged(seed), h, multiset(AllExchanged(acc)), reach) {
          ExchangedLinked(Exchanged(seed), h, AllExchanged(acc), reach);
          ExchangedTwice(acc);
        }
      }
    }
  }

  lemma {:induction false} ExchangedSums(s: seq<Block>)
    ensures Sum(AllExchanged(s), EnergyOf) == Sum(s, EnergyOf)
    ensures Sum(AllExchanged(s), XMoment) == Sum(s, YMoment) && Sum(AllExchanged(s), YMoment) == Sum(s, XMoment)
  {
    if s != [] {
      var n := |s| - 1;
      ExchangedSums(s[..n]);
      assert AllExchanged(s)[..n] == AllExchanged(s[..n]);
      assert EnergyOf(AllExchanged(s)[n]) == EnergyOf(s[n]);
      assert XMoment(AllExchanged(s)[n]) == YMoment(s[n]) && YMoment(AllExchanged(s)[n]) == XMoment(s[n]);
    }
  }

  function HitsExchanged(hits: seq<Hit>): (r: seq<Hit>)
    ensures |r| == |hits| && forall i :: 0 <= i < |hits| ==> r[i] == Hit(hits[i].npe, hits[i].y, hits[i].x)
  {
    seq(|hits|, i requires 0 <= i < |hits| => Hit(hits[i].npe, hits[i].y, hits[i].x))
  }

  lemma {:induction false} AcceptedExchanged(hits: seq<Hit>, perGeV: real)
    requires perGeV > 0.0
    ensures Accepted(HitsExchanged(hits), perGeV) == AllExchanged(Accepted(hits, perGeV))
  {
    if hits != [] {
      var n := |hits| - 1;
      AcceptedExchanged(hits[..n], perGeV);
      assert HitsExchanged(hits)[..n] == HitsExchanged(hits[..n]);
      assert Accept(HitsExchanged(hits)[n], perGeV) == AllExchanged(Accept(hits[n], perGeV));
    }
  }

  function ReportExchanged(c: CaloCluster): CaloCluster
  {
    c.(xPos := c.yPos, yPos := c.xPos, xMax := c.yMax, yMax := c.xMax)
  }

  /** Exchanging x and y of all hits exchanges them in what the ECal reports. */
  lemma {:induction false} ECalExchanged(hits: seq<Hit>, caloThr: real, ecal: seq<CaloCluster>)
    requires IsECal(Accepted(hits, NPE_EDEP_ECAL), caloThr, ecal)
    ensures |ecal| <= 1
    ensures IsECal(Accepted(HitsExchanged(hits), NPE_EDEP_ECAL), caloThr, if ecal == [] then [] else [ReportExchanged(ecal[0])])
  {
    var acc := Accepted(hits, NPE_EDEP_ECAL);
    var clus :| IsComponent(acc, clus, ECAL_REACH) && ecal == ECalClusters(acc, clus, caloThr);
    AcceptedExchanged(hits, NPE_EDEP_ECAL);
    ComponentExchanged(acc, clus, ECAL_REACH);
    ExchangedSums(clus);
    if acc != [] {
      ExchangedFirst(acc);
    }
    assert ECalClusters(AllExchanged(acc), AllExchanged(clus), caloThr) == if ecal == [] then [] else [ReportExchanged(ecal[0])];
  }
}
