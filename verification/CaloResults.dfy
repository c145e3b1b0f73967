/** What the reconstructed calorimeter clusters can and cannot depend on. */
module CaloResults {
  import opened Numeric
  import opened RealAlgebra
  import opened Sums
  import opened CaloGrowth
  import opened CaloReconstruction

  // ---- the order of the hits -----------------------------------------------------

  /** What is missing before the tail is missing with the tail. */
  lemma MissingBeforeTail<T>(whole: seq<T>, less: seq<T>, missing: seq<T>, tail: seq<T>, all: seq<T>, rest: seq<T>)
    requires multiset(whole) == multiset(less) + multiset(missing) && all == whole + tail && rest == less + tail
    ensures multiset(all) == multiset(rest) + multiset(missing)
  {
    MultisetConcat(whole, tail);
    MultisetConcat(less, tail);
  }

  lemma DropBeforeLast<T>(s: seq<T>, k: nat)
    requires k < |s| - 1
    ensures Drop(s, k) != [] && Drop(s, k)[..|s| - 2] == Drop(s[..|s| - 1], k) && Drop(s, k)[|s| - 2] == s[|s| - 1]
  {
  }

  lemma {:induction false} AcceptedDrop(hits: seq<Hit>, k: nat, perGeV: real)
    requires perGeV > 0.0 && k < |hits|
    ensures multiset(Accepted(hits, perGeV)) ==
            multiset(Accepted(Drop(hits, k), perGeV)) + multiset(Accept(hits[k], perGeV))
  {
    var n := |hits| - 1;
    if k == n {
      assert Drop(hits, k) == hits[..n];
      MultisetConcat(Accepted(hits[..n], perGeV), Accept(hits[n], perGeV));
    } else {
      AcceptedDrop(hits[..n], k, perGeV);
      AcceptedTail(hits, k, perGeV);
      MissingBeforeTail(Accepted(hits[..n], perGeV), Accepted(Drop(hits[..n], k), perGeV), Accept(hits[k], perGeV),
                        Accept(hits[n], perGeV), Accepted(hits, perGeV), Accepted(Drop(hits, k), perGeV));
    }
  }

  lemma AcceptedTail(hits: seq<Hit>, k: nat, perGeV: real)
    requires perGeV > 0.0 && k < |hits| - 1
    ensures var n := |hits| - 1;
            Accepted(Drop(hits, k), perGeV) == Accepted(Drop(hits[..n], k), perGeV) + Accept(hits[n], perGeV)
  {
    DropBeforeLast(hits, k);
  }

  lemma {:induction false} AcceptedOrderFree(hits: seq<Hit>, hits': seq<Hit>, perGeV: real)
    requires perGeV > 0.0 && multiset(hits) == multiset(hits')
    ensures multiset(Accepted(hits, perGeV)) == multiset(Accepted(hits', perGeV))
  {
    if hits == [] {
      assert |multiset(hits')| == 0;
    } else {
      var k := RemoveBoth(hits, hits');
      AcceptedOrderFree(hits[..|hits| - 1], Drop(hits', k), perGeV);
      AcceptedDrop(hits', k, perGeV);
    }
  }

  lemma {:induction false} OnPlaneDrop(slats: seq<SlatHit>, k: nat, plane: int)
    requires k < |slats|
    ensures multiset(OnPlane(slats, plane)) ==
            multiset(OnPlane(Drop(slats, k), plane)) + multiset(SlatOnPlane(slats[k], plane))
  {
    var n := |slats| - 1;
    if k == n {
      assert Drop(slats, k) == slats[..n];
      MultisetConcat(OnPlane(slats[..n], plane), SlatOnPlane(slats[n], plane));
    } else {
      OnPlaneDrop(slats[..n], k, plane);
      OnPlaneTail(slats, k, plane);
      MissingBeforeTail(OnPlane(slats[..n], plane), OnPlane(Drop(slats[..n], k), plane), SlatOnPlane(slats[k], plane),
                        SlatOnPlane(slats[n], plane), OnPlane(slats, plane), OnPlane(Drop(slats, k), plane));
    }
  }

  lemma OnPlaneTail(slats: seq<SlatHit>, k: nat, plane: int)
    requires k < |slats| - 1
    ensures var n := |slats| - 1;
            OnPlane(Drop(slats, k), plane) == OnPlane(Drop(slats[..n], k), plane) + SlatOnPlane(slats[n], plane)
  {
    DropBeforeLast(slats, k);
  }

  lemma {:induction false} OnPlaneOrderFree(slats: seq<SlatHit>, slats': seq<SlatHit>, plane: int)
    requires multiset(slats) == multiset(slats')
    ensures multiset(OnPlane(slats, plane)) == multiset(OnPlane(slats', plane))
  {
    if slats == [] {
      assert |multiset(slats')| == 0;
    } else {
      var k := RemoveBoth(slats, slats');
      OnPlaneOrderFree(slats[..|slats| - 1], Drop(slats', k), plane);
      OnPlaneDrop(slats', k, plane);
    }
  }

  /** Only one kind of block carries the largest energy. */
  ghost predicate UniqueMaximum(acc: seq<Block>)
  {
    acc != [] ==> forall b :: b in acc && b.e == Seed(acc).e ==> b == Seed(acc)
  }

  lemma SameSeed(acc: seq<Block>, acc': seq<Block>)
    requires multiset(acc) == multiset(acc') && acc != [] && UniqueMaximum(acc)
    ensures acc' != [] && Seed(acc') == Seed(acc)
  {
    assert Seed(acc) in multiset(acc');
    assert Seed(acc') in multiset(acc);
    assert Seed(acc).e == Seed(acc').e by {
      var i :| 0 <= i < |acc'| && acc'[i] == Seed(acc);
      var j :| 0 <= j < |acc| && acc[j] == Seed(acc');
    }
  }

  /** Unique maximum energy is exactly what makes the seed independent of the hit order. */
  lemma SeedOrderFreeIff(acc: seq<Block>)
    requires acc != []
    ensures UniqueMaximum(acc) <==>
            forall acc' :: multiset(acc') == multiset(acc) && acc' != [] ==> Seed(acc') == Seed(acc)
  {
    if UniqueMaximum(acc) {
      forall acc' | multiset(acc') == multiset(acc) && acc' != []
        ensures Seed(acc') == Seed(acc)
      {
        SameSeed(acc, acc');
      }
    } else {
      var b :| b in acc && b.e == Seed(acc).e && b != Seed(acc);
      var acc' := BlockFirst(acc, b);
    }
  }

  lemma BlockFirst(acc: seq<Block>, b: Block) returns (acc': seq<Block>)
    requires b in acc && b.e == Seed(acc).e
    ensures multiset(acc') == multiset(acc) && acc' != [] && Seed(acc') == b
  {
    var k :| 0 <= k < |acc| && acc[k] == b;
    acc' := [b] + Drop(acc, k);
    DropMultiset(acc, k);
    MultisetConcat([b], Drop(acc, k));
    LargestFirst(acc, acc', b);
  }

  lemma LargestFirst(acc: seq<Block>, acc': seq<Block>, b: Block)
    requires acc != [] && acc' != [] && multiset(acc) == multiset(acc')
    requires acc'[0] == b && b.e == Seed(acc).e
    ensures Seed(acc') == b
  {
    var m := FirstMax(acc');
    assert acc'[m] in multiset(acc);
    var i :| 0 <= i < |acc| && acc[i] == acc'[m];
    assert acc[i].e <= b.e;
  }

  // ---- which of the tied blocks is met first --------------------------------------

  /** A block that no other exceeds: met first among its equals, it is the seed. */
  ghost predicate Largest(acc: seq<Block>, b: Block)
  {
    b in acc && forall c :: c in acc ==> c.e <= b.e
  }

  lemma SeedIsLargest(acc: seq<Block>, acc': seq<Block>)
    requires multiset(acc) == multiset(acc') && acc' != []
    ensures Largest(acc, Seed(acc'))
  {
    assert Seed(acc') in multiset(acc);
    forall c | c in acc
      ensures c.e <= Seed(acc').e
    {
      assert c in multiset(acc');
      var k :| 0 <= k < |acc'| && acc'[k] == c;
    }
  }

  lemma {:induction false} AcceptedFirst(h: Hit, rest: seq<Hit>, b: Block, perGeV: real)
    requires perGeV > 0.0 && Accept(h, perGeV) == [b]
    ensures Accepted([h] + rest, perGeV) != [] && Accepted([h] + rest, perGeV)[0] == b
  {
    var hits, n := [h] + rest, |rest|;
    if n == 0 {
      assert hits[..0] == [] && hits[0] == h;
    } else {
      assert hits[..n] == [h] + rest[..n - 1];
      AcceptedFirst(h, rest[..n - 1], b, perGeV);
    }
  }

  lemma {:induction false} HitOf(hits: seq<Hit>, b: Block, perGeV: real) returns (k: nat)
    requires perGeV > 0.0 && b in Accepted(hits, perGeV)
    ensures k < |hits| && Accept(hits[k], perGeV) == [b]
  {
    var n := |hits| - 1;
    if Accept(hits[n], perGeV) == [b] {
      k := n;
    } else {
      k := HitOf(hits[..n], b, perGeV);
    }
  }

  /** Every largest block is the seed when the hits come in the right order. */
  lemma {:induction false} MetFirst(hits: seq<Hit>, b: Block, perGeV: real) returns (hits': seq<Hit>)
    requires perGeV > 0.0 && Largest(Accepted(hits, perGeV), b)
    ensures multiset(hits') == multiset(hits) && multiset(Accepted(hits', perGeV)) == multiset(Accepted(hits, perGeV))
    ensures Accepted(hits', perGeV) != [] && Seed(Accepted(hits', perGeV)) == b
  {
    var acc := Accepted(hits, perGeV);
    var k := HitOf(hits, b, perGeV);
    hits' := [hits[k]] + Drop(hits, k);
    DropMultiset(hits, k);
    MultisetConcat([hits[k]], Drop(hits, k));
    AcceptedOrderFree(hits, hits', perGeV);
    AcceptedFirst(hits[k], Drop(hits, k), b, perGeV);
    SeedIsLargest(acc, acc);
    LargestFirst(acc, Accepted(hits', perGeV), b);
  }

  // ---- the component of a tied seed ----------------------------------------------

  lemma SameAround(acc: seq<Block>, acc': seq<Block>, seed: Block, clus: seq<Block>, reach: real)
    requires multiset(acc) == multiset(acc') && Around(acc, seed, clus, reach)
    ensures Around(acc', seed, clus, reach)
  {
  }

  lemma AroundExists(acc: seq<Block>, seed: Block, reach: real) returns (clus: seq<Block>)
    requires seed in acc && reach > 0.0
    ensures Around(acc, seed, clus, reach)
  {
    var k :| 0 <= k < |acc| && acc[k] == seed;
    DropMultiset(acc, k);
    var left;
    left, clus := CanGrow(Drop(acc, k), [seed], reach);
    forall h: Block
      ensures multiset(clus)[h] == if Linked(seed, h, multiset(acc), reach) then multiset(acc)[h] else 0
    {
      ClusterIsComponent(Drop(acc, k), seed, left, clus, reach, h);
    }
  }

  /** All largest blocks belong together. */
  ghost predicate OneComponent(acc: seq<Block>, reach: real)
  {
    forall b, c :: Largest(acc, b) && Largest(acc, c) ==> Linked(b, c, multiset(acc), reach)
  }

  lemma UniqueIsOneComponent(acc: seq<Block>, reach: real)
    requires UniqueMaximum(acc)
    ensures OneComponent(acc, reach)
  {
    forall b, c | Largest(acc, b) && Largest(acc, c)
      ensures Linked(b, c, multiset(acc), reach)
    {
      SeedIsLargest(acc, acc);
      assert b == Seed(acc) == c;
      assert Chain([b], multiset(acc), reach) && [b][0] == b;
    }
  }

  /** Two clusters hold the same blocks when their seeds are linked. */
  lemma LinkedSeeds(acc: seq<Block>, b: Block, c: Block, clusB: seq<Block>, clusC: seq<Block>, reach: real)
    requires Around(acc, b, clusB, reach) && Around(acc, c, clusC, reach) && Linked(b, c, multiset(acc), reach)
    ensures multiset(clusB) == multiset(clusC)
  {
    LinkedBack(b, c, multiset(acc), reach);
    forall h: Block
      ensures multiset(clusB)[h] == multiset(clusC)[h]
    {
      if Linked(b, h, multiset(acc), reach) {
        LinkedThrough(c, b, h, multiset(acc), reach);
      } else if Linked(c, h, multiset(acc), reach) {
        LinkedThrough(b, c, h, multiset(acc), reach);
      }
    }
  }

  /** Which blocks the cluster holds is the same for all orders of the accepted blocks exactly
      when all largest blocks belong to one component. */
  lemma ComponentOrderFreeIff(acc: seq<Block>, reach: real)
    requires reach > 0.0
    ensures OneComponent(acc, reach) <==>
            forall acc', clus, clus' ::
              (multiset(acc') == multiset(acc) && IsComponent(acc, clus, reach) && IsComponent(acc', clus', reach)) ==>
              multiset(clus) == multiset(clus')
  {
    if OneComponent(acc, reach) {
      forall acc', clus, clus' | multiset(acc') == multiset(acc) && IsComponent(acc, clus, reach) && IsComponent(acc', clus', reach)
        ensures multiset(clus) == multiset(clus')
      {
        ComponentOrderFree(acc, acc', clus, clus', reach);
      }
    } else {
      var b, c :| Largest(acc, b) && Largest(acc, c) && !Linked(b, c, multiset(acc), reach);
      ApartFromSeed(acc, b, c, reach);
    }
  }

  /** Of two largest blocks that are not linked, one is outside the seed's component; met
      first, it would have a cluster of its own. */
  lemma ApartFromSeed(acc: seq<Block>, b: Block, c: Block, reach: real)
    requires reach > 0.0 && Largest(acc, b) && Largest(acc, c) && !Linked(b, c, multiset(acc), reach)
    ensures exists acc', clus, clus' :: multiset(acc') == multiset(acc) && IsComponent(acc, clus, reach) &&
              IsComponent(acc', clus', reach) && multiset(clus) != multiset(clus')
  {
    var seed, pool := Seed(acc), multiset(acc);
    if Linked(seed, b, pool, reach) && Linked(seed, c, pool, reach) {
      LinkedBack(seed, b, pool, reach);
      LinkedThrough(b, seed, c, pool, reach);
    }
    var d := if Linked(seed, b, pool, reach) then c else b;
    var acc' := BlockFirst(acc, d);
    var clus := AroundExists(acc, seed, reach);
    var clus' := AroundExists(acc', d, reach);
    assert IsComponent(acc, clus, reach) && IsComponent(acc', clus', reach);
    assert d in multiset(clus') && multiset(clus)[d] == 0 by { assert clus'[0] == d; }
  }

  /** With all largest blocks in one component, the cluster sums to the same values. */
  lemma {:induction false} ComponentOrderFree(acc: seq<Block>, acc': seq<Block>, clus: seq<Block>, clus': seq<Block>, reach: real)
    requires multiset(acc) == multiset(acc') && OneComponent(acc, reach)
    requires IsComponent(acc, clus, reach) && IsComponent(acc', clus', reach)
    ensures multiset(clus) == multiset(clus')
    ensures Energy(clus) == Energy(clus') && Sum(clus, XMoment) == Sum(clus', XMoment)
    ensures Sum(clus, YMoment) == Sum(clus', YMoment)
  {
    if acc == [] {
      assert |multiset(acc')| == 0;
    } else {
      assert acc' != [] by { assert |multiset(acc)| == |multiset(acc')|; }
      SeedIsLargest(acc, acc);
      SeedIsLargest(acc, acc');
      SameAround(acc', acc, Seed(acc'), clus', reach);
      LinkedSeeds(acc, Seed(acc), Seed(acc'), clus, clus', reach);
    }
    SumOrderFree(clus, clus', EnergyOf);
    SumOrderFree(clus, clus', XMoment);
    SumOrderFree(clus, clus', YMoment);
  }

  // ---- whole events --------------------------------------------------------------

  /** When an event reports an ECal cluster, all orders of its hits report the same exactly when
      only one kind of block carries the largest energy: the cluster names its seed's place. */
  lemma ECalEventOrderFreeIff(hits: seq<Hit>, slats: seq<SlatHit>, caloThr: real,
                              ecal: seq<CaloCluster>, scint: seq<ScintCluster>)
    requires IsECalEvent(hits, slats, caloThr, ecal, scint) && ecal != []
    ensures UniqueMaximum(Accepted(hits, NPE_EDEP_ECAL)) <==>
            forall hits', ecal', scint' ::
              (multiset(hits') == multiset(hits) && IsECalEvent(hits', slats, caloThr, ecal', scint')) ==> ecal' == ecal
  {
    var acc := Accepted(hits, NPE_EDEP_ECAL);
    if UniqueMaximum(acc) {
      forall hits', ecal', scint' | multiset(hits') == multiset(hits) && IsECalEvent(hits', slats, caloThr, ecal', scint')
        ensures ecal' == ecal
      {
        AcceptedOrderFree(hits, hits', NPE_EDEP_ECAL);
        SumOrderFree(acc, Accepted(hits', NPE_EDEP_ECAL), EnergyOf);
        ECalOrderFree(acc, Accepted(hits', NPE_EDEP_ECAL), caloThr, ecal, ecal');
      }
    } else {
      var hits', ecal' := TiedReport(hits, caloThr, ecal);
      assert IsECalEvent(hits', slats, caloThr, ecal', scint);
    }
  }

  /** With another largest block met first, the cluster is missing or names another place. */
  lemma {:induction false} TiedReport(hits: seq<Hit>, caloThr: real, ecal: seq<CaloCluster>)
    returns (hits': seq<Hit>, ecal': seq<CaloCluster>)
    requires IsECal(Accepted(hits, NPE_EDEP_ECAL), caloThr, ecal) && ecal != []
    requires !UniqueMaximum(Accepted(hits, NPE_EDEP_ECAL))
    ensures multiset(hits') == multiset(hits)
    ensures Energy(Accepted(hits', NPE_EDEP_ECAL)) == Energy(Accepted(hits, NPE_EDEP_ECAL))
    ensures IsECal(Accepted(hits', NPE_EDEP_ECAL), caloThr, ecal') && ecal' != ecal
  {
    var acc := Accepted(hits, NPE_EDEP_ECAL);
    SeedIsLargest(acc, acc);
    var b :| b in acc && b.e == Seed(acc).e && b != Seed(acc);
    hits' := MetFirst(hits, b, NPE_EDEP_ECAL);
    var acc' := Accepted(hits', NPE_EDEP_ECAL);
    SumOrderFree(acc, acc', EnergyOf);
    var clus' := AroundExists(acc', b, ECAL_REACH);
    ecal' := ECalClusters(acc', clus', caloThr);
    NamesItsSeed(acc, caloThr, ecal);
    if ecal' != [] {
      NamesItsSeed(acc', caloThr, ecal');
    }
  }

  lemma NamesItsSeed(acc: seq<Block>, caloThr: real, ecal: seq<CaloCluster>)
    requires IsECal(acc, caloThr, ecal) && acc != [] && ecal != []
    ensures ecal[0].xMax == Seed(acc).x && ecal[0].yMax == Seed(acc).y
  {
  }

  lemma {:induction false} ECalOrderFree(acc: seq<Block>, acc': seq<Block>, caloThr: real,
                                         ecal: seq<CaloCluster>, ecal': seq<CaloCluster>)
    requires multiset(acc) == multiset(acc') && UniqueMaximum(acc)
    requires IsECal(acc, caloThr, ecal) && IsECal(acc', caloThr, ecal')
    ensures ecal == ecal'
  {
    SeedsAgree(acc, acc');
    UniqueIsOneComponent(acc, ECAL_REACH);
    var clus :| IsComponent(acc, clus, ECAL_REACH) && ecal == ECalClusters(acc, clus, caloThr);
    var clus' :| IsComponent(acc', clus', ECAL_REACH) && ecal' == ECalClusters(acc', clus', caloThr);
    ComponentOrderFree(acc, acc', clus, clus', ECAL_REACH);
  }

  lemma SeedsAgree(acc: seq<Block>, acc': seq<Block>)
    requires multiset(acc) == multiset(acc') && UniqueMaximum(acc)
    ensures acc == [] <==> acc' == []
    ensures acc != [] ==> Seed(acc) == Seed(acc')
  {
    if acc == [] {
      assert |multiset(acc')| == 0;
    } else {
      SameSeed(acc, acc');
    }
  }

  lemma {:induction false} ScintOrderFree(acc: seq<Block>, acc': seq<Block>, plane: int, s: ScintCluster, s': ScintCluster)
    requires multiset(acc) == multiset(acc') && OneComponent(acc, CDET_REACH)
    requires IsScint(acc, plane, s) && IsScint(acc', plane, s')
    ensures s == s'
  {
    var clus :| IsComponent(acc, clus, CDET_REACH) && s == ScintCluster(plane, Reconstructed(clus, CDET_FLAG, 0.0, 0.0));
    var clus' :| IsComponent(acc', clus', CDET_REACH) && s' == ScintCluster(plane, Reconstructed(clus', CDET_FLAG, 0.0, 0.0));
    ComponentOrderFree(acc, acc', clus, clus', CDET_REACH);
  }

  /** Shuffling the hits of an event changes nothing that is reported: which clusters, their
      energies, centroids and maxima. On a CDet plane the largest slats need only belong
      together; in the ECal they must be one. */
  lemma ECalEventOrderFree(hits: seq<Hit>, hits': seq<Hit>, slats: seq<SlatHit>, slats': seq<SlatHit>, caloThr: real,
                           ecal: seq<CaloCluster>, scint: seq<ScintCluster>,
                           ecal': seq<CaloCluster>, scint': seq<ScintCluster>)
    requires multiset(hits) == multiset(hits') && multiset(slats) == multiset(slats')
    requires UniqueMaximum(Accepted(hits, NPE_EDEP_ECAL))
    requires OneComponent(SlatsOn(slats, 1), CDET_REACH) && OneComponent(SlatsOn(slats, 2), CDET_REACH)
    requires IsECalEvent(hits, slats, caloThr, ecal, scint) && IsECalEvent(hits', slats', caloThr, ecal', scint')
    ensures ecal == ecal' && scint == scint'
  {
    var acc, acc' := Accepted(hits, NPE_EDEP_ECAL), Accepted(hits', NPE_EDEP_ECAL);
    AcceptedOrderFree(hits, hits', NPE_EDEP_ECAL);
    SumOrderFree(acc, acc', EnergyOf);
    if Energy(acc) >= caloThr {
      ECalOrderFree(acc, acc', caloThr, ecal, ecal');
      CDetOrderFree(slats, slats', scint, scint');
    }
  }

  lemma CDetOrderFree(slats: seq<SlatHit>, slats': seq<SlatHit>, scint: seq<ScintCluster>, scint': seq<ScintCluster>)
    requires multiset(slats) == multiset(slats') && |scint| == |scint'| == 2
    requires OneComponent(SlatsOn(slats, 1), CDET_REACH) && OneComponent(SlatsOn(slats, 2), CDET_REACH)
    requires IsScint(SlatsOn(slats, 1), 1, scint[0]) && IsScint(SlatsOn(slats, 2), 2, scint[1])
    requires IsScint(SlatsOn(slats', 1), 1, scint'[0]) && IsScint(SlatsOn(slats', 2), 2, scint'[1])
    ensures scint == scint'
  {
    SlatsOrderFree(slats, slats', 1, scint[0], scint'[0]);
    SlatsOrderFree(slats, slats', 2, scint[1], scint'[1]);
  }

  lemma SlatsOrderFree(slats: seq<SlatHit>, slats': seq<SlatHit>, plane: int, s: ScintCluster, s': ScintCluster)
    requires multiset(slats) == multiset(slats') && OneComponent(SlatsOn(slats, plane), CDET_REACH)
    requires IsScint(SlatsOn(slats, plane), plane, s) && IsScint(SlatsOn(slats', plane), plane, s')
    ensures s == s'
  {
    OnPlaneOrderFree(slats, slats', plane);
    AcceptedOrderFree(OnPlane(slats, plane), OnPlane(slats', plane), NPE_EDEP_CDET);
    ScintOrderFree(SlatsOn(slats, plane), SlatsOn(slats', plane), plane, s, s');
  }

  /** The components of all largest blocks are reported as `hcal`. */
  ghost predicate Alike(acc: seq<Block>, hcal: seq<CaloCluster>)
  {
    Energy(acc) > HCAL_THRESHOLD ==>
      forall b, clus :: Largest(acc, b) && Around(acc, b, clus, HCAL_REACH) ==> hcal == [Turned(clus)]
  }

  /** An HCal event reports the same for all orders of its hits exactly when the components of
      all its largest blocks would be reported alike, as they are when they are one. */
  lemma {:induction false} HCalEventOrderFreeIff(hits: seq<Hit>, hcal: seq<CaloCluster>)
    requires IsHCalEvent(hits, hcal)
    ensures (forall hits', hcal' :: multiset(hits') == multiset(hits) && IsHCalEvent(hits', hcal') ==> hcal' == hcal)
            <==> Alike(Accepted(hits, NPE_EDEP_HCAL), hcal)
  {
    HCalReportsAll(hits, hcal);
    if forall hits', hcal' :: multiset(hits') == multiset(hits) && IsHCalEvent(hits', hcal') ==> hcal' == hcal {
      HCalReportsOnly(hits, hcal);
    }
  }

  lemma HCalReportsOnly(hits: seq<Hit>, hcal: seq<CaloCluster>)
    requires forall hits', hcal' :: multiset(hits') == multiset(hits) && IsHCalEvent(hits', hcal') ==> hcal' == hcal
    ensures Alike(Accepted(hits, NPE_EDEP_HCAL), hcal)
  {
    var acc := Accepted(hits, NPE_EDEP_HCAL);
    if Energy(acc) > HCAL_THRESHOLD {
      forall b, clus | Largest(acc, b) && Around(acc, b, clus, HCAL_REACH)
        ensures hcal == [Turned(clus)]
      {
        var hits' := HCalReports(hits, b, clus);
      }
    }
  }

  lemma {:induction false} HCalReportsAll(hits: seq<Hit>, hcal: seq<CaloCluster>)
    requires IsHCalEvent(hits, hcal)
    ensures Alike(Accepted(hits, NPE_EDEP_HCAL), hcal) ==>
              forall hits', hcal' :: multiset(hits') == multiset(hits) && IsHCalEvent(hits', hcal') ==> hcal' == hcal
  {
    if Alike(Accepted(hits, NPE_EDEP_HCAL), hcal) {
      forall hits', hcal' | multiset(hits') == multiset(hits) && IsHCalEvent(hits', hcal')
        ensures hcal' == hcal
      {
        HCalReportsOne(hits, hits', hcal');
      }
    }
  }

  lemma {:induction false} HCalReports(hits: seq<Hit>, b: Block, clus: seq<Block>) returns (hits': seq<Hit>)
    requires Largest(Accepted(hits, NPE_EDEP_HCAL), b) && Around(Accepted(hits, NPE_EDEP_HCAL), b, clus, HCAL_REACH)
    requires Energy(Accepted(hits, NPE_EDEP_HCAL)) > HCAL_THRESHOLD
    ensures multiset(hits') == multiset(hits) && IsHCalEvent(hits', [Turned(clus)])
  {
    hits' := MetFirst(hits, b, NPE_EDEP_HCAL);
    var acc, acc' := Accepted(hits, NPE_EDEP_HCAL), Accepted(hits', NPE_EDEP_HCAL);
    SumOrderFree(acc, acc', EnergyOf);
    SameAround(acc, acc', b, clus, HCAL_REACH);
    assert IsComponent(acc', clus, HCAL_REACH);
  }

  lemma {:induction false} HCalReportsOne(hits: seq<Hit>, hits': seq<Hit>, hcal: seq<CaloCluster>)
    requires multiset(hits) == multiset(hits') && IsHCalEvent(hits', hcal)
    ensures var acc := Accepted(hits, NPE_EDEP_HCAL);
            if Energy(acc) <= HCAL_THRESHOLD then hcal == []
            else exists b, clus :: Largest(acc, b) && Around(acc, b, clus, HCAL_REACH) && hcal == [Turned(clus)]
  {
    var acc, acc' := Accepted(hits, NPE_EDEP_HCAL), Accepted(hits', NPE_EDEP_HCAL);
    AcceptedOrderFree(hits, hits', NPE_EDEP_HCAL);
    SumOrderFree(acc, acc', EnergyOf);
    if Energy(acc) > HCAL_THRESHOLD {
      var clus :| IsComponent(acc', clus, HCAL_REACH) && hcal == [Turned(clus)];
      assert acc' != [];
      SeedIsLargest(acc, acc');
      SameAround(acc', acc, Seed(acc'), clus, HCAL_REACH);
    }
  }

  /** So an HCal event whose largest blocks belong together reports the same for all orders. */
  lemma {:induction false} HCalEventOrderFree(hits: seq<Hit>, hits': seq<Hit>, hcal: seq<CaloCluster>, hcal': seq<CaloCluster>)
    requires multiset(hits) == multiset(hits') && OneComponent(Accepted(hits, NPE_EDEP_HCAL), HCAL_REACH)
    requires IsHCalEvent(hits, hcal) && IsHCalEvent(hits', hcal')
    ensures hcal == hcal'
  {
    var acc, acc' := Accepted(hits, NPE_EDEP_HCAL), Accepted(hits', NPE_EDEP_HCAL);
    AcceptedOrderFree(hits, hits', NPE_EDEP_HCAL);
    SumOrderFree(acc, acc', EnergyOf);
    if Energy(acc) > HCAL_THRESHOLD {
      HCalOrderFree(acc, acc', hcal, hcal');
    }
  }

  lemma {:induction false} HCalOrderFree(acc: seq<Block>, acc': seq<Block>, hcal: seq<CaloCluster>, hcal': seq<CaloCluster>)
    requires multiset(acc) == multiset(acc') && OneComponent(acc, HCAL_REACH)
    requires IsHCal(acc, hcal) && IsHCal(acc', hcal')
    ensures hcal == hcal'
  {
    var clus :| IsComponent(acc, clus, HCAL_REACH) && hcal == [Turned(clus)];
    var clus' :| IsComponent(acc', clus', HCAL_REACH) && hcal' == [Turned(clus')];
    ComponentOrderFree(acc, acc', clus, clus', HCAL_REACH);
    TurnedAgree(clus, clus');
  }

  lemma TurnedAgree(clus: seq<Block>, clus': seq<Block>)
    requires Energy(clus) == Energy(clus')
    requires Sum(clus, XMoment) == Sum(clus', XMoment) && Sum(clus, YMoment) == Sum(clus', YMoment)
    ensures Turned(clus) == Turned(clus')
  {
  }

  // ---- bounds --------------------------------------------------------------------

  lemma ComponentIsPart(acc: seq<Block>, clus: seq<Block>, reach: real)
    requires IsComponent(acc, clus, reach)
    ensures multiset(clus) <= multiset(acc)
    ensures Positive(acc) ==> Positive(clus)
  {
    if acc != [] {
      forall h: Block
        ensures multiset(clus)[h] <= multiset(acc)[h]
      {
      }
      forall i | 0 <= i < |clus|
        ensures clus[i] in acc
      {
        assert clus[i] in multiset(clus);
      }
    }
  }

  /** Seed energy <= reconstructed energy <= all accepted energy. */
  lemma EnergyBracket(acc: seq<Block>, clus: seq<Block>, reach: real)
    requires Positive(acc) && acc != [] && IsComponent(acc, clus, reach)
    ensures 0.0 < Seed(acc).e <= Energy(clus) <= Energy(acc)
  {
    ComponentIsPart(acc, clus, reach);
    SumMonotone(clus, acc, EnergyOf);
    assert clus == [clus[0]] + clus[1..];
    assert multiset([clus[0]]) <= multiset(clus);
    SumMonotone([clus[0]], clus, EnergyOf);
    assert Sum([clus[0]], EnergyOf) == Sum([clus[0]][..0], EnergyOf) + clus[0].e;
  }

  /** The centroid lies in every box that holds the cluster's blocks. */
  lemma CentroidInBox(clus: seq<Block>, detFlag: int, xLo: real, xHi: real, yLo: real, yHi: real)
    requires clus != [] && Positive(clus)
    requires forall i :: 0 <= i < |clus| ==> xLo <= clus[i].x <= xHi && yLo <= clus[i].y <= yHi
    ensures var c := Reconstructed(clus, detFlag, 0.0, 0.0);
            && c.xPos.Finite? && xLo <= c.xPos.value <= xHi
            && c.yPos.Finite? && yLo <= c.yPos.value <= yHi
  {
    SumPositive(clus, EnergyOf);
    forall i | 0 <= i < |clus|
      ensures Scaled(EnergyOf, xLo)(clus[i]) <= XMoment(clus[i]) <= Scaled(EnergyOf, xHi)(clus[i])
    {
      XMomentBounds(clus[i], xLo, xHi);
    }
    MeanInRange(clus, XMoment, EnergyOf, xLo, xHi);
    forall i | 0 <= i < |clus|
      ensures Scaled(EnergyOf, yLo)(clus[i]) <= YMoment(clus[i]) <= Scaled(EnergyOf, yHi)(clus[i])
    {
      YMomentBounds(clus[i], yLo, yHi);
    }
    MeanInRange(clus, YMoment, EnergyOf, yLo, yHi);
  }

  lemma XMomentBounds(b: Block, lo: real, hi: real)
    requires b.e > 0.0 && lo <= b.x <= hi
    ensures Scaled(EnergyOf, lo)(b) <= XMoment(b) <= Scaled(EnergyOf, hi)(b)
  {
    assert EnergyOf(b) == b.e;
    ProductOrder(lo, b.x, b.e);
    ProductOrder(b.x, hi, b.e);
  }

  lemma YMomentBounds(b: Block, lo: real, hi: real)
    requires b.e > 0.0 && lo <= b.y <= hi
    ensures Scaled(EnergyOf, lo)(b) <= YMoment(b) <= Scaled(EnergyOf, hi)(b)
  {
    assert EnergyOf(b) == b.e;
    ProductOrder(lo, b.y, b.e);
    ProductOrder(b.y, hi, b.e);
  }

  /** An event without accepted hits still reports CDet clusters: energy 0, no position. */
  lemma EmptyPlaneHasNoPosition(slats: seq<SlatHit>, plane: int, s: ScintCluster)
    requires IsScint(SlatsOn(slats, plane), plane, s)
    ensures SlatsOn(slats, plane) == [] <==> s.cluster.xPos == NotANumber
    ensures SlatsOn(slats, plane) == [] <==> s.cluster.energy == 0.0
  {
    var acc := SlatsOn(slats, plane);
    var clus :| IsComponent(acc, clus, CDET_REACH) && s == ScintCluster(plane, Reconstructed(clus, CDET_FLAG, 0.0, 0.0));
    if acc != [] {
      EnergyBracket(acc, clus, CDET_REACH);
    }
  }
}
