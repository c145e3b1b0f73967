/** Calorimeter reconstruction of one event: seed scan, growth, centroid, for the GEp ECal
    with its two CDet planes and for the HCal. The Poisson draws are inputs. */
module CaloReconstruction {
  import opened Numeric
  import opened RealAlgebra
  import opened Sums
  import opened CaloGrowth

  // ---- accepted hits -------------------------------------------------------------

  const NPE_THR := 3
  const NPE_EDEP_ECAL := 538.0
  const NPE_EDEP_CDET := 5634.0
  const NPE_EDEP_HCAL := 5000.0

  // squares of GEpECalBlock_size*1.1, GEpCDetSlat_size*1.1 and HCalBlock_size*1.5
  const ECAL_REACH := 0.00213444
  const CDET_REACH := 0.00003025
  const HCAL_REACH := 0.051984

  /** A hit after the photoelectron draw. */
  datatype Hit = Hit(npe: int, x: real, y: real)

  /** A CDet hit; `col` decides to which side of the cell centre the slat extends. */
  datatype SlatHit = SlatHit(npe: int, xcell: real, ycell: real, col: int, plane: int)

  function SlatX(h: SlatHit): real
  {
    h.xcell + 0.255 * (if (h.col - 1) % 2 == 0 then 1.0 else -1.0)
  }

  function Accept(h: Hit, perGeV: real): seq<Block>
    requires perGeV > 0.0
  {
    if h.npe < NPE_THR then [] else [Block(h.npe as real / perGeV, h.x, h.y)]
  }

  /** The hits that pass the photoelectron threshold, in order. */
  function Accepted(hits: seq<Hit>, perGeV: real): (acc: seq<Block>)
    requires perGeV > 0.0
    ensures Positive(acc)
  {
    if hits == [] then []
    else Accepted(hits[..|hits| - 1], perGeV) + Accept(hits[|hits| - 1], perGeV)
  }

  lemma AcceptedNext(hits: seq<Hit>, i: nat, perGeV: real)
    requires perGeV > 0.0 && i < |hits|
    ensures Accepted(hits[..i + 1], perGeV) == Accepted(hits[..i], perGeV) + Accept(hits[i], perGeV)
    ensures hits[i].npe < NPE_THR ==> Accepted(hits[..i + 1], perGeV) == Accepted(hits[..i], perGeV)
  {
    assert hits[..i + 1][..i] == hits[..i];
  }

  /** The hits of one CDet plane, as plain hits. */
  function OnPlane(slats: seq<SlatHit>, plane: int): seq<Hit>
  {
    if slats == [] then []
    else OnPlane(slats[..|slats| - 1], plane) + SlatOnPlane(slats[|slats| - 1], plane)
  }

  function SlatOnPlane(h: SlatHit, plane: int): seq<Hit>
  {
    if h.plane == plane then [Hit(h.npe, SlatX(h), h.ycell)] else []
  }

  ghost predicate Positive(s: seq<Block>)
  {
    forall i :: 0 <= i < |s| ==> s[i].e > 0.0
  }

  // ---- energy-weighted sums ------------------------------------------------------

  function EnergyOf(b: Block): real { b.e }

  function XMoment(b: Block): real { Product(b.x, b.e) }

  function YMoment(b: Block): real { Product(b.y, b.e) }

  function Energy(s: seq<Block>): real { Sum(s, EnergyOf) }

  // ---- the seed ------------------------------------------------------------------

  /** The first of the blocks with the largest energy. */
  function FirstMax(acc: seq<Block>): (m: nat)
    requires acc != []
    ensures m < |acc|
    ensures forall k :: 0 <= k < |acc| ==> acc[k].e <= acc[m].e
    ensures forall k :: 0 <= k < m ==> acc[k].e < acc[m].e
  {
    if |acc| == 1 then 0
    else
      var m := FirstMax(acc[..|acc| - 1]);
      if acc[|acc| - 1].e > acc[m].e then |acc| - 1 else m
  }

  function Seed(acc: seq<Block>): Block
    requires acc != []
  {
    acc[FirstMax(acc)]
  }

  /** The scan has split the accepted hits into the seed and all the others. */
  ghost predicate Seeded(acc: seq<Block>, blocks: Vectors, clus: Vectors)
  {
    && blocks.Lockstep() && clus.Lockstep()
    && multiset(blocks.Blocks()) + multiset(clus.Blocks()) == multiset(acc)
    && clus.Blocks() == if acc == [] then [] else [Seed(acc)]
  }

  function LargestEnergy(acc: seq<Block>): real
  {
    if acc == [] then 0.0 else Seed(acc).e
  }

  /** The state of a scan that has seen `acc`: the split, and the largest energy so far. */
  ghost predicate Scanned(acc: seq<Block>, edepMax: real, blocks: Vectors, clus: Vectors)
  {
    Seeded(acc, blocks, clus) && edepMax == LargestEnergy(acc)
  }

  lemma SeedNext(acc: seq<Block>, b: Block)
    requires b.e > 0.0
    ensures Seed(acc + [b]) == if b.e > LargestEnergy(acc) then b else if acc == [] then b else Seed(acc)
    ensures LargestEnergy(acc + [b]) == if b.e > LargestEnergy(acc) then b.e else LargestEnergy(acc)
  {
    assert (acc + [b])[..|acc|] == acc;
  }

  lemma PushedBlocks(v: Vectors, b: Block)
    requires v.Lockstep()
    ensures multiset(v.Push(b).Blocks()) == multiset(v.Blocks()) + multiset{b}
  {
    assert v.Push(b).Blocks() == v.Blocks() + [b];
  }

  /** One accepted hit: it dethrones the seed only if it is strictly larger. */
  method AddHit(edepMaxIn: real, blocksIn: Vectors, clusIn: Vectors, b: Block, ghost acc: seq<Block>)
    returns (edepMax: real, blocks: Vectors, clus: Vectors)
    requires Scanned(acc, edepMaxIn, blocksIn, clusIn) && b.e > 0.0
    ensures Scanned(acc + [b], edepMax, blocks, clus)
  {
    edepMax, blocks, clus := edepMaxIn, blocksIn, clusIn;
    SeedNext(acc, b);
    if b.e > edepMax {
      edepMax := b.e;
      blocks, clus := Dethrone(blocks, clus, b, acc);
    } else {
      PushedBlocks(blocks, b);
      blocks := blocks.Push(b);
    }
  }

  method Dethrone(blocksIn: Vectors, clusIn: Vectors, b: Block, ghost acc: seq<Block>)
    returns (blocks: Vectors, clus: Vectors)
    requires Seeded(acc, blocksIn, clusIn)
    ensures blocks.Lockstep() && clus.Lockstep() && multiset(blocks.Blocks()) == multiset(acc) && clus.Blocks() == [b]
  {
    blocks, clus := blocksIn, clusIn;
    if clus.Size() > 0 {
      PushedBlocks(blocks, clus.At(0));
      blocks := blocks.Push(clus.At(0));
      clus := NO_BLOCKS;
    }
    assert clus.Blocks() == [];
    clus := clus.Push(b);
  }

  /** The seed scan of a calorimeter, which also totals the accepted energy. */
  method ScanHits(hits: seq<Hit>, perGeV: real) returns (edepTot: real, blocks: Vectors, clus: Vectors)
    requires perGeV > 0.0
    ensures Seeded(Accepted(hits, perGeV), blocks, clus)
    ensures edepTot == Energy(Accepted(hits, perGeV))
  {
    var edepMax := 0.0;
    edepTot, blocks, clus := 0.0, NO_BLOCKS, NO_BLOCKS;
    for i := 0 to |hits|
      invariant Scanned(Accepted(hits[..i], perGeV), edepMax, blocks, clus)
      invariant edepTot == Energy(Accepted(hits[..i], perGeV))
    {
      ghost var acc := Accepted(hits[..i], perGeV);
      AcceptedNext(hits, i, perGeV);
      if hits[i].npe < NPE_THR {
        continue;
      }
      var b := Block(hits[i].npe as real / perGeV, hits[i].x, hits[i].y);
      SumSnoc(acc, b, EnergyOf);
      edepTot := edepTot + b.e;
      edepMax, blocks, clus := AddHit(edepMax, blocks, clus, b, acc);
    }
    assert hits[..|hits|] == hits;
  }

  function SlatsOn(slats: seq<SlatHit>, plane: int): seq<Block>
  {
    Accepted(OnPlane(slats, plane), NPE_EDEP_CDET)
  }

  /** One loop scans both CDet planes; each plane's scan is as if it ran alone. */
  method ScanSlats(slats: seq<SlatHit>)
    returns (blocks1: Vectors, clus1: Vectors, blocks2: Vectors, clus2: Vectors)
    ensures Seeded(SlatsOn(slats, 1), blocks1, clus1)
    ensures Seeded(SlatsOn(slats, 2), blocks2, clus2)
  {
    var edepMax1, edepMax2 := 0.0, 0.0;
    blocks1, clus1, blocks2, clus2 := NO_BLOCKS, NO_BLOCKS, NO_BLOCKS, NO_BLOCKS;
    for i := 0 to |slats|
      invariant Scanned(SlatsOn(slats[..i], 1), edepMax1, blocks1, clus1)
      invariant Scanned(SlatsOn(slats[..i], 2), edepMax2, blocks2, clus2)
    {
      var h := slats[i];
      ghost var acc1, acc2 := SlatsOn(slats[..i], 1), SlatsOn(slats[..i], 2);
      SlatsOnNext(slats, i, 1);
      SlatsOnNext(slats, i, 2);
      if h.npe < NPE_THR {
        continue;
      }
      var b := Block(h.npe as real / NPE_EDEP_CDET, SlatX(h), h.ycell);
      match h.plane {
        case 1 =>
          edepMax1, blocks1, clus1 := AddHit(edepMax1, blocks1, clus1, b, acc1);
        case 2 =>
          edepMax2, blocks2, clus2 := AddHit(edepMax2, blocks2, clus2, b, acc2);
        case _ =>
      }
    }
    assert slats[..|slats|] == slats;
  }

  lemma SlatsOnNext(slats: seq<SlatHit>, i: nat, plane: int)
    requires i < |slats|
    ensures var h := slats[i];
            SlatsOn(slats[..i + 1], plane) ==
            if h.npe < NPE_THR || h.plane != plane then SlatsOn(slats[..i], plane)
            else SlatsOn(slats[..i], plane) + [Block(h.npe as real / NPE_EDEP_CDET, SlatX(h), h.ycell)]
  {
    OnPlaneNext(slats, i, plane);
    var on := OnPlane(slats[..i], plane);
    if slats[i].plane == plane {
      AcceptedMore(on, Hit(slats[i].npe, SlatX(slats[i]), slats[i].ycell));
    }
  }

  lemma OnPlaneNext(slats: seq<SlatHit>, i: nat, plane: int)
    requires i < |slats|
    ensures OnPlane(slats[..i + 1], plane) == OnPlane(slats[..i], plane) + SlatOnPlane(slats[i], plane)
    ensures slats[i].plane != plane ==> OnPlane(slats[..i + 1], plane) == OnPlane(slats[..i], plane)
  {
    assert slats[..i + 1][..i] == slats[..i];
  }

  lemma AcceptedMore(hits: seq<Hit>, h: Hit)
    ensures Accepted(hits + [h], NPE_EDEP_CDET) == Accepted(hits, NPE_EDEP_CDET) + Accept(h, NPE_EDEP_CDET)
    ensures h.npe < NPE_THR ==> Accepted(hits + [h], NPE_EDEP_CDET) == Accepted(hits, NPE_EDEP_CDET)
  {
    assert (hits + [h])[..|hits|] == hits;
  }

  // ---- the cluster ---------------------------------------------------------------

  /** What the cluster is meant to be: the seed first, and then exactly the accepted hits
      that steps within reach connect to it, each as often as it was hit. */
  ghost predicate IsComponent(acc: seq<Block>, clus: seq<Block>, reach: real)
  {
    if acc == [] then clus == [] else Around(acc, Seed(acc), clus, reach)
  }

  ghost predicate Around(acc: seq<Block>, seed: Block, clus: seq<Block>, reach: real)
  {
    && clus != [] && clus[0] == seed
    && forall h: Block :: multiset(clus)[h] == if Linked(seed, h, multiset(acc), reach) then multiset(acc)[h] else 0
  }

  /** The growth loop started from a seed scan ends with the seed's component, and every
      hit it leaves behind is out of reach of all of it. */
  lemma {:induction false} GrownFromSeed(acc: seq<Block>, blocks: Vectors, clus: Vectors,
                                         left: Vectors, grown: Vectors, reach: real)
    requires reach > 0.0
    requires Seeded(acc, blocks, clus) && left.Lockstep() && grown.Lockstep()
    requires Extends(blocks.Blocks(), clus.Blocks(), left.Blocks(), grown.Blocks(), reach)
    requires Closed(left.Blocks(), grown.Blocks(), reach)
    ensures IsComponent(acc, grown.Blocks(), reach)
  {
    var bs := left.Blocks();
    var cs := grown.Blocks();
    if acc == [] {
      assert |multiset(bs) + multiset(cs)| == 0;
    } else {
      assert cs[0] == clus.Blocks()[0] == Seed(acc);
      forall h: Block
        ensures multiset(cs)[h] == if Linked(Seed(acc), h, multiset(acc), reach) then multiset(acc)[h] else 0
      {
        ClusterIsComponent(blocks.Blocks(), Seed(acc), bs, cs, reach, h);
      }
    }
  }

  method GrowCluster(blocks: Vectors, clus: Vectors, reach: real, ghost acc: seq<Block>) returns (grown: Vectors)
    requires reach > 0.0 && Seeded(acc, blocks, clus)
    ensures grown.Lockstep() && IsComponent(acc, grown.Blocks(), reach)
  {
    var left;
    left, grown := Grow(blocks, clus, reach);
    GrownFromSeed(acc, blocks, clus, left, grown, reach);
  }

  datatype CaloCluster = CaloCluster(energy: real, xPos: Double, yPos: Double, time: real, detFlag: int,
                                     xMax: real, yMax: real)

  datatype ScintCluster = ScintCluster(plane: int, cluster: CaloCluster)

  /** The cluster object for a set of blocks: total energy and energy-weighted centroid. */
  function Reconstructed(clus: seq<Block>, detFlag: int, xMax: real, yMax: real): CaloCluster
  {
    CaloCluster(Energy(clus), Quotient(Sum(clus, XMoment), Energy(clus)), Quotient(Sum(clus, YMoment), Energy(clus)),
                0.0, detFlag, xMax, yMax)
  }

  /** The accumulation loop that ends every reconstruction. */
  method Centroid(clus: Vectors) returns (eRec: real, xRec: real, yRec: real)
    requires clus.Lockstep()
    ensures eRec == Energy(clus.Blocks())
    ensures xRec == Sum(clus.Blocks(), XMoment) && yRec == Sum(clus.Blocks(), YMoment)
  {
    eRec, xRec, yRec := 0.0, 0.0, 0.0;
    ghost var bs := clus.Blocks();
    for i := 0 to clus.Size()
      invariant eRec == Energy(bs[..i]) && xRec == Sum(bs[..i], XMoment) && yRec == Sum(bs[..i], YMoment)
    {
      assert bs[..i + 1] == bs[..i] + [bs[i]];
      SumSnoc(bs[..i], bs[i], EnergyOf);
      SumSnoc(bs[..i], bs[i], XMoment);
      SumSnoc(bs[..i], bs[i], YMoment);
      eRec := eRec + clus.e[i];
      xRec := xRec + Product(clus.x[i], clus.e[i]);
      yRec := yRec + Product(clus.y[i], clus.e[i]);
    }
    assert bs[..clus.Size()] == bs;
  }

  // ---- whole events --------------------------------------------------------------

  const ECAL_FLAG := 12
  const CDET_FLAG := 31
  const HCAL_FLAG := 0
  const HCAL_THRESHOLD := 0.01

  /** What one ECal event yields: nothing at all below the calorimeter threshold; otherwise an
      ECal cluster when the component alone is above it, and one cluster per CDet plane. */
  ghost predicate IsECalEvent(hits: seq<Hit>, slats: seq<SlatHit>, caloThr: real,
                              ecal: seq<CaloCluster>, scint: seq<ScintCluster>)
  {
    var acc := Accepted(hits, NPE_EDEP_ECAL);
    if Energy(acc) < caloThr then ecal == [] && scint == []
    else
      && IsECal(acc, caloThr, ecal)
      && |scint| == 2
      && IsScint(SlatsOn(slats, 1), 1, scint[0])
      && IsScint(SlatsOn(slats, 2), 2, scint[1])
  }

  ghost predicate IsECal(acc: seq<Block>, caloThr: real, ecal: seq<CaloCluster>)
  {
    exists clus :: IsComponent(acc, clus, ECAL_REACH) && ecal == ECalClusters(acc, clus, caloThr)
  }

  function ECalClusters(acc: seq<Block>, clus: seq<Block>, caloThr: real): seq<CaloCluster>
  {
    if Energy(clus) <= caloThr then []
    else if acc == [] then [Reconstructed(clus, ECAL_FLAG, 0.0, 0.0)]
    else [Reconstructed(clus, ECAL_FLAG, Seed(acc).x, Seed(acc).y)]
  }

  ghost predicate IsScint(acc: seq<Block>, plane: int, s: ScintCluster)
  {
    exists clus :: IsComponent(acc, clus, CDET_REACH) && s == ScintCluster(plane, Reconstructed(clus, CDET_FLAG, 0.0, 0.0))
  }

  /** The HCal reports its centroid turned by a quarter: X is minus the cells' y, Y their x. */
  function Turned(clus: seq<Block>): CaloCluster
  {
    CaloCluster(Energy(clus), Quotient(-Sum(clus, YMoment), Energy(clus)), Quotient(Sum(clus, XMoment), Energy(clus)),
                0.0, HCAL_FLAG, 0.0, 0.0)
  }

  ghost predicate IsHCalEvent(hits: seq<Hit>, hcal: seq<CaloCluster>)
  {
    var acc := Accepted(hits, NPE_EDEP_HCAL);
    if Energy(acc) <= HCAL_THRESHOLD then hcal == []
    else IsHCal(acc, hcal)
  }

  ghost predicate IsHCal(acc: seq<Block>, hcal: seq<CaloCluster>)
  {
    exists clus :: IsComponent(acc, clus, HCAL_REACH) && hcal == [Turned(clus)]
  }

  /** The part of the event reader that holds the reconstructed clusters. */
  class Geant4File {
    const caloThreshold: real
    var fECalClusters: seq<CaloCluster>
    var fScintClusters: seq<ScintCluster>

    constructor (caloThr: real)
      ensures caloThreshold == caloThr && fECalClusters == [] && fScintClusters == []
    {
      caloThreshold := caloThr;
      fECalClusters, fScintClusters := [], [];
    }

    /** The ECal half: `pass` is false when the event stops below the threshold. */
    method ReconstructECal(hits: seq<Hit>) returns (pass: bool, ecal: seq<CaloCluster>)
      ensures pass <==> Energy(Accepted(hits, NPE_EDEP_ECAL)) >= caloThreshold
      ensures if pass then IsECal(Accepted(hits, NPE_EDEP_ECAL), caloThreshold, ecal) else ecal == []
    {
      var edepTot, blocks, clus := ScanHits(hits, NPE_EDEP_ECAL);
      var xMax, yMax := SeedPosition(clus);
      if edepTot < caloThreshold {
        return false, [];
      }
      pass := true;
      ecal := ECalCluster(blocks, clus, xMax, yMax, Accepted(hits, NPE_EDEP_ECAL));
    }

    method ECalCluster(blocks: Vectors, clus: Vectors, xMax: real, yMax: real, ghost acc: seq<Block>)
      returns (ecal: seq<CaloCluster>)
      requires Seeded(acc, blocks, clus)
      requires if acc == [] then xMax == yMax == 0.0 else xMax == Seed(acc).x && yMax == Seed(acc).y
      ensures IsECal(acc, caloThreshold, ecal)
    {
      var grown := GrowCluster(blocks, clus, ECAL_REACH, acc);
      var eRec, xRec, yRec := Centroid(grown);
      ecal := [];
      if eRec > caloThreshold {
        ecal := [CaloCluster(eRec, Quotient(xRec, eRec), Quotient(yRec, eRec), 0.0, ECAL_FLAG, xMax, yMax)];
      }
      assert ecal == ECalClusters(acc, grown.Blocks(), caloThreshold);
    }

    /** The clusters of one event are appended; `ecal` and `scint` are what this event adds. */
    method GetGEpECalCluster(hits: seq<Hit>, slats: seq<SlatHit>)
      returns (ghost ecal: seq<CaloCluster>, ghost scint: seq<ScintCluster>)
      modifies this
      ensures IsECalEvent(hits, slats, caloThreshold, ecal, scint)
      ensures fECalClusters == old(fECalClusters) + ecal && fScintClusters == old(fScintClusters) + scint
    {
      var pass, found := ReconstructECal(hits);
      var planes: seq<ScintCluster> := [];
      if pass {
        planes := ReconstructCDet(slats);
      }
      fECalClusters := fECalClusters + found;
      fScintClusters := fScintClusters + planes;
      ecal, scint := found, planes;
    }

    method ReconstructCDet(slats: seq<SlatHit>) returns (scint: seq<ScintCluster>)
      ensures |scint| == 2 && IsScint(SlatsOn(slats, 1), 1, scint[0]) && IsScint(SlatsOn(slats, 2), 2, scint[1])
    {
      var blocks1, clus1, blocks2, clus2 := ScanSlats(slats);
      var s1 := CDetCluster(1, blocks1, clus1, SlatsOn(slats, 1));
      var s2 := CDetCluster(2, blocks2, clus2, SlatsOn(slats, 2));
      scint := [s1, s2];
    }

    method CDetCluster(plane: int, blocks: Vectors, clus: Vectors, ghost acc: seq<Block>) returns (s: ScintCluster)
      requires Seeded(acc, blocks, clus)
      ensures IsScint(acc, plane, s)
    {
      var grown := GrowCluster(blocks, clus, CDET_REACH, acc);
      var eRec, xRec, yRec := Centroid(grown);
      s := ScintCluster(plane, CaloCluster(eRec, Quotient(xRec, eRec), Quotient(yRec, eRec), 0.0, CDET_FLAG, 0.0, 0.0));
    }

    method GetHCalCluster(hits: seq<Hit>) returns (ghost hcal: seq<CaloCluster>)
      modifies this`fECalClusters
      ensures IsHCalEvent(hits, hcal) && fECalClusters == old(fECalClusters) + hcal
    {
      var edepTot, blocks, clus := ScanHits(hits, NPE_EDEP_HCAL);
      hcal := [];
      if edepTot > HCAL_THRESHOLD {
        var c := HCalCluster(blocks, clus, Accepted(hits, NPE_EDEP_HCAL));
        fECalClusters := fECalClusters + [c];
        hcal := [c];
      }
    }
  }

  method HCalCluster(blocks: Vectors, clus: Vectors, ghost acc: seq<Block>) returns (c: CaloCluster)
    requires Seeded(acc, blocks, clus)
    ensures IsHCal(acc, [c])
  {
    if acc == [] {
      assert |multiset(blocks.Blocks())| == |multiset(acc)|;
    }
    var left, grown := GrowNested(blocks, clus, HCAL_REACH);
    GrownFromSeed(acc, blocks, clus, left, grown, HCAL_REACH);
    var eRec, xRec, yRec := Centroid(grown);
    c := CaloCluster(eRec, Quotient(-yRec, eRec), Quotient(xRec, eRec), 0.0, HCAL_FLAG, 0.0, 0.0);
    assert c == Turned(grown.Blocks());
  }

  /** Where the seed is, kept before the growth joins others to it. */
  method SeedPosition(clus: Vectors) returns (xMax: real, yMax: real)
    requires clus.Lockstep()
    ensures if clus.Size() == 1 then xMax == clus.Blocks()[0].x && yMax == clus.Blocks()[0].y else xMax == yMax == 0.0
  {
    xMax, yMax := 0.0, 0.0;
    if clus.Size() == 1 {
      xMax, yMax := clus.x[0], clus.y[0];
      assert clus.At(0) == clus.Blocks()[0];
    }
  }

  /** The HCal wraps the growth loop in two more loops over the very vectors it changes. The
      first run does all the work: closure makes every later run leave the vectors alone. */
  method GrowNested(blocksIn: Vectors, clusIn: Vectors, reach: real) returns (blocks: Vectors, clus: Vectors)
    requires blocksIn.Lockstep() && clusIn.Lockstep() && (clusIn.Size() > 0 || blocksIn.Size() == 0)
    ensures blocks.Lockstep() && clus.Lockstep()
    ensures Extends(blocksIn.Blocks(), clusIn.Blocks(), blocks.Blocks(), clus.Blocks(), reach)
    ensures Closed(blocks.Blocks(), clus.Blocks(), reach)
  {
    blocks, clus := blocksIn, clusIn;
    ghost var runs := 0;
    var i := blocks.Size() - 1;
    while i >= 0
      invariant blocks.Lockstep() && clus.Lockstep() && 0 <= runs
      invariant Extends(blocksIn.Blocks(), clusIn.Blocks(), blocks.Blocks(), clus.Blocks(), reach)
      invariant if runs == 0 then blocks == blocksIn && clus == clusIn && i == blocks.Size() - 1
                else Closed(blocks.Blocks(), clus.Blocks(), reach)
      decreases i
    {
      var j := 0;
      while j < clus.Size()
        invariant blocks.Lockstep() && clus.Lockstep() && 0 <= runs
          invariant Extends(blocksIn.Blocks(), clusIn.Blocks(), blocks.Blocks(), clus.Blocks(), reach)
        invariant if runs == 0 then blocks == blocksIn && clus == clusIn && j == 0
                  else Closed(blocks.Blocks(), clus.Blocks(), reach)
        decreases blocksIn.Size() + clusIn.Size() - j
      {
        blocks, clus := Grow(blocks, clus, reach);
        runs, j := runs + 1, j + 1;
        SizesAddUp(blocksIn.Blocks(), clusIn.Blocks(), blocks.Blocks(), clus.Blocks(), reach);
      }
      i := i - 1;
    }
  }

  lemma SizesAddUp(blocks0: seq<Block>, clus0: seq<Block>, blocks: seq<Block>, clus: seq<Block>, r: real)
    requires Extends(blocks0, clus0, blocks, clus, r)
    ensures |blocks| + |clus| == |blocks0| + |clus0|
  {
    assert |multiset(blocks) + multiset(clus)| == |multiset(blocks0) + multiset(clus0)|;
  }
}
