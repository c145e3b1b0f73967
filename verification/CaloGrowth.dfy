/** Growing a calorimeter cluster from its seed block: the loop shared by the ECal, the
    two CDet planes and the HCal. Blocks live in three parallel vectors (energy, x, y). */
module CaloGrowth {
  import opened Sums

  datatype Block = Block(e: real, x: real, y: real)

  /** Three parallel vectors: energies, x and y of the same blocks. */
  datatype Vectors = Vectors(e: seq<real>, x: seq<real>, y: seq<real>)
  {
    predicate Lockstep() { |e| == |x| == |y| }

    function Size(): nat { |e| }

    function At(i: nat): Block
      requires Lockstep() && i < |e|
    {
      Block(e[i], x[i], y[i])
    }

    /** The triple read as one sequence of blocks. */
    ghost function Blocks(): (s: seq<Block>)
      requires Lockstep()
      ensures |s| == |e|
      ensures forall i :: 0 <= i < |s| ==> s[i] == At(i)
    {
      seq(|e|, i requires 0 <= i < |e| => At(i))
    }

    /** `push_back` on each vector. */
    function Push(b: Block): (v: Vectors)
      requires Lockstep()
      ensures v.Lockstep() && v.Blocks() == Blocks() + [b]
    {
      var v := Vectors(e + [b.e], x + [b.x], y + [b.y]);
      assert v.Blocks() == Blocks() + [b];
      v
    }

    /** `erase(begin() + i)` on each vector. */
    function Erase(i: nat): (v: Vectors)
      requires Lockstep() && i < |e|
      ensures v.Lockstep() && v.Blocks() == Drop(Blocks(), i)
    {
      var v := Vectors(Drop(e, i), Drop(x, i), Drop(y, i));
      assert v.Blocks() == Drop(Blocks(), i);
      v
    }

  }

  const NO_BLOCKS := Vectors([], [], [])

  function Dist2(a: Block, b: Block): real
  {
    (a.x - b.x) * (a.x - b.x) + (a.y - b.y) * (a.y - b.y)
  }

  /** `sqrt(pow(dx, 2) + pow(dy, 2)) < R`, compared without the root: `r` is `R` squared. */
  predicate Near(a: Block, b: Block, r: real)
  {
    Dist2(a, b) < r
  }

  lemma NearItself(b: Block, r: real)
    requires r > 0.0
    ensures Near(b, b, r)
  {
    assert Dist2(b, b) == 0.0;
  }

  lemma NearIsSymmetric(a: Block, b: Block, r: real)
    ensures Near(a, b, r) == Near(b, a, r)
  {
    var dx, dy := a.x - b.x, a.y - b.y;
    assert Dist2(b, a) == (-dx) * (-dx) + (-dy) * (-dy);
  }

  /** A walk through `pool` whose every step is shorter than the reach. */
  ghost predicate Chain(p: seq<Block>, pool: multiset<Block>, r: real)
  {
    && |p| > 0
    && (forall k :: 0 <= k < |p| ==> p[k] in pool)
    && (forall k :: 0 < k < |p| ==> Near(p[k], p[k - 1], r))
  }

  ghost predicate Linked(from: Block, to: Block, pool: multiset<Block>, r: real)
  {
    exists p :: Chain(p, pool, r) && p[0] == from && p[|p| - 1] == to
  }

  /** No block left over is within reach of a block of the cluster. */
  ghost predicate Closed(blocks: seq<Block>, clus: seq<Block>, r: real)
  {
    forall i, j :: 0 <= i < |blocks| && 0 <= j < |clus| ==> !Near(blocks[i], clus[j], r)
  }

  /** Member `j` is within reach of an earlier member. */
  ghost predicate Joined(clus: seq<Block>, j: nat, r: real)
    requires j < |clus|
  {
    exists i :: 0 <= i < j && Near(clus[j], clus[i], r)
  }

  /** Some of the first `n` members are within reach of the block. */
  ghost predicate Reached(b: Block, clus: seq<Block>, n: nat, r: real)
    requires n <= |clus|
  {
    exists m :: 0 <= m < n && Near(b, clus[m], r)
  }

  /** `clus` extends `clus0` by blocks of `blocks0`, each within reach of an earlier member. */
  ghost predicate Extends(blocks0: seq<Block>, clus0: seq<Block>, blocks: seq<Block>, clus: seq<Block>, r: real)
  {
    && clus0 <= clus
    && multiset(blocks) + multiset(clus) == multiset(blocks0) + multiset(clus0)
    && forall j :: |clus0| <= j < |clus| ==> Joined(clus, j, r)
  }

  lemma ClosedDownTo(bs: seq<Block>, i: nat, cs: seq<Block>, r: real)
    requires i < |bs| && Closed(bs[i + 1..], cs, r)
    requires !Reached(bs[i], cs, |cs|, r)
    ensures Closed(bs[i..], cs, r)
  {
    forall k, m | 0 <= k < |bs[i..]| && 0 <= m < |cs|
      ensures !Near(bs[i..][k], cs[m], r)
    {
      if k > 0 {
        assert bs[i..][k] == bs[i + 1..][k - 1];
      }
    }
  }

  /** Moving one near block across keeps the bookkeeping. */
  lemma MoveOne(blocks0: seq<Block>, clus0: seq<Block>, blocks: seq<Block>, clus: seq<Block>, r: real, i: nat, j: nat)
    requires Extends(blocks0, clus0, blocks, clus, r)
    requires i < |blocks| && j < |clus| && Near(blocks[i], clus[j], r)
    ensures Extends(blocks0, clus0, Drop(blocks, i), clus + [blocks[i]], r)
  {
    DropMultiset(blocks, i);
    var grown := clus + [blocks[i]];
    assert multiset(grown) == multiset(clus) + multiset{blocks[i]};
    forall k | |clus0| <= k < |grown|
      ensures Joined(grown, k, r)
    {
      if k == |clus| {
        assert Near(grown[k], grown[j], r);
      } else {
        assert Joined(clus, k, r);
        var m :| 0 <= m < k && Near(clus[k], clus[m], r);
        assert Near(grown[k], grown[m], r);
      }
    }
  }

  /** Growing in two stages is growing. */
  lemma ExtendsTransitive(b0: seq<Block>, c0: seq<Block>, b1: seq<Block>, c1: seq<Block>, b2: seq<Block>, c2: seq<Block>, r: real)
    requires Extends(b0, c0, b1, c1, r) && Extends(b1, c1, b2, c2, r)
    ensures Extends(b0, c0, b2, c2, r)
  {
    forall j | |c0| <= j < |c2|
      ensures Joined(c2, j, r)
    {
      if j < |c1| {
        assert Joined(c1, j, r);
        var i :| 0 <= i < j && Near(c1[j], c1[i], r);
        assert Near(c2[j], c2[i], r);
      }
    }
  }

  method MoveAcross(ghost bs0: seq<Block>, ghost cs0: seq<Block>, blocksIn: Vectors, clusIn: Vectors, r: real, i: nat, ghost j: nat)
    returns (blocks: Vectors, clus: Vectors)
    requires blocksIn.Lockstep() && clusIn.Lockstep() && i < blocksIn.Size() && j < clusIn.Size()
    requires Extends(bs0, cs0, blocksIn.Blocks(), clusIn.Blocks(), r) && Near(blocksIn.At(i), clusIn.At(j), r)
    ensures blocks.Lockstep() && clus.Lockstep() && Extends(bs0, cs0, blocks.Blocks(), clus.Blocks(), r)
    ensures blocks.Size() == blocksIn.Size() - 1 && clus.Size() == clusIn.Size() + 1
  {
    MoveOne(bs0, cs0, blocksIn.Blocks(), clusIn.Blocks(), r, i, j);
    clus := clusIn.Push(blocksIn.At(i));
    blocks := blocksIn.Erase(i);
  }

  /** Block `i` against the cluster, `j` running up over it. A hit erases block `i`, so that
      `i` then names the next block up (or is moved down when it fell off the end) while `j`
      goes on from where it was: from the first hit on, pairs are skipped. */
  method GrowSweep(blocksIn: Vectors, clusIn: Vectors, r: real, iIn: nat)
    returns (blocks: Vectors, clus: Vectors, i: nat, moved: nat)
    requires blocksIn.Lockstep() && clusIn.Lockstep() && iIn < blocksIn.Size()
    ensures blocks.Lockstep() && clus.Lockstep()
    ensures Extends(blocksIn.Blocks(), clusIn.Blocks(), blocks.Blocks(), clus.Blocks(), r)
    ensures blocks.Size() + moved == blocksIn.Size()
    ensures i <= iIn && (i < blocks.Size() || (i == 0 && blocks.Size() == 0))
    ensures moved > 0 <==> Reached(blocksIn.Blocks()[iIn], clusIn.Blocks(), clusIn.Size(), r)
    ensures moved == 0 ==> i == iIn && blocks == blocksIn && clus == clusIn
  {
    blocks, clus, i, moved := blocksIn, clusIn, iIn, 0;
    ghost var bs0, cs0 := blocks.Blocks(), clus.Blocks();
    var j := 0;
    while j < clus.Size()
      invariant blocks.Lockstep() && clus.Lockstep()
      invariant Extends(bs0, cs0, blocks.Blocks(), clus.Blocks(), r)
      invariant i < blocks.Size() && blocks.Size() + moved == |bs0| && i <= iIn && j <= clus.Size()
      invariant clus.Size() == |cs0| + moved
      invariant moved == 0 ==> i == iIn && blocks == blocksIn && clus == clusIn
      invariant if moved > 0 then Reached(bs0[iIn], cs0, |cs0|, r) else !Reached(bs0[iIn], cs0, j, r)
      decreases |bs0| + |cs0| - j
    {
      if Near(blocks.At(i), clus.At(j), r) {
        blocks, clus := MoveAcross(bs0, cs0, blocks, clus, r, i, j);
        moved := moved + 1;
        if i >= blocks.Size() {
          if i > 0 {
            i := i - 1;
          } else {
            break;
          }
        }
      }
      j := j + 1;
    }
  }

  /** One pass: `i` runs down over the blocks. Only a pass that moves nothing tests all pairs. */
  method GrowPass(blocksIn: Vectors, clusIn: Vectors, r: real)
    returns (blocks: Vectors, clus: Vectors, added: nat)
    requires blocksIn.Lockstep() && clusIn.Lockstep()
    ensures blocks.Lockstep() && clus.Lockstep()
    ensures Extends(blocksIn.Blocks(), clusIn.Blocks(), blocks.Blocks(), clus.Blocks(), r)
    ensures blocks.Size() + added == blocksIn.Size()
    ensures added == 0 <==> Closed(blocksIn.Blocks(), clusIn.Blocks(), r)
    ensures added == 0 ==> blocks == blocksIn && clus == clusIn
  {
    blocks, clus, added := blocksIn, clusIn, 0;
    ghost var bs0, cs0 := blocks.Blocks(), clus.Blocks();
    var i := blocks.Size() - 1;
    while i >= 0
      invariant blocks.Lockstep() && clus.Lockstep()
      invariant Extends(bs0, cs0, blocks.Blocks(), clus.Blocks(), r)
      invariant -1 <= i < blocks.Size() && blocks.Size() + added == |bs0|
      invariant added == 0 ==> blocks == blocksIn && clus == clusIn && Closed(bs0[i + 1..], cs0, r)
      invariant added > 0 ==> !Closed(bs0, cs0, r)
      decreases i
    {
      ghost var iP, bs, cs := i, blocks.Blocks(), clus.Blocks();
      var moved;
      blocks, clus, i, moved := GrowSweep(blocks, clus, r, i);
      ExtendsTransitive(bs0, cs0, bs, cs, blocks.Blocks(), clus.Blocks(), r);
      if added == 0 && moved == 0 {
        ClosedDownTo(bs0, iP, cs0, r);
      }
      added := added + moved;
      i := i - 1;
    }
  }

  /** The growth loop: passes until one adds nothing. Vectors out of step are left alone. */
  method Grow(blocksIn: Vectors, clusIn: Vectors, r: real) returns (blocks: Vectors, clus: Vectors)
    ensures !(blocksIn.Lockstep() && clusIn.Lockstep()) ==> blocks == blocksIn && clus == clusIn
    ensures blocksIn.Lockstep() && clusIn.Lockstep() ==>
              && blocks.Lockstep() && clus.Lockstep()
              && Extends(blocksIn.Blocks(), clusIn.Blocks(), blocks.Blocks(), clus.Blocks(), r)
              && Closed(blocks.Blocks(), clus.Blocks(), r)
              && (Closed(blocksIn.Blocks(), clusIn.Blocks(), r) ==> blocks == blocksIn && clus == clusIn)
  {
    blocks, clus := blocksIn, clusIn;
    var added := 1;
    if blocks.Lockstep() && clus.Lockstep() {
      ghost var bs0, cs0 := blocks.Blocks(), clus.Blocks();
      while added > 0
        invariant blocks.Lockstep() && clus.Lockstep() && 0 <= added
        invariant Extends(bs0, cs0, blocks.Blocks(), clus.Blocks(), r)
        invariant added == 0 ==> Closed(blocks.Blocks(), clus.Blocks(), r)
        invariant Closed(bs0, cs0, r) ==> blocks == blocksIn && clus == clusIn
        decreases blocks.Size(), added
      {
        ghost var bs, cs := blocks.Blocks(), clus.Blocks();
        blocks, clus, added := GrowPass(blocks, clus, r);
        ExtendsTransitive(bs0, cs0, bs, cs, blocks.Blocks(), clus.Blocks(), r);
      }
    }
  }

  // ---- what the grown cluster is -------------------------------------------------

  lemma ChainSnoc(p: seq<Block>, b: Block, pool: multiset<Block>, r: real)
    requires Chain(p, pool, r) && b in pool && Near(b, p[|p| - 1], r)
    ensures Chain(p + [b], pool, r) && (p + [b])[0] == p[0] && (p + [b])[|p|] == b
  {
  }

  /** Every member of an extended cluster is chain-connected to the seed inside the cluster. */
  lemma {:induction false} MemberLinked(blocks0: seq<Block>, seed: Block, blocks: seq<Block>, clus: seq<Block>, r: real, j: nat)
    requires Extends(blocks0, [seed], blocks, clus, r)
    requires j < |clus|
    ensures Linked(seed, clus[j], multiset(clus), r)
  {
    if j == 0 {
      assert Chain([seed], multiset(clus), r);
    } else {
      assert Joined(clus, j, r);
      var i :| 0 <= i < j && Near(clus[j], clus[i], r);
      MemberLinked(blocks0, seed, blocks, clus, r, i);
      var p :| Chain(p, multiset(clus), r) && p[0] == seed && p[|p| - 1] == clus[i];
      ChainSnoc(p, clus[j], multiset(clus), r);
    }
  }

  /** A walk from the seed never leaves a closed cluster. */
  lemma {:induction false} WalkStays(seed: Block, blocks: seq<Block>, clus: seq<Block>, r: real, p: seq<Block>)
    requires r > 0.0 && Closed(blocks, clus, r) && seed in clus
    requires Chain(p, multiset(blocks) + multiset(clus), r) && p[0] == seed
    ensures p[|p| - 1] in clus && p[|p| - 1] !in blocks
  {
    var last := p[|p| - 1];
    if |p| == 1 {
      NearItself(seed, r);
    } else {
      var q := p[..|p| - 1];
      WalkStays(seed, blocks, clus, r, q);
      assert Near(last, q[|q| - 1], r);
    }
    assert last in multiset(blocks) + multiset(clus);
  }

  /** A larger pool keeps every chain. */
  lemma LinkedMonotone(a: Block, b: Block, small: multiset<Block>, large: multiset<Block>, r: real)
    requires Linked(a, b, small, r) && small <= large
    ensures Linked(a, b, large, r)
  {
    var p :| Chain(p, small, r) && p[0] == a && p[|p| - 1] == b;
    assert Chain(p, large, r);
  }

  /** The grown cluster holds exactly the blocks reachable from the seed by steps shorter
      than the reach, each as often as it was given; the rest is exactly what is not reachable. */
  lemma {:induction false} ClusterIsComponent(blocks0: seq<Block>, seed: Block, blocks: seq<Block>, clus: seq<Block>,
                                              r: real, h: Block)
    requires r > 0.0
    requires Extends(blocks0, [seed], blocks, clus, r) && Closed(blocks, clus, r)
    ensures var all := multiset(blocks0) + multiset{seed};
            if Linked(seed, h, all, r)
            then multiset(clus)[h] == all[h] && h !in blocks
            else multiset(blocks)[h] == all[h] && h !in clus
  {
    var all := multiset(blocks0) + multiset{seed};
    assert all == multiset(blocks) + multiset(clus);
    assert clus[0] == seed;
    if Linked(seed, h, all, r) {
      var p :| Chain(p, all, r) && p[0] == seed && p[|p| - 1] == h;
      WalkStays(seed, blocks, clus, r, p);
    } else if h in clus {
      var j :| 0 <= j < |clus| && clus[j] == h;
      MemberLinked(blocks0, seed, blocks, clus, r, j);
      LinkedMonotone(seed, h, multiset(clus), all, r);
    }
  }

  // ---- walks both ways -----------------------------------------------------------

  lemma LinkedThrough(a: Block, b: Block, c: Block, pool: multiset<Block>, r: real)
    requires Linked(a, b, pool, r) && Linked(b, c, pool, r)
    ensures Linked(a, c, pool, r)
  {
    var p :| Chain(p, pool, r) && p[0] == a && p[|p| - 1] == b;
    var q :| Chain(q, pool, r) && q[0] == b && q[|q| - 1] == c;
    var w := p + q[1..];
    forall k | 0 < k < |w|
      ensures Near(w[k], w[k - 1], r)
    {
      if k >= |p| {
        assert w[k] == q[k - |p| + 1] && w[k - 1] == q[k - |p|];
      }
    }
    assert Chain(w, pool, r) && w[0] == a && w[|w| - 1] == c;
  }

  lemma {:induction false} WalkBack(p: seq<Block>, pool: multiset<Block>, r: real)
    requires Chain(p, pool, r)
    ensures Linked(p[|p| - 1], p[0], pool, r)
  {
    var n := |p| - 1;
    if n == 0 {
      assert p[n] == p[0];
    } else {
      WalkBack(p[..n], pool, r);
      NearIsSymmetric(p[n], p[n - 1], r);
      var w := [p[n], p[n - 1]];
      assert Chain(w, pool, r) && w[0] == p[n] && w[|w| - 1] == p[n - 1];
      LinkedThrough(p[n], p[n - 1], p[0], pool, r);
    }
  }

  lemma LinkedBack(a: Block, b: Block, pool: multiset<Block>, r: real)
    requires Linked(a, b, pool, r)
    ensures Linked(b, a, pool, r)
  {
    var p :| Chain(p, pool, r) && p[0] == a && p[|p| - 1] == b;
    WalkBack(p, pool, r);
  }

  /** Whatever a growth starts from, moving near blocks one at a time ends. */
  lemma {:induction false} CanGrow(blocks0: seq<Block>, clus0: seq<Block>, r: real) returns (blocks: seq<Block>, clus: seq<Block>)
    ensures Extends(blocks0, clus0, blocks, clus, r) && Closed(blocks, clus, r)
    decreases |blocks0|
  {
    if Closed(blocks0, clus0, r) {
      blocks, clus := blocks0, clus0;
    } else {
      var i, j :| 0 <= i < |blocks0| && 0 <= j < |clus0| && Near(blocks0[i], clus0[j], r);
      MoveOne(blocks0, clus0, blocks0, clus0, r, i, j);
      blocks, clus := CanGrow(Drop(blocks0, i), clus0 + [blocks0[i]], r);
      ExtendsTransitive(blocks0, clus0, Drop(blocks0, i), clus0 + [blocks0[i]], blocks, clus, r);
    }
  }

  /** Two growths from the same seed over the same pool, in whatever order the blocks came,
      end with the same cluster and the same remainder, as multisets. */
  lemma GrowthOrderFree(blocksA: seq<Block>, blocksB: seq<Block>, seed: Block, r: real,
                        leftA: seq<Block>, clusA: seq<Block>, leftB: seq<Block>, clusB: seq<Block>)
    requires r > 0.0 && multiset(blocksA) == multiset(blocksB)
    requires Extends(blocksA, [seed], leftA, clusA, r) && Closed(leftA, clusA, r)
    requires Extends(blocksB, [seed], leftB, clusB, r) && Closed(leftB, clusB, r)
    ensures multiset(clusA) == multiset(clusB) && multiset(leftA) == multiset(leftB)
  {
    forall h: Block
      ensures multiset(clusA)[h] == multiset(clusB)[h] && multiset(leftA)[h] == multiset(leftB)[h]
    {
      ClusterIsComponent(blocksA, seed, leftA, clusA, r, h);
      ClusterIsComponent(blocksB, seed, leftB, clusB, r, h);
    }
  }
}
