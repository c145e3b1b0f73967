/** Row-major storage: row `i` of a flat sequence whose rows are `w` long. Products of
    dimensions are spelled as repeated addition, which keeps them out of the proofs. */
module Rows {

  /** `n` rows of `w` cells. */
  function Cells(n: nat, w: nat): nat
  {
    if n == 0 then 0 else Cells(n - 1, w) + w
  }

  lemma {:induction false} CellsIs(n: nat, w: nat)
    ensures Cells(n, w) == n * w
  {
    if n > 0 {
      CellsIs(n - 1, w);
      assert n * w == (n - 1) * w + w;
    }
  }

  lemma {:induction false} CellsGrow(a: nat, b: nat, w: nat)
    requires a <= b
    ensures Cells(a, w) <= Cells(b, w)
  {
    if a < b {
      CellsGrow(a, b - 1, w);
    }
  }

  /** Row `i` lies before the cells of any later row. */
  lemma RowsApart(i: nat, j: nat, w: nat)
    requires i < j
    ensures Cells(i, w) + w <= Cells(j, w)
  {
    CellsGrow(i + 1, j, w);
  }

  lemma ProductGrows(a: nat, b: nat, w: nat)
    requires a <= b
    ensures a * w <= b * w
  {
    assert (b - a) * w >= 0;
    assert b * w == a * w + (b - a) * w;
  }

  function Row<T>(s: seq<T>, i: nat, n: nat, w: nat): (r: seq<T>)
    requires i < n && |s| == Cells(n, w)
    ensures |r| == w
  {
    RowsApart(i, n, w);
    s[Cells(i, w)..Cells(i, w) + w]
  }

  lemma RowAt<T>(s: seq<T>, i: nat, n: nat, w: nat, k: nat)
    requires i < n && |s| == Cells(n, w) && k < w
    ensures Cells(i, w) + k < |s| && Row(s, i, n, w)[k] == s[Cells(i, w) + k]
  {
    RowsApart(i, n, w);
  }

  lemma RowOfConstant<T>(s: seq<T>, i: nat, n: nat, w: nat, x: T)
    requires i < n && |s| == Cells(n, w) && forall j :: 0 <= j < |s| ==> s[j] == x
    ensures forall k :: 0 <= k < w ==> Row(s, i, n, w)[k] == x
  {
    var row := Row(s, i, n, w);
    forall k | 0 <= k < w
      ensures row[k] == x
    {
      RowAt(s, i, n, w, k);
    }
  }

  /** Writing one cell changes its own row, at its own column, and no other row. */
  lemma RowUpdate<T>(s: seq<T>, s': seq<T>, i: nat, k: nat, n: nat, w: nat, x: T, j: nat)
    requires i < n && j < n && k < w && |s| == Cells(n, w) == |s'|
    requires Cells(i, w) + k < |s| && s' == s[Cells(i, w) + k := x]
    ensures Row(s', j, n, w) == if j == i then Row(s, i, n, w)[k := x] else Row(s, j, n, w)
  {
    RowsApart(i, n, w);
    RowsApart(j, n, w);
    if j < i {
      RowsApart(j, i, w);
    } else if i < j {
      RowsApart(i, j, w);
    }
    SliceUpdate(s, s', Cells(i, w) + k, x, Cells(j, w), w, if j == i then Row(s, i, n, w)[k := x] else Row(s, j, n, w));
  }

  lemma SliceUpdate<T>(s: seq<T>, s': seq<T>, at: nat, x: T, from: nat, w: nat, r: seq<T>)
    requires at < |s| && s' == s[at := x] && from + w <= |s|
    requires r == if from <= at < from + w then s[from..from + w][at - from := x] else s[from..from + w]
    ensures s'[from..from + w] == r
  {
  }
}
