/** The hit that digitization hands to the strip planes: parallel arrays of strip numbers,
    charges and, row by row, ADC samples, of which the first `fSize` strips are in use. */
module GEMHit {
  import opened StripPlane
  import opened Rows

  class GEMHit {
    const capacity: nat
    const fNsample: nat
    const fIdx: array<int>
    const fCharge: array<real>
    const fADC: array<int>
    var fTime: real
    var fHitCharge: real
    var fTotalADC: int
    var fSize: int

    ghost function Footprint(): set<object>
    {
      {this as object, fIdx as object, fCharge as object, fADC as object}
    }

    ghost predicate Valid()
      reads Footprint()
    {
      && fIdx.Length == fCharge.Length == capacity && fADC.Length == Cells(capacity, fNsample)
      && fIdx != fADC
      && 0 <= fSize <= capacity
    }

    constructor (n: nat, nsample: nat)
      ensures Valid() && capacity == n && fNsample == nsample
      ensures fresh(fIdx) && fresh(fCharge) && fresh(fADC)
      ensures fSize == n && fTotalADC == 0 && fTime == -1.0 && fHitCharge == 0.0
      ensures forall i :: 0 <= i < fADC.Length ==> fADC[i] == 0
    {
      capacity, fNsample := n, nsample;
      fSize, fTotalADC, fTime, fHitCharge := n, 0, -1.0, 0.0;
      fIdx := new int[n](_ => 0);
      fCharge := new real[n](_ => 0.0);
      fADC := new int[Cells(n, nsample)](_ => 0);
    }

    /** The samples of entry `n`. */
    ghost function Samples(n: nat): (s: seq<int>)
      requires fADC.Length == Cells(capacity, fNsample) && n < capacity
      reads fADC
      ensures |s| == fNsample
    {
      Row(fADC[..], n, capacity, fNsample)
    }

    ghost function Entry(n: nat): Signal
      requires Valid() && n < capacity
      reads Footprint()
    {
      Signal(fIdx[n], fCharge[n], Samples(n))
    }

    /** The first `n` entries. */
    ghost function Entries(n: nat): (s: seq<Signal>)
      requires Valid() && n <= capacity
      reads Footprint()
      ensures |s| == n && forall j :: 0 <= j < n ==> s[j] == Entry(j)
    {
      seq(n, j requires 0 <= j < n reads Footprint() requires Valid() && n <= capacity => Entry(j))
    }

    /** The hit as a value: its used entries. */
    ghost function Value(): (v: HitValue)
      requires Valid()
      reads Footprint()
    {
      HitValue(fTime, fTotalADC, Entries(fSize))
    }

    method AddStripAt(idx: int, n: nat)
      requires Valid() && n < capacity
      modifies fIdx
      ensures Valid() && fIdx[..] == old(fIdx[..])[n := idx]
    {
      fIdx[n] := idx;
    }

    method AddChargeAt(val: real, n: nat)
      requires Valid() && n < capacity
      modifies fCharge
      ensures Valid() && fCharge[..] == old(fCharge[..])[n := val]
    {
      fCharge[n] := val;
    }

    /** Stores a sample and adds it to the hit's total, whatever was stored there before. */
    method AddSampleAt(val: int, sample: nat, n: nat)
      requires Valid() && n < capacity && sample < fNsample
      modifies fADC, this`fTotalADC
      ensures Valid() && fTotalADC == old(fTotalADC) + val
      ensures forall j: nat :: j < capacity ==> Samples(j) == if j == n then old(Samples(n))[sample := val] else old(Samples(j))
    {
      RowsApart(n, capacity, fNsample);
      ghost var was := fADC[..];
      CellsIs(n, fNsample);
      fADC[n * fNsample + sample] := val;
      fTotalADC := fTotalADC + val;
      forall j: nat | j < capacity
        ensures Samples(j) == if j == n then Row(was, n, capacity, fNsample)[sample := val] else Row(was, j, capacity, fNsample)
      {
        RowUpdate(was, fADC[..], n, sample, capacity, fNsample, val, j);
      }
    }

    method SetSize(n: nat)
      requires Valid() && n <= capacity
      modifies this`fSize
      ensures Valid() && fSize == n
    {
      fSize := n;
    }

    /** Reads the used entries out of the arrays. */
    method GetValue() returns (v: HitValue)
      requires Valid()
      ensures v == Value()
    {
      var signals: seq<Signal> := [];
      for j := 0 to fSize
        invariant signals == Value().signals[..j]
      {
        signals := signals + [Signal(fIdx[j], fCharge[j], Row(fADC[..], j, capacity, fNsample))];
      }
      v := HitValue(fTime, fTotalADC, signals);
    }

    method GetADC(n: nat, sample: nat) returns (val: int)
      requires Valid() && n < capacity && sample < fNsample
      ensures val == Samples(n)[sample]
    {
      RowsApart(n, capacity, fNsample);
      CellsIs(n, fNsample);
      val := fADC[n * fNsample + sample];
    }
  }
}
