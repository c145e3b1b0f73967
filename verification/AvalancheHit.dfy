/** From the filled grid to the hit: integrate the cells below each strip, digitize the
    pulse of each strip, and keep the strips that show a signal. */
module AvalancheHit {
  import opened Numeric
  import opened RealAlgebra
  import opened Sums
  import opened Rows
  import opened StripPlane
  import SimAuxi
  import GEMHit

  // ---- integration ---------------------------------------------------------------

  function Value(x: real): real { x }

  function RowSum(s: seq<real>, r: nat, nx: nat, ny: nat): real
    requires r < nx && |s| == Cells(nx, ny)
  {
    Sum(Row(s, r, nx, ny), Value)
  }

  ghost function RowSums(s: seq<real>, nx: nat, ny: nat): (rs: seq<real>)
    requires |s| == Cells(nx, ny)
    ensures |rs| == nx && forall r :: 0 <= r < nx ==> rs[r] == RowSum(s, r, nx, ny)
  {
    seq(nx, r requires 0 <= r < nx => RowSum(s, r, nx, ny))
  }

  /** The charge below each row of cells: row sum times cell area. */
  ghost function Charges(rowSums: seq<real>, area: real): (qs: seq<real>)
    ensures |qs| == |rowSums| && forall r :: 0 <= r < |qs| ==> qs[r] == Scaled(Value, area)(rowSums[r])
  {
    seq(|rowSums|, r requires 0 <= r < |rowSums| => Scaled(Value, area)(rowSums[r]))
  }

  /** The charge on strip `j` of strips `steps` rows wide. */
  function Strip(qs: seq<real>, j: nat, steps: nat, nstrips: nat): real
    requires j < nstrips && |qs| == Cells(nstrips, steps)
  {
    Sum(Row(qs, j, nstrips, steps), Value)
  }

  /** The charges on all strips. */
  ghost function StripCharges(s: seq<real>, steps: nat, nstrips: nat, nx: nat, ny: nat, area: real): (us: seq<real>)
    requires nx == Cells(nstrips, steps) && |s| == Cells(nx, ny)
    ensures |us| == nstrips
    ensures forall j :: 0 <= j < nstrips ==> us[j] == Strip(Charges(RowSums(s, nx, ny), area), j, steps, nstrips)
  {
    seq(nstrips, j requires 0 <= j < nstrips => Strip(Charges(RowSums(s, nx, ny), area), j, steps, nstrips))
  }

  function StripsTo(qs: seq<real>, j: nat, steps: nat, nstrips: nat): real
    requires j <= nstrips && |qs| == Cells(nstrips, steps)
  {
    if j == 0 then 0.0 else StripsTo(qs, j - 1, steps, nstrips) + Strip(qs, j - 1, steps, nstrips)
  }

  /** Summing row by row is summing. */
  lemma {:induction false} StripsAreRows(qs: seq<real>, j: nat, steps: nat, nstrips: nat)
    requires j <= nstrips && |qs| == Cells(nstrips, steps)
    ensures Cells(j, steps) <= |qs| && StripsTo(qs, j, steps, nstrips) == Sum(qs[..Cells(j, steps)], Value)
  {
    CellsGrow(j, nstrips, steps);
    if j > 0 {
      RowsApart(j - 1, nstrips, steps);
      StripsAreRows(qs, j - 1, steps, nstrips);
      var before, row := qs[..Cells(j - 1, steps)], Row(qs, j - 1, nstrips, steps);
      assert qs[..Cells(j, steps)] == before + row;
      SumConcat(before, row, Value);
    }
  }

  lemma {:induction false} RowSumsAddUp(s: seq<real>, r: nat, nx: nat, ny: nat)
    requires r <= nx && |s| == Cells(nx, ny)
    ensures Sum(RowSums(s, nx, ny)[..r], Value) == StripsTo(s, r, ny, nx)
  {
    if r > 0 {
      var rs := RowSums(s, nx, ny);
      RowSumsAddUp(s, r - 1, nx, ny);
      assert rs[..r] == rs[..r - 1] + [rs[r - 1]];
      SumSnoc(rs[..r - 1], rs[r - 1], Value);
    }
  }

  lemma {:induction false} SumOfMapped(qs: seq<real>, rs: seq<real>, w: real -> real)
    requires |qs| == |rs| && forall r :: 0 <= r < |rs| ==> qs[r] == w(rs[r])
    ensures Sum(qs, Value) == Sum(rs, w)
  {
    if rs != [] {
      SumOfMapped(qs[..|rs| - 1], rs[..|rs| - 1], w);
    }
  }

  /** The strips share out the grid: their charges add up to cell area times the sum over
      every cell, so no cell is left out and none is used twice. */
  lemma {:induction false} StripsShareTheGrid(s: seq<real>, steps: nat, nstrips: nat, nx: nat, ny: nat, area: real, total: real)
    requires nx == Cells(nstrips, steps) && |s| == Cells(nx, ny) && total == Sum(s, Value)
    ensures StripsTo(Charges(RowSums(s, nx, ny), area), nstrips, steps, nstrips) == area * total
  {
    AllStrips(Charges(RowSums(s, nx, ny), area), steps, nstrips);
    RowSumsTotal(s, nx, ny);
    ChargesAddUp(RowSums(s, nx, ny), area, total);
  }

  lemma AllStrips(qs: seq<real>, steps: nat, nstrips: nat)
    requires |qs| == Cells(nstrips, steps)
    ensures StripsTo(qs, nstrips, steps, nstrips) == Sum(qs, Value)
  {
    StripsAreRows(qs, nstrips, steps, nstrips);
    assert qs[..|qs|] == qs;
  }

  lemma {:induction false} RowSumsTotal(s: seq<real>, nx: nat, ny: nat)
    requires |s| == Cells(nx, ny)
    ensures Sum(RowSums(s, nx, ny), Value) == Sum(s, Value)
  {
    AllStrips(s, ny, nx);
    RowSumsAddUp(s, nx, nx, ny);
    assert RowSums(s, nx, ny)[..nx] == RowSums(s, nx, ny);
  }

  lemma ChargesAddUp(rowSums: seq<real>, area: real, total: real)
    requires total == Sum(rowSums, Value)
    ensures Sum(Charges(rowSums, area), Value) == area * total
  {
    SumOfMapped(Charges(rowSums, area), rowSums, Scaled(Value, area));
    SumScale(rowSums, Value, area);
    SameProduct(Sum(rowSums, Value), total, area);
  }

  lemma SameProduct(a: real, b: real, area: real)
    requires a == b
    ensures area * a == area * b
  {
  }

  lemma ScaledValue(area: real, rowSum: real, sum: real)
    requires rowSum == sum
    ensures Scaled(Value, area)(rowSum) == sum * area
  {
    assert Value(rowSum) == sum;
    assert Product(area, sum) == sum * area;
  }

  /** The integration of strip `j`: the rows below it, the cell index `kx` running on through them. */
  method IntegrateStrip(a: array<real>, j: nat, steps: nat, nstrips: nat, nx: nat, ny: nat, area: real) returns (us: real)
    requires nx == Cells(nstrips, steps) && a.Length == Cells(nx, ny) && j < nstrips
    ensures us == Strip(Charges(RowSums(a[..], nx, ny), area), j, steps, nstrips)
  {
    var first := j * steps;
    CellsIs(j, steps);
    RowsApart(j, nstrips, steps);
    ghost var qs := Charges(RowSums(a[..], nx, ny), area);
    us := IntegrateRows(a, first, steps, nx, ny, area, qs);
    StripAt(qs, j, steps, nstrips, first);
  }

  lemma StripAt(qs: seq<real>, j: nat, steps: nat, nstrips: nat, first: nat)
    requires j < nstrips && |qs| == Cells(nstrips, steps) && first == Cells(j, steps) && first + steps <= |qs|
    ensures Strip(qs, j, steps, nstrips) == Sum(qs[first..first + steps], Value)
  {
  }

  /** Mentioning a strip, or a row, makes the predicates below say what they hold for it. */
  ghost predicate OnStrip(j: int) { true }

  /** `qs` are the charges below the rows of `a`; mentioning a row makes this say so. */
  ghost predicate BelowRows(a: array<real>, nx: nat, ny: nat, area: real, qs: seq<real>)
    reads a
  {
    && a.Length == Cells(nx, ny) && |qs| == nx
    && forall r {:trigger OnStrip(r)} :: OnStrip(r) && 0 <= r < nx ==> qs[r] == Charges(RowSums(a[..], nx, ny), area)[r]
  }

  method IntegrateRows(a: array<real>, first: nat, steps: nat, nx: nat, ny: nat, area: real, ghost qs: seq<real>) returns (us: real)
    requires BelowRows(a, nx, ny, area, qs) && first + steps <= nx
    ensures us == Sum(qs[first..first + steps], Value)
  {
    us := 0.0;
    for k := 0 to steps
      invariant us == Sum(qs[first..first + k], Value)
    {
      var charge := RowCharge(a, first + k, nx, ny, area, qs);
      NextCharge(qs, first, first + k);
      us := us + charge;
    }
  }

  lemma NextCharge(qs: seq<real>, first: nat, k: nat)
    requires first <= k < |qs|
    ensures Sum(qs[first..k + 1], Value) == Sum(qs[first..k], Value) + qs[k]
  {
    assert qs[first..k + 1] == qs[first..k] + [qs[k]];
    SumSnoc(qs[first..k], qs[k], Value);
    assert Value(qs[k]) == qs[k];
  }

  method RowCharge(a: array<real>, r: nat, nx: nat, ny: nat, area: real, ghost qs: seq<real>) returns (charge: real)
    requires BelowRows(a, nx, ny, area, qs) && r < nx
    ensures charge == qs[r]
  {
    assert OnStrip(r);
    var sum := IntegrateRow(a, r, nx, ny);
    ScaledValue(area, RowSums(a[..], nx, ny)[r], sum);
    charge := sum * area;
  }

  method IntegrateRow(a: array<real>, r: nat, nx: nat, ny: nat) returns (sum: real)
    requires a.Length == Cells(nx, ny) && r < nx
    ensures sum == RowSum(a[..], r, nx, ny)
  {
    RowsApart(r, nx, ny);
    CellsIs(r, ny);
    ghost var row := Row(a[..], r, nx, ny);
    sum := 0.0;
    var kx := r * ny;
    for m := 0 to ny
      invariant kx == r * ny + m && sum == Sum(row[..m], Value)
    {
      assert row[..m + 1] == row[..m] + [row[m]];
      SumSnoc(row[..m], row[m], Value);
      sum, kx := sum + a[kx], kx + 1;
    }
    assert row[..ny] == row;
  }

  // ---- digitization --------------------------------------------------------------

  datatype Converter = Converter(off: real, gain: real, bits: nat)
  {
    ghost predicate Valid() { gain != 0.0 && bits <= SimAuxi.MAX_ADCBITS }

    /** The offset is small enough for every pulse to be converted as intended. */
    ghost predicate Sane() { gain > 0.0 && bits <= SimAuxi.MAX_ADCBITS && off <= 32768.0 * gain }
  }

  function Samples(c: Converter, pulse: seq<real>): (s: seq<int>)
    requires c.Valid()
    ensures |s| == |pulse| && NonNegative(s)
    ensures forall b :: 0 <= b < |pulse| ==> s[b] == SimAuxi.ADCConvert(pulse[b], c.off, c.gain, c.bits)
  {
    seq(|pulse|, b requires 0 <= b < |pulse| => SimAuxi.ADCConvert(pulse[b], c.off, c.gain, c.bits))
  }

  /** The signals of the first `n` strips from strip `iL` on, those without signal left out. */
  function Packed(c: Converter, pulses: seq<seq<real>>, us: seq<real>, iL: int, n: nat): seq<Signal>
    requires c.Valid() && n <= |pulses| && n <= |us|
  {
    if n == 0 then []
    else if StripPlane.Total(Samples(c, pulses[n - 1])) > 0
    then Packed(c, pulses, us, iL, n - 1) + [Signal(iL + n - 1, us[n - 1], Samples(c, pulses[n - 1]))]
    else Packed(c, pulses, us, iL, n - 1)
  }

  function TotalOf(signals: seq<Signal>): int
  {
    if signals == [] then 0 else TotalOf(signals[..|signals| - 1]) + StripPlane.Total(signals[|signals| - 1].adc)
  }

  ghost predicate IsPacked(c: Converter, pulses: seq<seq<real>>, us: seq<real>, iL: int, n: nat, g: Signal)
    requires c.Valid() && n <= |pulses| && n <= |us|
  {
    && iL <= g.idx < iL + n && g.charge == us[g.idx - iL]
    && g.adc == Samples(c, pulses[g.idx - iL]) && StripPlane.Total(g.adc) > 0
  }

  ghost predicate AllPacked(c: Converter, pulses: seq<seq<real>>, us: seq<real>, iL: int, n: nat, p: seq<Signal>)
    requires c.Valid() && n <= |pulses| && n <= |us|
  {
    forall i :: 0 <= i < |p| ==> IsPacked(c, pulses, us, iL, n, p[i])
  }

  ghost predicate Ascending(p: seq<Signal>)
  {
    forall i, j :: 0 <= i < j < |p| ==> p[i].idx < p[j].idx
  }

  lemma PackedBefore(c: Converter, pulses: seq<seq<real>>, us: seq<real>, iL: int, n: nat, p: seq<Signal>)
    requires c.Valid() && n < |pulses| && n < |us| && AllPacked(c, pulses, us, iL, n, p)
    ensures AllPacked(c, pulses, us, iL, n + 1, p)
    ensures forall i :: 0 <= i < |p| ==> p[i].idx < iL + n
  {
    forall i | 0 <= i < |p|
      ensures IsPacked(c, pulses, us, iL, n + 1, p[i]) && p[i].idx < iL + n
    {
      assert IsPacked(c, pulses, us, iL, n, p[i]);
    }
  }

  lemma AscendingSnoc(p: seq<Signal>, g: Signal)
    requires Ascending(p) && forall i :: 0 <= i < |p| ==> p[i].idx < g.idx
    ensures Ascending(p + [g])
  {
  }

  /** Packing keeps strips in order, each with its own charge and samples and with a signal. */
  lemma {:induction false} PackedShape(c: Converter, pulses: seq<seq<real>>, us: seq<real>, iL: int, n: nat)
    requires c.Valid() && n <= |pulses| && n <= |us|
    ensures var p := Packed(c, pulses, us, iL, n); |p| <= n && Ascending(p) && AllPacked(c, pulses, us, iL, n, p)
  {
    if n > 0 {
      PackedShape(c, pulses, us, iL, n - 1);
      var p, g := Packed(c, pulses, us, iL, n - 1), Signal(iL + n - 1, us[n - 1], Samples(c, pulses[n - 1]));
      PackedBefore(c, pulses, us, iL, n - 1, p);
      if StripPlane.Total(g.adc) > 0 {
        AscendingSnoc(p, g);
        assert IsPacked(c, pulses, us, iL, n, g);
      }
    }
  }

  /** ... and leaves out no strip that has one. */
  lemma {:induction false} PackedComplete(c: Converter, pulses: seq<seq<real>>, us: seq<real>, iL: int, n: nat, j: nat)
    requires c.Valid() && j < n <= |pulses| && n <= |us| && StripPlane.Total(Samples(c, pulses[j])) > 0
    ensures exists i :: 0 <= i < |Packed(c, pulses, us, iL, n)| && Packed(c, pulses, us, iL, n)[i].idx == iL + j
  {
    var p := Packed(c, pulses, us, iL, n);
    if j == n - 1 {
      assert p[|p| - 1].idx == iL + j;
    } else {
      PackedComplete(c, pulses, us, iL, n - 1, j);
      var q := Packed(c, pulses, us, iL, n - 1);
      var i :| 0 <= i < |q| && q[i].idx == iL + j;
      assert p[i].idx == iL + j;
    }
  }

  /** With a sane converter every sample is a reading of `bits` bits. */
  lemma SamplesInRange(c: Converter, pulse: seq<real>, b: nat)
    requires c.Sane() && b < |pulse|
    ensures 0 <= Samples(c, pulse)[b] <= SimAuxi.Saturation(c.bits)
  {
    SimAuxi.ConversionRightIff(c.off, c.gain, c.bits);
    assert SimAuxi.ADCConvert(pulse[b], c.off, c.gain, c.bits) == SimAuxi.Reading(pulse[b], c.off, c.gain, c.bits);
  }

  /** The weights `Cumulate` records for a hit's strips. */
  function WeightsTo(signals: seq<Signal>, total: int, n: nat): real
    requires n <= |signals| && total != 0
  {
    if n == 0 then 0.0
    else WeightsTo(signals, total, n - 1) + Quotient(StripPlane.Total(signals[n - 1].adc) as real, total as real).value
  }

  lemma {:induction false} WeightsAreShares(signals: seq<Signal>, total: int, n: nat)
    requires n <= |signals| && total > 0
    ensures WeightsTo(signals, total, n) == TotalOf(signals[..n]) as real / total as real
  {
    var t := total as real;
    if n > 0 {
      WeightsAreShares(signals, total, n - 1);
      assert signals[..n][..n - 1] == signals[..n - 1];
      var a, b := TotalOf(signals[..n - 1]) as real, StripPlane.Total(signals[n - 1].adc) as real;
      SplitQuotient(a, b, t);
    }
  }

  lemma SplitQuotient(a: real, b: real, t: real)
    requires t > 0.0
    ensures a / t + b / t == (a + b) / t
  {
    Dist(t, a / t, b / t);
    assert a / t * t == a && b / t * t == b && (a + b) / t * t == a + b;
    ScaleOrder(t, a / t + b / t, (a + b) / t);
    ScaleOrder(t, (a + b) / t, a / t + b / t);
  }

  lemma {:induction false} TotalOfPositive(signals: seq<Signal>)
    requires forall i :: 0 <= i < |signals| ==> StripPlane.Total(signals[i].adc) > 0
    ensures TotalOf(signals) >= 0 && (signals != [] ==> TotalOf(signals) > 0)
  {
    if signals != [] {
      TotalOfPositive(signals[..|signals| - 1]);
    }
  }

  /** Weights by a positive total add up to one. */
  lemma {:induction false} WeightsSumToOne(signals: seq<Signal>)
    requires signals != [] && forall i :: 0 <= i < |signals| ==> StripPlane.Total(signals[i].adc) > 0
    ensures TotalOf(signals) > 0 && WeightsTo(signals, TotalOf(signals), |signals|) == 1.0
  {
    TotalOfPositive(signals);
    var t := TotalOf(signals);
    WeightsAreShares(signals, t, |signals|);
    assert signals[..|signals|] == signals;
    Unity(t as real);
  }

  lemma Unity(t: real)
    requires t > 0.0
    ensures t / t == 1.0
  {
  }

  /** A packed hit that has any strips records weights that add up to one. */
  lemma {:induction false} PackedWeights(c: Converter, pulses: seq<seq<real>>, us: seq<real>, iL: int, n: nat)
    requires c.Valid() && n <= |pulses| && n <= |us| && Packed(c, pulses, us, iL, n) != []
    ensures var p := Packed(c, pulses, us, iL, n);
            TotalOf(p) > 0 && WeightsTo(p, TotalOf(p), |p|) == 1.0
  {
    var p := Packed(c, pulses, us, iL, n);
    PackedShape(c, pulses, us, iL, n);
    forall i | 0 <= i < |p|
      ensures StripPlane.Total(p[i].adc) > 0
    {
      assert IsPacked(c, pulses, us, iL, n, p[i]);
    }
    WeightsSumToOne(p);
  }

  /** The hit those signals make; its total is the sum of all its samples. */
  function PackedHit(c: Converter, pulses: seq<seq<real>>, us: seq<real>, iL: int, t0: real): HitValue
    requires c.Valid() && |us| == |pulses|
  {
    var signals := Packed(c, pulses, us, iL, |pulses|);
    HitValue(t0, TotalOf(signals), signals)
  }

  // ---- packing -------------------------------------------------------------------

  /** The strip loop: the hit has room for `nx` strips, one per integration column. */
  method Pack(a: array<real>, iL: int, nstrips: nat, steps: nat, nx: nat, ny: nat, area: real,
              c: Converter, pulses: seq<seq<real>>, nsample: nat, t0: real, hitCharge: real)
    returns (hit: GEMHit.GEMHit, ghost us: seq<real>)
    requires steps > 0 && nx == Cells(nstrips, steps) && a.Length == Cells(nx, ny) && c.Valid()
    requires |pulses| == nstrips && forall j :: 0 <= j < nstrips ==> |pulses[j]| == nsample
    ensures hit.Valid() && fresh(hit.Footprint()) && hit.fNsample == nsample && hit.fHitCharge == hitCharge
    ensures us == StripCharges(a[..], steps, nstrips, nx, ny, area)
    ensures hit.Value() == PackedHit(c, pulses, us, iL, t0)
  {
    Capacity(nstrips, steps);
    hit := new GEMHit.GEMHit(nx, nsample);
    hit.fTime, hit.fHitCharge := t0, hitCharge;
    us := StripCharges(a[..], steps, nstrips, nx, ny, area);
    ghost var packs := seq(nstrips + 1, j requires 0 <= j < nstrips + 1 => Packed(c, pulses, us, iL, j));
    var ai := PackStrips(hit, a, iL, nstrips, steps, nx, ny, area, c, pulses, us, packs);
    hit.SetSize(ai);
    assert OnStrip(nstrips);
  }

  /** `us` are the charges on the strips above the cells of `a`. */
  ghost predicate Above(a: array<real>, nstrips: nat, steps: nat, nx: nat, ny: nat, area: real, us: seq<real>)
    reads a
  {
    && |us| == nstrips
    && forall j {:trigger OnStrip(j)} :: OnStrip(j) ==>
         nx == Cells(nstrips, steps) && a.Length == Cells(nx, ny) && us == StripCharges(a[..], steps, nstrips, nx, ny, area)
  }

  /** `packs[j]` are the signals of the first `j` strips. */
  ghost predicate Prefixes(c: Converter, pulses: seq<seq<real>>, us: seq<real>, iL: int, packs: seq<seq<Signal>>)
    requires c.Valid() && |us| == |pulses|
  {
    && |packs| == |pulses| + 1 && packs[0] == []
    && forall j {:trigger OnStrip(j)} :: OnStrip(j) && 0 <= j < |packs| ==> packs[j] == Packed(c, pulses, us, iL, j)
  }

  method PackStrips(hit: GEMHit.GEMHit, a: array<real>, iL: int, nstrips: nat, steps: nat, nx: nat, ny: nat, area: real,
                    c: Converter, pulses: seq<seq<real>>, ghost us: seq<real>, ghost packs: seq<seq<Signal>>)
    returns (ai: nat)
    requires Above(a, nstrips, steps, nx, ny, area, us) && c.Valid() && |pulses| == nstrips
    requires forall j :: 0 <= j < nstrips ==> |pulses[j]| == hit.fNsample
    requires Prefixes(c, pulses, us, iL, packs)
    requires hit.Valid() && a != hit.fCharge && nstrips <= hit.capacity && hit.fTotalADC == 0
    modifies hit.fADC, hit.fIdx, hit.fCharge, hit`fTotalADC
    ensures hit.Valid() && ai <= nstrips && Filled(hit, ai, packs[nstrips])
  {
    ai := 0;
    for j := 0 to nstrips
      invariant hit.Valid() && Above(a, nstrips, steps, nx, ny, area, us)
      invariant ai <= j && Filled(hit, ai, packs[j])
    {
      var charge := StripCharge(a, j, nstrips, steps, nx, ny, area, us);
      ai := PackNext(hit, iL, j, charge, c, pulses, us, ai, packs);
    }
  }

  method StripCharge(a: array<real>, j: nat, nstrips: nat, steps: nat, nx: nat, ny: nat, area: real, ghost us: seq<real>)
    returns (charge: real)
    requires Above(a, nstrips, steps, nx, ny, area, us) && j < nstrips
    ensures charge == us[j]
  {
    assert OnStrip(j);
    charge := IntegrateStrip(a, j, steps, nstrips, nx, ny, area);
  }

  /** Digitizes strip `j` and stores it if it shows a signal. */
  method PackNext(hit: GEMHit.GEMHit, iL: int, j: nat, charge: real, c: Converter, pulses: seq<seq<real>>, ghost us: seq<real>, ai: nat,
                  ghost packs: seq<seq<Signal>>)
    returns (next: nat)
    requires c.Valid() && |us| == |pulses| && Prefixes(c, pulses, us, iL, packs)
    requires j < |pulses| && charge == us[j] && |pulses[j]| == hit.fNsample
    requires hit.Valid() && ai < hit.capacity && Filled(hit, ai, packs[j])
    modifies hit.fADC, hit.fIdx, hit.fCharge, hit`fTotalADC
    ensures hit.Valid() && next <= ai + 1 && Filled(hit, next, packs[j + 1])
  {
    PacksNext(c, pulses, us, iL, packs, j);
    next := PackStrip(hit, iL + j, charge, Samples(c, pulses[j]), ai, packs[j], packs[j + 1]);
  }

  /** Stores a strip if it shows a signal. */
  method PackStrip(hit: GEMHit.GEMHit, idx: int, charge: real, fDADC: seq<int>, ai: nat,
                   ghost packed: seq<Signal>, ghost grown: seq<Signal>)
    returns (next: nat)
    requires hit.Valid() && ai < hit.capacity && |fDADC| == hit.fNsample && Filled(hit, ai, packed)
    requires grown == if StripPlane.Total(fDADC) > 0 then packed + [Signal(idx, charge, fDADC)] else packed
    modifies hit.fADC, hit.fIdx, hit.fCharge, hit`fTotalADC
    ensures hit.Valid() && next <= ai + 1 && Filled(hit, next, grown)
  {
    var posflag := StripPlane.Total(fDADC);
    next := ai;
    if posflag > 0 {
      Store(hit, idx, charge, fDADC, ai, packed);
      next := ai + 1;
    }
  }

  lemma PacksNext(c: Converter, pulses: seq<seq<real>>, us: seq<real>, iL: int, packs: seq<seq<Signal>>, j: nat)
    requires c.Valid() && |us| == |pulses| && Prefixes(c, pulses, us, iL, packs) && j < |pulses|
    ensures var adc := Samples(c, pulses[j]);
            packs[j + 1] == if StripPlane.Total(adc) > 0 then packs[j] + [Signal(iL + j, us[j], adc)] else packs[j]
  {
    assert OnStrip(j) && OnStrip(j + 1);
  }

  /** The first `n` entries of the hit are `signals`, and its running total is theirs. */
  ghost predicate Filled(hit: GEMHit.GEMHit, n: nat, signals: seq<Signal>)
    requires hit.Valid()
    reads hit.Footprint()
  {
    n <= hit.capacity && hit.Entries(n) == signals && hit.fTotalADC == TotalOf(signals)
  }

  lemma {:induction false} Capacity(n: nat, steps: nat)
    requires steps > 0
    ensures Cells(n, steps) >= n
  {
    if n > 0 {
      Capacity(n - 1, steps);
    }
  }

  /** Writes the next entry of a hit: its samples, one by one, then strip number and charge. */
  method Store(hit: GEMHit.GEMHit, idx: int, charge: real, samples: seq<int>, n: nat, ghost signals: seq<Signal>)
    requires hit.Valid() && n < hit.capacity && |samples| == hit.fNsample && Filled(hit, n, signals)
    modifies hit.fADC, hit.fIdx, hit.fCharge, hit`fTotalADC
    ensures hit.Valid() && Filled(hit, n + 1, signals + [Signal(idx, charge, samples)])
  {
    StoreEntry(hit, idx, charge, samples, n);
    EntriesGrow(hit, n, signals, Signal(idx, charge, samples));
    TotalGrows(signals, Signal(idx, charge, samples));
  }

  lemma EntriesGrow(hit: GEMHit.GEMHit, n: nat, signals: seq<Signal>, g: Signal)
    requires hit.Valid() && n < hit.capacity && |signals| == n && hit.Entry(n) == g
    requires forall m: nat :: m < n ==> hit.Entry(m) == signals[m]
    ensures hit.Entries(n + 1) == signals + [g]
  {
  }

  lemma TotalGrows(signals: seq<Signal>, g: Signal)
    ensures TotalOf(signals + [g]) == TotalOf(signals) + StripPlane.Total(g.adc)
  {
    assert (signals + [g])[..|signals|] == signals;
  }

  /** Entry `n` becomes the given signal, the others stay. */
  method StoreEntry(hit: GEMHit.GEMHit, idx: int, charge: real, samples: seq<int>, n: nat)
    requires hit.Valid() && n < hit.capacity && |samples| == hit.fNsample
    modifies hit.fADC, hit.fIdx, hit.fCharge, hit`fTotalADC
    ensures hit.Valid() && hit.fTotalADC == old(hit.fTotalADC) + StripPlane.Total(samples)
    ensures hit.Entry(n) == Signal(idx, charge, samples)
    ensures forall m: nat :: m < n ==> hit.Entry(m) == old(hit.Entry(m))
  {
    StoreSamples(hit, samples, n);
    hit.AddStripAt(idx, n);
    hit.AddChargeAt(charge, n);
  }

  method StoreSamples(hit: GEMHit.GEMHit, samples: seq<int>, n: nat)
    requires hit.Valid() && n < hit.capacity && |samples| == hit.fNsample
    modifies hit.fADC, hit`fTotalADC
    ensures hit.Valid() && hit.Samples(n) == samples && hit.fTotalADC == old(hit.fTotalADC) + StripPlane.Total(samples)
    ensures forall m: nat :: m < hit.capacity && m != n ==> hit.Samples(m) == old(hit.Samples(m))
  {
    for b := 0 to hit.fNsample
      invariant hit.Valid()
      invariant hit.fTotalADC == old(hit.fTotalADC) + SumTo(samples, b)
      invariant forall m: nat :: m < hit.capacity && m != n ==> hit.Samples(m) == old(hit.Samples(m))
      invariant hit.Samples(n)[..b] == samples[..b]
    {
      ghost var was := hit.Samples(n);
      hit.AddSampleAt(samples[b], b, n);
      assert hit.Samples(n) == was[b := samples[b]];
      assert hit.Samples(n)[..b + 1] == was[..b] + [samples[b]] == samples[..b + 1];
    }
    assert hit.Samples(n) == hit.Samples(n)[..hit.fNsample] == samples;
  }
}
