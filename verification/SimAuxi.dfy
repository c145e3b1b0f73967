/** The analog-to-digital conversion of a strip's pulse. */
module SimAuxi {
  import opened RealAlgebra

  const MAX_ADCBITS := 15

  function Pow2(n: nat): (p: nat)
    ensures p >= 1
  {
    if n == 0 then 1 else 2 * Pow2(n - 1)
  }

  /** The cast to a 16-bit signed integer, wrapping as two's complement does. For a value out of
      range C++ leaves the cast from `double` undefined; wrapping around is this model's choice. */
  function ToShort(n: int): (s: int)
    ensures -32768 <= s < 32768 && (s - n) % 65536 == 0
    ensures -32768 <= n < 32768 ==> s == n
  {
    (n + 32768) % 65536 - 32768
  }

  function Saturation(bits: nat): nat { Pow2(bits) - 1 }

  /** The value before the cast: scaled, and no more than the largest reading. */
  function Scaled(val: real, off: real, gain: real, bits: nat): real
    requires gain != 0.0
  {
    var v := if val < 0.0 then 0.0 else val;
    var vvv := (v - off) / gain;
    if vvv > Saturation(bits) as real then Saturation(bits) as real else vvv
  }

  function ADCConvert(val: real, off: real, gain: real, bits: nat): (dval: int)
    requires gain != 0.0 && bits <= MAX_ADCBITS
    ensures 0 <= dval < 32768
  {
    var dval := ToShort(Scaled(val, off, gain, bits).Floor);
    if dval < 0 then 0 else dval
  }

  /** What the conversion is for: round down, then clamp to what `bits` bits can hold. */
  function Reading(val: real, off: real, gain: real, bits: nat): (r: int)
    requires gain != 0.0
    ensures 0 <= r <= Saturation(bits)
  {
    var n := Scaled(val, off, gain, bits).Floor;
    if n < 0 then 0 else n
  }

  lemma {:induction false} Pow2Below(n: nat)
    requires n <= 15
    ensures Pow2(n) <= 32768
  {
    Pow2Monotone(n, 15);
    assert Pow2(15) == 32768 by {
      assert Pow2(5) == 32;
      assert Pow2(10) == 32 * Pow2(5);
      assert Pow2(15) == 32 * Pow2(10);
    }
  }

  lemma {:induction false} Pow2Monotone(a: nat, b: nat)
    requires a <= b
    ensures Pow2(a) <= Pow2(b)
  {
    if a < b {
      Pow2Monotone(a, b - 1);
    }
  }

  /** The conversion gives the reading whenever the scaled value fits the cast. */
  lemma ConvertsWhenItFits(val: real, off: real, gain: real, bits: nat)
    requires gain != 0.0 && bits <= MAX_ADCBITS
    requires Scaled(val, off, gain, bits) >= -32768.0
    ensures ADCConvert(val, off, gain, bits) == Reading(val, off, gain, bits)
  {
    Pow2Below(bits);
  }

  /** For a positive gain the conversion is right on every pulse exactly when the offset is at
      most 32768 gains: beyond that a small pulse is out of the cast's range, which in C++ is
      undefined, and where the cast wraps around it comes out as a large reading. */
  lemma ConversionRightIff(off: real, gain: real, bits: nat)
    requires gain > 0.0 && bits <= MAX_ADCBITS
    ensures off <= 32768.0 * gain <==>
            forall val :: ADCConvert(val, off, gain, bits) == Reading(val, off, gain, bits)
  {
    if off <= 32768.0 * gain {
      forall val
        ensures ADCConvert(val, off, gain, bits) == Reading(val, off, gain, bits)
      {
        var v := if val < 0.0 then 0.0 else val;
        QuotientAtLeast(v - off, gain, -32768.0);
        ConvertsWhenItFits(val, off, gain, bits);
      }
    } else {
      var val := if off - 32769.0 * gain > 0.0 then off - 32769.0 * gain else 0.0;
      WrapsAround(val, off, gain, bits);
    }
  }

  lemma QuotientAtLeast(a: real, gain: real, lo: real)
    requires gain > 0.0
    ensures a >= lo * gain <==> a / gain >= lo
  {
    var d := a / gain - lo;
    assert a / gain * gain == a;
    assert d * gain == a - lo * gain;
    SameSign(d, gain);
  }

  lemma WrapsAround(val: real, off: real, gain: real, bits: nat)
    requires gain > 0.0 && bits <= MAX_ADCBITS && off > 32768.0 * gain
    requires val == if off - 32769.0 * gain > 0.0 then off - 32769.0 * gain else 0.0
    ensures ADCConvert(val, off, gain, bits) == 32767 && Reading(val, off, gain, bits) == 0
  {
    QuotientAtLeast(val - off, gain, -32769.0);
    QuotientAtLeast(val - off, gain, -32768.0);
    var q := (val - off) / gain;
    assert -32769.0 <= q < -32768.0;
    assert Scaled(val, off, gain, bits) == q;
    assert q.Floor == -32769;
  }

  /** `r` counts the gains in `above`: none below 0, and no more than `top`. */
  predicate Reads(r: int, above: real, gain: real, top: int)
  {
    if above < 0.0 then r == 0
    else if above >= top as real * gain then r == top
    else r as real * gain <= above < (r + 1) as real * gain
  }

  lemma InGains(q: real, above: real, gain: real, top: int)
    requires gain > 0.0 && q * gain == above && top >= 0
    ensures Reads(if q > top as real then top else if q < 0.0 then 0 else q.Floor, above, gain, top)
  {
    ScaleOrder(gain, 0.0, q);
    ScaleOrder(gain, top as real, q);
    ScaleOrder(gain, q, top as real);
    ScaleOrder(gain, q.Floor as real, q);
    ScaleOrder(gain, q, (q.Floor + 1) as real);
  }

  lemma ReadingIs(val: real, off: real, gain: real, bits: nat, q: real)
    requires gain != 0.0 && q == ((if val < 0.0 then 0.0 else val) - off) / gain
    ensures Reading(val, off, gain, bits) ==
            if q > (Pow2(bits) - 1) as real then Pow2(bits) - 1 else if q < 0.0 then 0 else q.Floor
  {
  }

  lemma InGainsOf(above: real, gain: real, top: int, q: real, r: int)
    requires gain > 0.0 && q == above / gain && top >= 0
    requires r == if q > top as real then top else if q < 0.0 then 0 else q.Floor
    ensures Reads(r, above, gain, top)
  {
    InGains(q, above, gain, top);
  }

  lemma RightOn(val: real, off: real, gain: real, bits: nat)
    requires gain > 0.0 && off <= 32768.0 * gain && bits <= MAX_ADCBITS
    ensures ADCConvert(val, off, gain, bits) == Reading(val, off, gain, bits)
  {
    ConversionRightIff(off, gain, bits);
  }

  /** What a pulse reads, for a positive gain and an offset of at most 32768 gains: how many
      gains it is above the offset, negative pulses counting as 0, up to the largest number of
      `bits` bits. */
  lemma {:induction false} ReadsIn(val: real, off: real, gain: real, bits: nat, above: real)
    requires gain > 0.0 && off <= 32768.0 * gain && bits <= 15 && above == (if val < 0.0 then 0.0 else val) - off
    ensures Reads(ADCConvert(val, off, gain, bits), above, gain, Pow2(bits) - 1)
  {
    RightOn(val, off, gain, bits);
    ReadingIs(val, off, gain, bits, above / gain);
    InGainsOf(above, gain, Pow2(bits) - 1, above / gain, ADCConvert(val, off, gain, bits));
  }
}
