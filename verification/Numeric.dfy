/** The few pieces of C++ arithmetic the library leans on: the integer cast, `round`,
    and a division that does not trap. `double` is modelled by exact reals. */
module Numeric {

  /** The cast `(Int_t) v`, which drops the fraction: toward zero, not down. */
  function Trunc(v: real): (n: int)
    ensures v >= 0.0 ==> 0 <= n && n as real <= v < n as real + 1.0
    ensures v <= 0.0 ==> n <= 0 && n as real - 1.0 < v <= n as real
  {
    if v >= 0.0 then v.Floor else -((-v).Floor)
  }

  /** C's `round`: to the nearest integer, halves away from zero. */
  function Round(v: real): (n: int)
    ensures v - 0.5 <= n as real <= v + 0.5
    ensures v >= 0.0 ==> v - 0.5 < n as real
    ensures v <= 0.0 ==> n as real < v + 0.5
  {
    if v >= 0.0 then (v + 0.5).Floor else -((-v + 0.5).Floor)
  }

  /** `TMath::Ceil` on a value, as an integer. */
  function Ceil(v: real): (n: int)
    ensures n as real - 1.0 < v <= n as real
  {
    -((-v).Floor)
  }

  /** A `double` that may be NaN: what 0/0 leaves behind. */
  datatype Double = Finite(value: real) | NotANumber

  /** A quotient whose numerator is 0 whenever its denominator is 0. */
  function Quotient(a: real, b: real): (q: Double)
    ensures q.Finite? <==> b != 0.0
    ensures q.Finite? ==> q.value * b == a
  {
    if b == 0.0 then NotANumber else Finite(a / b)
  }
}
