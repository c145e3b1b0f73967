/** Products and quotients of reals, one small step at a time. */
module RealAlgebra {

  function Product(a: real, b: real): real { a * b }

  lemma Assoc(a: real, b: real, c: real)
    ensures a * (b * c) == b * (a * c)
    ensures a * (b * c) == (a * b) * c
  {
  }

  lemma Dist(a: real, b: real, c: real)
    ensures a * (b + c) == a * b + a * c
    ensures a * (b - c) == a * b - a * c
    ensures (b + c) * a == b * a + c * a
    ensures (b - c) * a == b * a - c * a
    ensures (-b) * a == -(b * a)
    ensures a * (-b) == -(a * b)
  {
  }

  lemma Distribute(a: real, total: real, b: real, c: real)
    requires total == b + c
    ensures a * total == a * b + a * c
  {
  }

  /** A quotient lies between the bounds its numerator was scaled from. */
  lemma QuotientBetween(m: real, e: real, lo: real, hi: real)
    requires e > 0.0
    ensures lo * e <= m <= hi * e ==> lo <= m / e <= hi
    ensures lo * e < m < hi * e ==> lo < m / e < hi
  {
    var q := m / e;
    assert q * e == m;
    ScaleOrder(e, lo, q);
    ScaleOrder(e, q, hi);
  }

  /** Scaling by a positive factor keeps the order both ways. */
  lemma ScaleOrder(e: real, a: real, b: real)
    requires e > 0.0
    ensures a * e <= b * e <==> a <= b
    ensures a * e < b * e <==> a < b
  {
    if a < b {
      MulPositive(b - a, e);
      assert (b - a) * e == b * e - a * e;
    } else if b < a {
      MulPositive(a - b, e);
      assert (a - b) * e == a * e - b * e;
    }
  }

  lemma ProductOrder(a: real, b: real, e: real)
    requires e > 0.0 && a <= b
    ensures Product(a, e) <= Product(b, e)
  {
    ScaleOrder(e, a, b);
  }

  /** Dividing by a positive number keeps the order both ways. */
  lemma QuotientOrder(p: real, a: real, b: real)
    requires p > 0.0
    ensures a / p <= b / p <==> a <= b
    ensures -a / p == -(a / p)
    ensures a / p * p == a
  {
    ScaleOrder(p, a / p, b / p);
    Dist(p, a / p, 0.0);
    ScaleOrder(p, -a / p, -(a / p));
    ScaleOrder(p, -(a / p), -a / p);
  }

  /** Multiplying by a positive number keeps the sign. */
  lemma SameSign(d: real, p: real)
    requires p > 0.0
    ensures d > 0.0 <==> d * p > 0.0
    ensures d < 0.0 <==> d * p < 0.0
  {
    if d > 0.0 { MulPositive(d, p); }
    if d < 0.0 { MulPositive(-d, p); assert (-d) * p == -(d * p); }
  }

  lemma MulPositive(a: real, b: real)
    requires a > 0.0 && b > 0.0
    ensures a * b > 0.0
  {
  }

  function Square(a: real): (r: real)
    ensures r >= 0.0
  {
    a * a
  }
}
