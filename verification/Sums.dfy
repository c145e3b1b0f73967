/** Sums of real weights over sequences, and what reordering does to them: nothing. */
module Sums {
  import opened RealAlgebra

  /** `s` without element `i`: `vector::erase`. */
  function Drop<T>(s: seq<T>, i: nat): (r: seq<T>)
    requires i < |s|
    ensures |r| == |s| - 1
    ensures forall k :: 0 <= k < |r| ==> r[k] == if k < i then s[k] else s[k + 1]
  {
    s[..i] + s[i + 1..]
  }

  lemma DropMultiset<T>(s: seq<T>, i: nat)
    requires i < |s|
    ensures multiset(s) == multiset(Drop(s, i)) + multiset{s[i]}
  {
    assert s == s[..i] + [s[i]] + s[i + 1..];
    assert multiset(s) == multiset(s[..i]) + multiset{s[i]} + multiset(s[i + 1..]);
  }

  function Sum<T>(s: seq<T>, w: T -> real): real
  {
    if s == [] then 0.0 else Sum(s[..|s| - 1], w) + w(s[|s| - 1])
  }

  lemma SumSnoc<T>(s: seq<T>, x: T, w: T -> real)
    ensures Sum(s + [x], w) == Sum(s, w) + w(x)
  {
    assert (s + [x])[..|s|] == s;
  }

  lemma {:induction false} SumConcat<T>(s: seq<T>, t: seq<T>, w: T -> real)
    ensures Sum(s + t, w) == Sum(s, w) + Sum(t, w)
  {
    if t == [] {
      assert s + t == s;
    } else {
      var n := |t| - 1;
      assert (s + t)[..|s| + n] == s + t[..n];
      SumConcat(s, t[..n], w);
    }
  }

  lemma {:induction false} SumDrop<T>(s: seq<T>, k: nat, w: T -> real)
    requires k < |s|
    ensures Sum(s, w) == Sum(Drop(s, k), w) + w(s[k])
  {
    var n := |s| - 1;
    if k == n {
      assert Drop(s, k) == s[..n];
    } else {
      SumDrop(s[..n], k, w);
      assert Drop(s, k)[..n - 1] == Drop(s[..n], k);
    }
  }

  lemma LastMultiset<T>(s: seq<T>)
    requires s != []
    ensures multiset(s) == multiset(s[..|s| - 1]) + multiset{s[|s| - 1]}
  {
    assert s == s[..|s| - 1] + [s[|s| - 1]];
  }

  lemma MultisetCancel<T>(a: multiset<T>, b: multiset<T>, x: T)
    requires a + multiset{x} <= b + multiset{x}
    ensures a <= b
    ensures a + multiset{x} == b + multiset{x} ==> a == b
  {
    assert a == a + multiset{x} - multiset{x};
    assert b == b + multiset{x} - multiset{x};
  }

  /** Where the last element of `s` sits in `t`, and that taking it from both keeps the inclusion. */
  lemma RemoveBoth<T>(s: seq<T>, t: seq<T>) returns (k: nat)
    requires |s| > 0 && multiset(s) <= multiset(t)
    ensures k < |t| && t[k] == s[|s| - 1]
    ensures multiset(s[..|s| - 1]) <= multiset(Drop(t, k))
    ensures multiset(s) == multiset(t) ==> multiset(s[..|s| - 1]) == multiset(Drop(t, k))
  {
    var b := s[|s| - 1];
    assert b in multiset(s);
    k :| 0 <= k < |t| && t[k] == b;
    LastMultiset(s);
    DropMultiset(t, k);
    MultisetCancel(multiset(s[..|s| - 1]), multiset(Drop(t, k)), b);
  }

  /** Non-negative weights: a sub-multiset weighs no more. */
  lemma {:induction false} SumMonotone<T>(s: seq<T>, t: seq<T>, w: T -> real)
    requires multiset(s) <= multiset(t)
    requires forall i :: 0 <= i < |t| ==> w(t[i]) >= 0.0
    ensures 0.0 <= Sum(s, w) <= Sum(t, w)
    decreases |s|, |t|
  {
    if s != [] {
      var k := RemoveBoth(s, t);
      SumMonotone(s[..|s| - 1], Drop(t, k), w);
      SumDrop(t, k, w);
    } else if t != [] {
      SumMonotone(s, t[..|t| - 1], w);
    }
  }

  /** A sum does not depend on the order of its terms. */
  lemma {:induction false} SumOrderFree<T>(s: seq<T>, t: seq<T>, w: T -> real)
    requires multiset(s) == multiset(t)
    ensures Sum(s, w) == Sum(t, w)
  {
    if s == [] {
      assert |multiset(t)| == 0;
    } else {
      var k := RemoveBoth(s, t);
      SumOrderFree(s[..|s| - 1], Drop(t, k), w);
      SumDrop(t, k, w);
    }
  }

  /** Pointwise order adds up. */
  lemma {:induction false} SumOrder<T>(s: seq<T>, u: T -> real, v: T -> real)
    requires forall i :: 0 <= i < |s| ==> u(s[i]) <= v(s[i])
    ensures Sum(s, u) <= Sum(s, v)
  {
    if s != [] {
      SumOrder(s[..|s| - 1], u, v);
    }
  }

  function Scaled<T>(w: T -> real, c: real): T -> real
  {
    x => Product(c, w(x))
  }

  lemma {:induction false} SumScale<T>(s: seq<T>, w: T -> real, c: real)
    ensures Sum(s, Scaled(w, c)) == c * Sum(s, w)
  {
    if s != [] {
      var n := |s| - 1;
      SumScale(s[..n], w, c);
      Distribute(c, Sum(s, w), Sum(s[..n], w), w(s[n]));
    }
  }

  /** A weighted mean lies between bounds that hold term by term. */
  lemma MeanInRange<T>(s: seq<T>, moment: T -> real, weight: T -> real, lo: real, hi: real)
    requires Sum(s, weight) > 0.0
    requires forall i :: 0 <= i < |s| ==> Scaled(weight, lo)(s[i]) <= moment(s[i]) <= Scaled(weight, hi)(s[i])
    ensures lo <= Sum(s, moment) / Sum(s, weight) <= hi
  {
    SumOrder(s, Scaled(weight, lo), moment);
    SumOrder(s, moment, Scaled(weight, hi));
    SumScale(s, weight, lo);
    SumScale(s, weight, hi);
    QuotientWithin(Sum(s, moment), Sum(s, weight), lo, hi, Sum(s, Scaled(weight, lo)), Sum(s, Scaled(weight, hi)));
  }

  lemma QuotientWithin(m: real, e: real, lo: real, hi: real, loE: real, hiE: real)
    requires e > 0.0 && loE == lo * e && hiE == hi * e && loE <= m <= hiE
    ensures lo <= m / e <= hi
  {
    QuotientBetween(m, e, lo, hi);
  }

  lemma MultisetConcat<T>(s: seq<T>, t: seq<T>)
    ensures multiset(s + t) == multiset(s) + multiset(t)
  {
  }

  lemma {:induction false} SumPositive<T>(s: seq<T>, w: T -> real)
    requires s != [] && forall i :: 0 <= i < |s| ==> w(s[i]) > 0.0
    ensures Sum(s, w) > 0.0
  {
    if |s| > 1 {
      SumPositive(s[..|s| - 1], w);
    }
  }
}
