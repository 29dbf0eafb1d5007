/** Finite sums of sequences, folded from the back so that a prefix and its last
    element split the sum. */
module Sums {

  function SumNat(s: seq<nat>): nat
  {
    if s == [] then 0 else SumNat(s[..|s| - 1]) + s[|s| - 1]
  }

  function SumReal(s: seq<real>): real
  {
    if s == [] then 0.0 else SumReal(s[..|s| - 1]) + s[|s| - 1]
  }

  /** Every term of s multiplied by m. */
  function ScaledBy(s: seq<real>, m: real): (r: seq<real>)
    ensures |r| == |s|
    ensures forall i :: 0 <= i < |s| ==> r[i] == m * s[i]
  {
    seq(|s|, i requires 0 <= i < |s| => m * s[i])
  }

  /** Summing termwise-smaller terms gives a smaller sum. */
  lemma {:induction false} SumRealMonotone(a: seq<real>, b: seq<real>)
    requires |a| == |b| && forall i :: 0 <= i < |a| ==> a[i] <= b[i]
    ensures SumReal(a) <= SumReal(b)
  {
    if a != [] {
      var n := |a| - 1;
      assert forall i :: 0 <= i < n ==> a[..n][i] == a[i] && b[..n][i] == b[i];
      SumRealMonotone(a[..n], b[..n]);
    }
  }

  /** Terms lying between lo and hi times the matching entries of a vector
      that sums to 1 have a sum between lo and hi. */
  lemma SumBetween(q: seq<real>, p: seq<real>, lo: real, hi: real)
    requires |q| == |p| && SumReal(p) == 1.0
    requires forall i :: 0 <= i < |q| ==> ScaledBy(p, lo)[i] <= q[i] <= ScaledBy(p, hi)[i]
    ensures lo <= SumReal(q) <= hi
  {
    SumRealMonotone(ScaledBy(p, lo), q);
    SumRealMonotone(q, ScaledBy(p, hi));
    SumRealScaledBy(p, lo);
    SumRealScaledBy(p, hi);
  }

  /** A constant factor comes out of a sum. */
  lemma {:induction false} SumRealScaledBy(s: seq<real>, m: real)
    ensures SumReal(ScaledBy(s, m)) == m * SumReal(s)
  {
    if s != [] {
      var n := |s| - 1;
      assert forall j :: 0 <= j < n ==> ScaledBy(s, m)[..n][j] == ScaledBy(s[..n], m)[j];
      assert ScaledBy(s, m)[..n] == ScaledBy(s[..n], m);
      SumRealScaledBy(s[..n], m);
      assert m * (SumReal(s[..n]) + s[n]) == m * SumReal(s[..n]) + m * s[n];
    }
  }

  /** A sum of non-negative terms is non-negative and bounds each term. */
  lemma {:induction false} SumRealNonNegative(s: seq<real>)
    requires forall i :: 0 <= i < |s| ==> s[i] >= 0.0
    ensures SumReal(s) >= 0.0
    ensures forall i :: 0 <= i < |s| ==> s[i] <= SumReal(s)
  {
    if s != [] {
      var init := s[..|s| - 1];
      SumRealNonNegative(init);
      assert forall i :: 0 <= i < |init| ==> init[i] == s[i];
    }
  }

  /** A sum of zeros is zero. */
  lemma {:induction false} SumRealZero(s: seq<real>)
    requires forall i :: 0 <= i < |s| ==> s[i] == 0.0
    ensures SumReal(s) == 0.0
  {
    if s != [] {
      var init := s[..|s| - 1];
      assert forall i :: 0 <= i < |init| ==> init[i] == s[i];
      SumRealZero(init);
    }
  }
}
