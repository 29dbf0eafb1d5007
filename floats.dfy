/** The part of IEEE double arithmetic that the tuning-curve code relies on:
    exact real values plus the non-finite results of dividing by zero and of
    taking logarithms. Rounding is not modelled; real arithmetic is exact. */
module Floats {

  datatype Value = Finite(v: real) | NaN | Inf(positive: bool)

  /** x / y on finite operands: 0/0 is NaN, a non-zero x over 0 is an infinity
      with the sign of x. */
  function Div(x: real, y: real): (r: Value)
    ensures r.Finite? <==> y != 0.0
    ensures r.NaN? <==> y == 0.0 && x == 0.0
    ensures r.Finite? ==> r.v == x / y
    ensures r.Inf? ==> r.positive == (x > 0.0)
  {
    if y != 0.0 then Finite(x / y) else if x == 0.0 then NaN else Inf(x > 0.0)
  }

  /** a * k for a finite k: infinity times zero is NaN. */
  function Scale(a: Value, k: real): (r: Value)
    ensures r.Finite? <==> a.Finite?
    ensures r.NaN? <==> a.NaN? || (a.Inf? && k == 0.0)
    ensures a.Finite? ==> r == Finite(a.v * k)
    ensures a.Inf? && k != 0.0 ==> r == Inf(a.positive == (k > 0.0))
  {
    match a
    case Finite(x) => Finite(x * k)
    case NaN => NaN
    case Inf(p) => if k == 0.0 then NaN else Inf(p == (k > 0.0))
  }

  /** a / y for a finite y. */
  function DivBy(a: Value, y: real): (r: Value)
    ensures r.Finite? <==> a.Finite? && y != 0.0
    ensures a.NaN? || (a == Finite(0.0) && y == 0.0) ==> r.NaN?
    ensures a.Finite? ==> r == Div(a.v, y)
  {
    match a
    case Finite(x) => Div(x, y)
    case NaN => NaN
    case Inf(p) => if y == 0.0 then Inf(p) else Inf(p == (y > 0.0))
  }

  /** a + b: NaN absorbs, opposite infinities give NaN. */
  function Add(a: Value, b: Value): (r: Value)
    ensures r.NaN? <==> a.NaN? || b.NaN? || (a.Inf? && b.Inf? && a.positive != b.positive)
    ensures r.Finite? <==> a.Finite? && b.Finite?
    ensures a.Finite? && b.Finite? ==> r == Finite(a.v + b.v)
  {
    match (a, b)
    case (NaN, _) => NaN
    case (_, NaN) => NaN
    case (Inf(p), Inf(q)) => if p == q then Inf(p) else NaN
    case (Inf(p), _) => Inf(p)
    case (_, Inf(q)) => Inf(q)
    case (Finite(x), Finite(y)) => Finite(x + y)
  }

  /** np.log2 of a value, given the real logarithm on positive reals: log2(0) is
      minus infinity, a negative argument or minus infinity gives NaN. */
  function Log2(a: Value, log2: real -> real): (r: Value)
    ensures r.Finite? <==> a.Finite? && a.v > 0.0
    ensures r.Finite? ==> r.v == log2(a.v)
    ensures a == Finite(0.0) ==> r == Inf(false)
    ensures a == Inf(true) ==> r == Inf(true)
    ensures a.NaN? || (a.Finite? && a.v < 0.0) || a == Inf(false) ==> r.NaN?
  {
    match a
    case Finite(x) => if x > 0.0 then Finite(log2(x)) else if x == 0.0 then Inf(false) else NaN
    case NaN => NaN
    case Inf(p) => if p then Inf(true) else NaN
  }

  /** The effect of `a[np.isnan(a)] = 0.0` on one element. */
  function NanToZero(a: Value): (r: Value)
    ensures !r.NaN?
    ensures a.NaN? ==> r == Finite(0.0)
    ensures !a.NaN? ==> r == a
  {
    if a.NaN? then Finite(0.0) else a
  }

  /** The effect of `a[np.isinf(a)] = 0.0` on one element. */
  function InfToZero(a: Value): (r: Value)
    ensures !r.Inf?
    ensures a.Inf? ==> r == Finite(0.0)
    ensures !a.Inf? ==> r == a
  {
    if a.Inf? then Finite(0.0) else a
  }

  /** Multiplying by a positive constant commutes with addition, on every kind of value. */
  lemma ScaleAdd(a: Value, b: Value, k: real)
    requires k > 0.0
    ensures Scale(Add(a, b), k) == Add(Scale(a, k), Scale(b, k))
  {
    match (a, b)
    case (Finite(x), Finite(y)) =>
      assert (x + y) * k == x * k + y * k;
    case _ =>
  }

  /** Scaling numerator and denominator by the same positive constant leaves a quotient unchanged. */
  lemma DivByScaled(a: Value, y: real, k: real)
    requires k > 0.0
    ensures DivBy(Scale(a, k), k * y) == DivBy(a, y)
  {
    match a
    case Finite(x) =>
      if y != 0.0 {
        assert (x * k) / (k * y) == x / y;
      }
    case _ =>
  }
}
