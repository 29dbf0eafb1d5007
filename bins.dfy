/** Bin edges (np.linspace over the feature's range or the caller's bounds)
    and bin centres, as used by all three entry points of
    pynapple/process/tuning_curves.py. */
module Bins {
  import opened Types

  /** The test np.histogram applies to bins given as an array: no adjacent
      pair decreases. */
  predicate NonDecreasing(e: seq<real>)
  {
    forall i :: 0 <= i < |e| - 1 ==> e[i] <= e[i + 1]
  }

  predicate Increasing(e: seq<real>)
  {
    forall i :: 0 <= i < |e| - 1 ==> e[i] < e[i + 1]
  }

  /** Edges e[0..|e|) delimit |e| - 1 bins; fewer than two edges give none. */
  function NumBins(e: seq<real>): nat
  {
    if |e| == 0 then 0 else |e| - 1
  }

  /** The adjacent test implies order between any two edges. */
  lemma {:induction false} NonDecreasingPairwise(e: seq<real>, i: nat, j: nat)
    requires NonDecreasing(e) && i <= j < |e|
    ensures e[i] <= e[j]
    decreases j - i
  {
    if i < j {
      NonDecreasingPairwise(e, i + 1, j);
    }
  }

  lemma {:induction false} IncreasingPairwise(e: seq<real>, i: nat, j: nat)
    requires Increasing(e) && i < j < |e|
    ensures e[i] < e[j]
    decreases j - i
  {
    if i + 1 < j {
      IncreasingPairwise(e, i + 1, j);
    }
  }

  /** np.min of a non-empty feature. */
  function Min(s: seq<real>): (m: real)
    requires |s| > 0
    ensures m in s
    ensures forall x :: x in s ==> m <= x
  {
    if |s| == 1 then s[0]
    else
      var t := Min(s[1..]);
      assert forall x :: x in s ==> x == s[0] || x in s[1..];
      if s[0] <= t then s[0] else t
  }

  /** np.max of a non-empty feature. */
  function Max(s: seq<real>): (m: real)
    requires |s| > 0
    ensures m in s
    ensures forall x :: x in s ==> x <= m
  {
    if |s| == 1 then s[0]
    else
      var t := Max(s[1..]);
      assert forall x :: x in s ==> x == s[0] || x in s[1..];
      if s[0] >= t then s[0] else t
  }

  /** Spacing of np.linspace(lo, hi, num) with the end point included; with a
      single sample the spacing does not matter. */
  function Step(lo: real, hi: real, num: nat): real
  {
    if num > 1 then (hi - lo) / ((num - 1) as real) else 0.0
  }

  /** np.linspace(lo, hi, num): num evenly spaced samples from lo to hi. */
  function Linspace(lo: real, hi: real, num: nat): (e: seq<real>)
    ensures |e| == num
  {
    seq(num, i requires 0 <= i < num => lo + (i as real) * Step(lo, hi, num))
  }

  /** The edges begin at lo and, when there are at least two, end exactly at hi. */
  lemma LinspaceSpans(lo: real, hi: real, num: nat)
    requires num >= 1
    ensures Linspace(lo, hi, num)[0] == lo
    ensures num >= 2 ==> Linspace(lo, hi, num)[num - 1] == hi
  {
    if num >= 2 {
      var n := (num - 1) as real;
      assert Step(lo, hi, num) == (hi - lo) / n;
      assert n * ((hi - lo) / n) == hi - lo;
      assert Linspace(lo, hi, num)[num - 1] == lo + n * Step(lo, hi, num);
    }
  }

  /** Consecutive edges differ by the step. */
  lemma LinspaceGap(lo: real, hi: real, num: nat, i: nat)
    requires i + 1 < num
    ensures Linspace(lo, hi, num)[i + 1] - Linspace(lo, hi, num)[i] == Step(lo, hi, num)
  {
    var s := Step(lo, hi, num);
    assert (i + 1) as real * s == (i as real) * s + s;
  }

  /** The step has the sign of hi - lo. */
  lemma StepSign(lo: real, hi: real, num: nat)
    requires num >= 2
    ensures lo < hi ==> Step(lo, hi, num) > 0.0
    ensures lo == hi ==> Step(lo, hi, num) == 0.0
    ensures lo > hi ==> Step(lo, hi, num) < 0.0
  {
    var n := (num - 1) as real;
    assert Step(lo, hi, num) * n == hi - lo;
  }

  /** On a proper range the edges increase strictly; np.histogram accepts the
      edges exactly when there are fewer than two or lo <= hi. */
  lemma LinspaceOrder(lo: real, hi: real, num: nat)
    ensures lo < hi ==> Increasing(Linspace(lo, hi, num))
    ensures NonDecreasing(Linspace(lo, hi, num)) <==> num < 2 || lo <= hi
  {
    var e := Linspace(lo, hi, num);
    if num >= 2 {
      StepSign(lo, hi, num);
      forall i | 0 <= i < num - 1
        ensures e[i + 1] - e[i] == Step(lo, hi, num)
      {
        LinspaceGap(lo, hi, num, i);
      }
      if lo > hi {
        assert e[1] - e[0] < 0.0;
      }
    }
  }

  /** Bin centres `bins[0:-1] + np.diff(bins)/2`: midpoints of adjacent edges. */
  function Centres(e: seq<real>): (c: seq<real>)
    ensures |c| == NumBins(e)
  {
    seq(NumBins(e), i requires 0 <= i < NumBins(e) => e[i] + (e[i + 1] - e[i]) / 2.0)
  }

  /** Each centre lies strictly inside its bin, and the centres increase. */
  lemma CentresInsideBins(e: seq<real>)
    requires Increasing(e)
    ensures forall i :: 0 <= i < NumBins(e) ==> e[i] < Centres(e)[i] < e[i + 1]
    ensures Increasing(Centres(e))
  {
    var c := Centres(e);
    forall i | 0 <= i < NumBins(e) - 1
      ensures c[i] < c[i + 1]
    {
      assert c[i] < e[i + 1] < c[i + 1];
    }
  }

  /** The (lo, hi) pair for one channel: the feature's own min and max when no
      bounds are given, else minmax[at] and minmax[at + 1]. */
  function Bounds(values: seq<real>, minmax: Option<seq<real>>, at: nat): (r: Result<(real, real)>)
    ensures minmax.None? ==> (r.Ok? <==> |values| > 0)
    ensures minmax.None? && r.Ok? ==>
      r.value.0 in values && r.value.1 in values &&
      forall x :: x in values ==> r.value.0 <= x <= r.value.1
    ensures minmax.Some? ==> (r.Ok? <==> at + 1 < |minmax.value|)
    ensures minmax.Some? && r.Ok? ==> r.value == (minmax.value[at], minmax.value[at + 1])
  {
    match minmax
    case None =>
      if |values| == 0 then Err(EmptyFeature) else Ok((Min(values), Max(values)))
    case Some(m) =>
      if at + 1 < |m| then Ok((m[at], m[at + 1])) else Err(BoundsTooShort)
  }

  /** The edges `np.linspace(lo, hi, nb_bins)` with (lo, hi) chosen by Bounds. */
  function Edges(values: seq<real>, minmax: Option<seq<real>>, at: nat, nbBins: int): (r: Result<seq<real>>)
    ensures r.Ok? <==> Bounds(values, minmax, at).Ok? && nbBins >= 0
    ensures Bounds(values, minmax, at).Err? ==> r == Err(Bounds(values, minmax, at).error)
    ensures r.Ok? ==> |r.value| == nbBins
  {
    var b :- Bounds(values, minmax, at);
    if nbBins < 0 then Err(NegativeBinCount) else Ok(Linspace(b.0, b.1, nbBins))
  }

  /** The edge sequence of a successful Edges call: nb_bins edges from lo to
      hi, strictly increasing when lo < hi, with a centre strictly inside each bin. */
  lemma EdgesShape(values: seq<real>, minmax: Option<seq<real>>, at: nat, nbBins: int)
    requires Edges(values, minmax, at, nbBins).Ok?
    ensures var e := Edges(values, minmax, at, nbBins).value;
      var (lo, hi) := Bounds(values, minmax, at).value;
      && |e| == nbBins
      && (nbBins >= 1 ==> e[0] == lo)
      && (nbBins >= 2 ==> e[nbBins - 1] == hi)
      && (lo < hi ==> Increasing(e) && forall i :: 0 <= i < nbBins - 1 ==> e[i] < Centres(e)[i] < e[i + 1])
      && (NonDecreasing(e) <==> nbBins < 2 || lo <= hi)
      && |Centres(e)| == if nbBins == 0 then 0 else nbBins - 1
  {
    var (lo, hi) := Bounds(values, minmax, at).value;
    var e := Edges(values, minmax, at, nbBins).value;
    assert e == Linspace(lo, hi, nbBins);
    if nbBins >= 1 {
      LinspaceSpans(lo, hi, nbBins);
    }
    LinspaceOrder(lo, hi, nbBins);
    if lo < hi {
      CentresInsideBins(e);
    }
  }

  /** Giving as bounds exactly the feature's own min and max reproduces the
      inferred edges. */
  lemma ExplicitBoundsMatchInferred(values: seq<real>, nbBins: int)
    requires |values| > 0
    ensures Edges(values, Some([Min(values), Max(values)]), 0, nbBins) == Edges(values, None, 0, nbBins)
  {
  }
}
