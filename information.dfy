/** compute_mutual_information_1d (pynapple/process/tuning_curves.py:126-190):
    the Skaggs spatial information of each column of a tuning-curve matrix,
    in bits per second or divided by the column's mean rate to give bits per
    event. The logarithm is a parameter `log2`, consulted only on positive reals;
    every non-finite case of np.log2 is modelled explicitly. */
module Information {
  import opened Types
  import opened Floats
  import opened Bins
  import opened Histogram
  import opened Sums

  /** A tuning-curve matrix: rows are bins, every row has `width` columns. */
  predicate Rectangular(fx: seq<seq<real>>, width: nat)
  {
    forall i :: 0 <= i < |fx| ==> |fx[i]| == width
  }

  /** A grid of extended values with `width` columns in every row. */
  predicate RectangularGrid(g: seq<seq<Value>>, width: nat)
  {
    forall i :: 0 <= i < |g| ==> |g[i]| == width
  }

  /** `occupancy / occupancy.sum()` for a histogram with at least one count. */
  function Normalised(counts: seq<nat>): (p: seq<real>)
    requires SumNat(counts) > 0
    ensures |p| == |counts|
  {
    seq(|counts|, i requires 0 <= i < |counts| => counts[i] as real / SumNat(counts) as real)
  }

  /** The normalised occupancy of lines 163-173: a histogram of the restricted
      feature samples over `rows + 1` edges, divided by its total. None stands for
      the all-NaN array that 0 / 0 gives when no restricted sample is in range. */
  function NormalisedOccupancy(values: seq<real>, restricted: seq<real>, minmax: Option<seq<real>>, rows: nat)
    : (r: Result<Option<seq<real>>>)
    ensures r.Ok? <==> Edges(values, minmax, 0, rows + 1).Ok? && NonDecreasing(Edges(values, minmax, 0, rows + 1).value)
    ensures r.Ok? && r.value.Some? ==> |r.value.value| == rows
  {
    var bins :- Edges(values, minmax, 0, rows + 1);
    var counts :- NpHistogram(restricted, bins);
    if SumNat(counts) == 0 then
      if rows == 0 then Ok(Some([])) else Ok(None)
    else
      Ok(Some(Normalised(counts)))
  }

  /** `fr = np.sum(fx * occupancy, 0)`, the mean rate of column c (line 176):
      non-negative for non-negative rates and occupancy, and 0 for a silent column. */
  function MeanRate(p: seq<real>, fx: seq<seq<real>>, width: nat, c: nat): (fr: real)
    requires |p| == |fx| && Rectangular(fx, width) && c < width
    ensures (forall i :: 0 <= i < |fx| ==> p[i] >= 0.0 && fx[i][c] >= 0.0) ==> fr >= 0.0
    ensures (forall i :: 0 <= i < |fx| ==> fx[i][c] == 0.0) ==> fr == 0.0
  {
    WeightsSign(p, fx, width, c);
    SumReal(Weights(p, fx, width, c))
  }

  lemma WeightsSign(p: seq<real>, fx: seq<seq<real>>, width: nat, c: nat)
    requires |p| == |fx| && Rectangular(fx, width) && c < width
    ensures (forall i :: 0 <= i < |fx| ==> p[i] >= 0.0 && fx[i][c] >= 0.0) ==> SumReal(Weights(p, fx, width, c)) >= 0.0
    ensures (forall i :: 0 <= i < |fx| ==> fx[i][c] == 0.0) ==> SumReal(Weights(p, fx, width, c)) == 0.0
  {
    var q := Weights(p, fx, width, c);
    if forall i :: 0 <= i < |fx| ==> p[i] >= 0.0 && fx[i][c] >= 0.0 {
      forall i | 0 <= i < |q|
        ensures q[i] >= 0.0
      {
        assert q[i] == fx[i][c] * p[i];
      }
      SumRealNonNegative(q);
    }
    if forall i :: 0 <= i < |fx| ==> fx[i][c] == 0.0 {
      SumRealZero(q);
    }
  }

  /** `np.log2(fx / fr)` before the infinities are cleared (lines 177-180):
      the logarithm of the ratio where it is positive, minus infinity where the
      rate is 0 over a non-zero mean, plus infinity for a positive rate over a
      zero mean, and NaN for 0 / 0 and for negative ratios. */
  function LogRatios(p: seq<real>, fx: seq<seq<real>>, width: nat, log2: real -> real): (g: seq<seq<Value>>)
    requires |p| == |fx| && Rectangular(fx, width)
    ensures |g| == |fx| && RectangularGrid(g, width)
  {
    seq(|fx|, i requires 0 <= i < |fx| =>
      seq(width, c requires 0 <= c < width => Log2(Div(fx[i][c], MeanRate(p, fx, width, c)), log2)))
  }

  /** What each cell of `np.log2(fx / fr)` holds, case by case. */
  lemma LogRatioCases(p: seq<real>, fx: seq<seq<real>>, width: nat, log2: real -> real, i: nat, c: nat)
    requires |p| == |fx| && Rectangular(fx, width) && i < |fx| && c < width
    ensures var g, x, fr := LogRatios(p, fx, width, log2), fx[i][c], MeanRate(p, fx, width, c);
      && (fr != 0.0 && x / fr > 0.0 ==> g[i][c] == Finite(log2(x / fr)))
      && (fr != 0.0 && x == 0.0 ==> g[i][c] == Inf(false))
      && (fr == 0.0 && x > 0.0 ==> g[i][c] == Inf(true))
      && ((fr != 0.0 && x / fr < 0.0) || (fr == 0.0 && x <= 0.0) ==> g[i][c].NaN?)
  {
  }

  /** The grid after `logfx[np.isinf(logfx)] = 0.0` (line 181). */
  function Suppressed(g: seq<seq<Value>>): (s: seq<seq<Value>>)
    ensures |s| == |g| && forall i :: 0 <= i < |s| ==> |s[i]| == |g[i]|
    ensures forall i, c :: 0 <= i < |s| && 0 <= c < |s[i]| ==> !s[i][c].Inf?
    ensures forall i, c :: 0 <= i < |s| && 0 <= c < |s[i]| ==> s[i][c] == InfToZero(g[i][c])
  {
    seq(|g|, i requires 0 <= i < |g| => seq(|g[i]|, c requires 0 <= c < |g[i]| => InfToZero(g[i][c])))
  }

  /** Column c of `fx * occupancy`: the weight of each bin. */
  function Weights(p: seq<real>, fx: seq<seq<real>>, width: nat, c: nat): (q: seq<real>)
    requires |p| == |fx| && Rectangular(fx, width) && c < width
    ensures |q| == |fx|
  {
    seq(|fx|, i requires 0 <= i < |fx| => fx[i][c] * p[i])
  }

  /** Sum over the first k bins of `occupancy * fx * logfx` in column c
      (line 182), the weights q being `occupancy * fx`. */
  function InfoSum(q: seq<real>, g: seq<seq<Value>>, width: nat, c: nat, k: nat): (r: Value)
    requires k <= |q| && k <= |g| && RectangularGrid(g, width) && c < width
    ensures (forall i :: 0 <= i < k ==> g[i][c].Finite?) ==> r.Finite?
    ensures (forall i :: 0 <= i < k ==> !g[i][c].Inf?) && (exists i :: 0 <= i < k && g[i][c].NaN?) ==> r.NaN?
  {
    if k == 0 then Finite(0.0)
    else Add(InfoSum(q, g, width, c, k - 1), Scale(g[k - 1][c], q[k - 1]))
  }

  /** The statistic of column c: bits per second, or divided by the mean rate
      for bits per event (lines 182-190). */
  function ColumnInformation(p: seq<real>, fx: seq<seq<real>>, width: nat, log2: real -> real, c: nat, bitssecond: bool): (r: Value)
    requires |p| == |fx| && Rectangular(fx, width) && c < width
  {
    var si := InfoSum(Weights(p, fx, width, c), Suppressed(LogRatios(p, fx, width, log2)), width, c, |fx|);
    if bitssecond then si else DivBy(si, MeanRate(p, fx, width, c))
  }

  /** The statistic is finite for non-negative rates with a positive mean,
      NaN for a silent column, and never finite per event at a zero mean rate. */
  lemma ColumnInformationCases(p: seq<real>, fx: seq<seq<real>>, width: nat, log2: real -> real, c: nat, bitssecond: bool)
    requires |p| == |fx| && Rectangular(fx, width) && c < width
    ensures var r := ColumnInformation(p, fx, width, log2, c, bitssecond);
      && (MeanRate(p, fx, width, c) > 0.0 && (forall i :: 0 <= i < |fx| ==> fx[i][c] >= 0.0) ==> r.Finite?)
      && (|fx| > 0 && (forall i :: 0 <= i < |fx| ==> fx[i][c] == 0.0) ==> r.NaN?)
      && (!bitssecond && MeanRate(p, fx, width, c) == 0.0 ==> !r.Finite?)
  {
  }

  /** What compute_mutual_information_1d returns (the SI column, one row per
      tuning-curve column), or the error it raises. */
  function MutualInformation(fx: seq<seq<real>>, width: nat, values: seq<real>, restricted: seq<real>,
                             minmax: Option<seq<real>>, bitssecond: bool, log2: real -> real): (r: Result<seq<Value>>)
    requires Rectangular(fx, width)
    ensures r.Ok? <==> NormalisedOccupancy(values, restricted, minmax, |fx|).Ok?
    ensures r.Ok? ==> |r.value| == width
  {
    var occupancy :- NormalisedOccupancy(values, restricted, minmax, |fx|);
    match occupancy
    case None => Ok(seq(width, c => NaN))
    case Some(p) => Ok(seq(width, c requires 0 <= c < width => ColumnInformation(p, fx, width, log2, c, bitssecond)))
  }

  /** The mean rate of every column, NaN throughout when the occupancy is. */
  function MeanRates(fx: seq<seq<real>>, width: nat, values: seq<real>, restricted: seq<real>, minmax: Option<seq<real>>)
    : (r: Result<seq<Value>>)
    requires Rectangular(fx, width)
    ensures r.Ok? <==> NormalisedOccupancy(values, restricted, minmax, |fx|).Ok?
    ensures r.Ok? ==> |r.value| == width
    ensures r.Ok? ==> forall c :: 0 <= c < width ==>
      && !r.value[c].Inf?
      && (r.value[c].NaN? <==> NormalisedOccupancy(values, restricted, minmax, |fx|).value.None?)
  {
    var occupancy :- NormalisedOccupancy(values, restricted, minmax, |fx|);
    match occupancy
    case None => Ok(seq(width, c => NaN))
    case Some(p) => Ok(seq(width, c requires 0 <= c < width => Finite(MeanRate(p, fx, width, c))))
  }

  // ------------------------------------------------------------ occupancy

  lemma {:induction false} NormalisedPrefix(counts: seq<nat>, k: nat)
    requires SumNat(counts) > 0 && k <= |counts|
    ensures SumReal(Normalised(counts)[..k]) == SumNat(counts[..k]) as real / SumNat(counts) as real
  {
    if k > 0 {
      var p := Normalised(counts);
      var t := SumNat(counts) as real;
      NormalisedPrefix(counts, k - 1);
      assert p[..k][..k - 1] == p[..k - 1];
      assert counts[..k][..k - 1] == counts[..k - 1];
      var a, b := SumNat(counts[..k - 1]), counts[k - 1];
      assert SumNat(counts[..k]) == a + b;
      assert SumReal(p[..k]) == a as real / t + b as real / t;
      AddQuotients(a as real, b as real, t);
    }
  }

  /** The normalised occupancy is a probability vector. */
  lemma NormalisedIsDistribution(counts: seq<nat>)
    requires SumNat(counts) > 0
    ensures forall i :: 0 <= i < |counts| ==> 0.0 <= Normalised(counts)[i]
    ensures SumReal(Normalised(counts)) == 1.0
  {
    var p := Normalised(counts);
    var t := SumNat(counts) as real;
    forall i | 0 <= i < |counts|
      ensures 0.0 <= p[i]
    {
      assert counts[i] as real >= 0.0 && t > 0.0;
    }
    NormalisedPrefix(counts, |counts|);
    assert p[..|counts|] == p;
    assert counts[..|counts|] == counts;
    assert SumReal(p) == t / t;
    SelfQuotient(t);
  }

  /** Division facts kept apart so that the solver meets them without the
      surrounding sequence reasoning. */
  lemma AddQuotients(a: real, b: real, t: real)
    requires t > 0.0
    ensures a / t + b / t == (a + b) / t
  {
  }

  lemma SelfQuotient(t: real)
    requires t > 0.0
    ensures t / t == 1.0
  {
  }

  /** The occupancy uses rows(tc) + 1 edges over the unrestricted feature's
      range; it is undefined exactly when the tuning curve has rows but no
      restricted sample falls in range, and otherwise gives each bin the
      fraction of in-range restricted samples it holds, summing to 1. */
  lemma OccupancyIsDistribution(values: seq<real>, restricted: seq<real>, minmax: Option<seq<real>>, rows: nat)
    requires NormalisedOccupancy(values, restricted, minmax, rows).Ok?
    ensures var bins := Edges(values, minmax, 0, rows + 1).value;
      var occupancy := NormalisedOccupancy(values, restricted, minmax, rows).value;
      && |bins| == rows + 1
      && (occupancy.None? <==> rows > 0 && CountInRange(restricted, bins) == 0)
      && (occupancy.Some? && rows > 0 ==>
           && SumReal(occupancy.value) == 1.0
           && forall i :: 0 <= i < rows ==>
                occupancy.value[i] == CountIn(restricted, bins, i) as real / CountInRange(restricted, bins) as real)
  {
    var bins := Edges(values, minmax, 0, rows + 1).value;
    var counts := Counts(restricted, bins);
    HistogramTotal(restricted, bins);
    if SumNat(counts) > 0 {
      NormalisedIsDistribution(counts);
    }
  }

  // ------------------------------------------------------------ mean rate

  /** Over a probability vector the mean rate of a column lies between the
      column's smallest and largest values; a constant column has that constant
      as its mean rate. */
  lemma MeanRateWithinColumnRange(p: seq<real>, fx: seq<seq<real>>, width: nat, c: nat, lo: real, hi: real)
    requires |p| == |fx| && Rectangular(fx, width) && c < width
    requires forall i :: 0 <= i < |p| ==> p[i] >= 0.0
    requires SumReal(p) == 1.0
    requires forall i :: 0 <= i < |fx| ==> lo <= fx[i][c] <= hi
    ensures lo <= MeanRate(p, fx, width, c) <= hi
  {
    WeightsBetween(p, fx, width, c, lo, hi);
    SumBetween(Weights(p, fx, width, c), p, lo, hi);
  }

  /** Each weight lies between lo and hi times its bin's occupancy. */
  lemma WeightsBetween(p: seq<real>, fx: seq<seq<real>>, width: nat, c: nat, lo: real, hi: real)
    requires |p| == |fx| && Rectangular(fx, width) && c < width
    requires forall i :: 0 <= i < |p| ==> p[i] >= 0.0
    requires forall i :: 0 <= i < |fx| ==> lo <= fx[i][c] <= hi
    ensures forall i :: 0 <= i < |fx| ==> ScaledBy(p, lo)[i] <= Weights(p, fx, width, c)[i] <= ScaledBy(p, hi)[i]
  {
    var q, lower, upper := Weights(p, fx, width, c), ScaledBy(p, lo), ScaledBy(p, hi);
    forall i | 0 <= i < |fx|
      ensures lower[i] <= q[i] <= upper[i]
    {
      BetweenTimes(lo, hi, fx[i][c], p[i], lower[i], q[i], upper[i]);
    }
  }

  /** Multiplying lo <= x <= hi by a non-negative weight keeps the order. */
  lemma BetweenTimes(lo: real, hi: real, x: real, w: real, a: real, b: real, d: real)
    requires lo <= x <= hi && w >= 0.0
    requires a == lo * w && b == x * w && d == hi * w
    ensures a <= b <= d
  {
    assert (x - lo) * w >= 0.0 && (hi - x) * w >= 0.0;
  }

  // ------------------------------------------------------------ the statistic

  /** Bits per event are bits per second divided by the column's mean rate;
      both are NaN where the occupancy is undefined. */
  lemma PerEventIsPerSecondOverMeanRate(fx: seq<seq<real>>, width: nat, values: seq<real>, restricted: seq<real>,
                                        minmax: Option<seq<real>>, log2: real -> real)
    requires Rectangular(fx, width)
    requires NormalisedOccupancy(values, restricted, minmax, |fx|).Ok?
    ensures var perEvent := MutualInformation(fx, width, values, restricted, minmax, false, log2).value;
      var perSecond := MutualInformation(fx, width, values, restricted, minmax, true, log2).value;
      var fr := MeanRates(fx, width, values, restricted, minmax).value;
      forall c :: 0 <= c < width ==>
        && (fr[c].Finite? ==> perEvent[c] == DivBy(perSecond[c], fr[c].v))
        && (fr[c].Finite? && fr[c].v != 0.0 && perSecond[c].Finite? ==> perEvent[c] == Finite(perSecond[c].v / fr[c].v))
        && (!fr[c].Finite? ==> perEvent[c].NaN? && perSecond[c].NaN?)
  {
  }

  /** Scaling a tuning-curve matrix by a positive constant. */
  function Scaled(fx: seq<seq<real>>, k: real): (s: seq<seq<real>>)
    ensures |s| == |fx| && forall i :: 0 <= i < |s| ==> |s[i]| == |fx[i]|
  {
    seq(|fx|, i requires 0 <= i < |fx| => seq(|fx[i]|, c requires 0 <= c < |fx[i]| => k * fx[i][c]))
  }

  /** Column c of sfx is column c of fx multiplied by m. */
  predicate ColumnScaled(fx: seq<seq<real>>, sfx: seq<seq<real>>, width: nat, c: nat, m: real)
    requires Rectangular(fx, width) && c < width
  {
    |sfx| == |fx| && Rectangular(sfx, width) && forall i :: 0 <= i < |fx| ==> sfx[i][c] == m * fx[i][c]
  }

  lemma {:induction false} WeightedSumScaled(p: seq<real>, fx: seq<seq<real>>, sfx: seq<seq<real>>, width: nat, c: nat, k: nat, m: real)
    requires |p| == |fx| && Rectangular(fx, width) && c < width && k <= |fx|
    requires ColumnScaled(fx, sfx, width, c, m)
    ensures SumReal(Weights(p, sfx, width, c)[..k]) == m * SumReal(Weights(p, fx, width, c)[..k])
  {
    if k > 0 {
      var q, sq := Weights(p, fx, width, c), Weights(p, sfx, width, c);
      WeightedSumScaled(p, fx, sfx, width, c, k - 1, m);
      assert q[..k][..k - 1] == q[..k - 1];
      assert sq[..k][..k - 1] == sq[..k - 1];
      var x, w, r := fx[k - 1][c], p[k - 1], SumReal(q[..k - 1]);
      assert sq[k - 1] == m * x * w;
      assert m * x * w + m * r == m * (r + x * w);
    }
  }

  lemma ScaleScale(a: Value, x: real, m: real)
    requires m > 0.0
    ensures Scale(a, x * m) == Scale(Scale(a, x), m)
  {
    match a
    case Finite(v) =>
      assert v * (x * m) == v * x * m;
    case NaN =>
    case Inf(q) =>
      if x != 0.0 {
        assert x * m != 0.0;
        assert (x * m > 0.0) == (x > 0.0);
      }
  }

  /** The weights of a column scaled by m are the weights scaled by m. */
  lemma WeightsScaled(p: seq<real>, fx: seq<seq<real>>, sfx: seq<seq<real>>, width: nat, c: nat, m: real)
    requires |p| == |fx| && Rectangular(fx, width) && c < width
    requires ColumnScaled(fx, sfx, width, c, m)
    ensures forall i :: 0 <= i < |fx| ==> Weights(p, sfx, width, c)[i] == Weights(p, fx, width, c)[i] * m
  {
    forall i | 0 <= i < |fx|
      ensures Weights(p, sfx, width, c)[i] == Weights(p, fx, width, c)[i] * m
    {
      var x, w := fx[i][c], p[i];
      assert (m * x) * w == (x * w) * m;
    }
  }

  lemma {:induction false} InfoSumScaled(q: seq<real>, sq: seq<real>, g: seq<seq<Value>>, width: nat, c: nat, k: nat, m: real)
    requires k <= |q| && k <= |sq| && k <= |g| && RectangularGrid(g, width) && c < width && m > 0.0
    requires forall i :: 0 <= i < k ==> sq[i] == q[i] * m
    ensures InfoSum(sq, g, width, c, k) == Scale(InfoSum(q, g, width, c, k), m)
  {
    if k > 0 {
      InfoSumScaled(q, sq, g, width, c, k - 1, m);
      ScaleScale(g[k - 1][c], q[k - 1], m);
      ScaleAdd(InfoSum(q, g, width, c, k - 1), Scale(g[k - 1][c], q[k - 1]), m);
    }
  }

  lemma ScaledColumn(fx: seq<seq<real>>, width: nat, c: nat, m: real)
    requires Rectangular(fx, width) && c < width
    ensures Rectangular(Scaled(fx, m), width)
    ensures ColumnScaled(fx, Scaled(fx, m), width, c, m)
  {
  }

  lemma LogRatioScaled(p: seq<real>, fx: seq<seq<real>>, width: nat, log2: real -> real, m: real, i: nat, c: nat)
    requires |p| == |fx| && Rectangular(fx, width) && m > 0.0 && i < |fx| && c < width
    ensures Rectangular(Scaled(fx, m), width)
    ensures LogRatios(p, Scaled(fx, m), width, log2)[i][c] == LogRatios(p, fx, width, log2)[i][c]
  {
    var sfx := Scaled(fx, m);
    MeanRateScaled(p, fx, width, c, m);
    var x, fr := fx[i][c], MeanRate(p, fx, width, c);
    assert sfx[i][c] == m * x;
    assert LogRatios(p, sfx, width, log2)[i][c] == Log2(Div(sfx[i][c], MeanRate(p, sfx, width, c)), log2);
    assert LogRatios(p, fx, width, log2)[i][c] == Log2(Div(x, fr), log2);
    DivScaled(x, fr, m);
    assert MeanRate(p, sfx, width, c) == m * fr;
    assert Div(sfx[i][c], MeanRate(p, sfx, width, c)) == Div(x, fr);
  }

  lemma LogRatiosScaled(p: seq<real>, fx: seq<seq<real>>, width: nat, log2: real -> real, m: real)
    requires |p| == |fx| && Rectangular(fx, width) && m > 0.0
    ensures Rectangular(Scaled(fx, m), width)
    ensures LogRatios(p, Scaled(fx, m), width, log2) == LogRatios(p, fx, width, log2)
  {
    var sfx := Scaled(fx, m);
    assert Rectangular(sfx, width);
    var g := LogRatios(p, fx, width, log2);
    var sg := LogRatios(p, sfx, width, log2);
    forall i | 0 <= i < |fx|
      ensures sg[i] == g[i]
    {
      forall c | 0 <= c < width
        ensures sg[i][c] == g[i][c]
      {
        LogRatioScaled(p, fx, width, log2, m, i, c);
      }
    }
  }

  lemma DivScaled(x: real, y: real, m: real)
    requires m > 0.0
    ensures Div(m * x, m * y) == Div(x, y)
  {
    if y != 0.0 {
      assert (m * x) / (m * y) == x / y;
    } else {
      assert (m * x == 0.0) == (x == 0.0);
      assert (m * x > 0.0) == (x > 0.0);
    }
  }

  lemma MeanRateScaled(p: seq<real>, fx: seq<seq<real>>, width: nat, c: nat, m: real)
    requires |p| == |fx| && Rectangular(fx, width) && c < width
    ensures Rectangular(Scaled(fx, m), width)
    ensures MeanRate(p, Scaled(fx, m), width, c) == m * MeanRate(p, fx, width, c)
  {
    var sfx := Scaled(fx, m);
    ScaledColumn(fx, width, c, m);
    WeightedSumScaled(p, fx, sfx, width, c, |fx|, m);
    assert Weights(p, fx, width, c)[..|fx|] == Weights(p, fx, width, c);
    assert Weights(p, sfx, width, c)[..|sfx|] == Weights(p, sfx, width, c);
  }

  lemma PerSecondScaled(p: seq<real>, fx: seq<seq<real>>, width: nat, log2: real -> real, c: nat, m: real)
    requires |p| == |fx| && Rectangular(fx, width) && c < width && m > 0.0
    ensures Rectangular(Scaled(fx, m), width)
    ensures ColumnInformation(p, Scaled(fx, m), width, log2, c, true) == Scale(ColumnInformation(p, fx, width, log2, c, true), m)
  {
    ScaledColumn(fx, width, c, m);
    LogRatiosScaled(p, fx, width, log2, m);
    PerSecondOfScaled(p, fx, Scaled(fx, m), width, log2, c, m);
  }

  /** A matrix whose column c is column c of another times m, and whose log
      ratios are the other's, has m times its bits per second. */
  lemma PerSecondOfScaled(p: seq<real>, fx: seq<seq<real>>, sfx: seq<seq<real>>, width: nat, log2: real -> real, c: nat, m: real)
    requires |p| == |fx| && Rectangular(fx, width) && c < width && m > 0.0
    requires ColumnScaled(fx, sfx, width, c, m)
    requires LogRatios(p, sfx, width, log2) == LogRatios(p, fx, width, log2)
    ensures ColumnInformation(p, sfx, width, log2, c, true) == Scale(ColumnInformation(p, fx, width, log2, c, true), m)
  {
    var g := Suppressed(LogRatios(p, fx, width, log2));
    WeightsScaled(p, fx, sfx, width, c, m);
    InfoSumScaled(Weights(p, fx, width, c), Weights(p, sfx, width, c), g, width, c, |fx|, m);
  }

  lemma ColumnInformationScaled(p: seq<real>, fx: seq<seq<real>>, width: nat, log2: real -> real, c: nat, m: real)
    requires |p| == |fx| && Rectangular(fx, width) && c < width && m > 0.0
    ensures Rectangular(Scaled(fx, m), width)
    ensures ColumnInformation(p, Scaled(fx, m), width, log2, c, true) == Scale(ColumnInformation(p, fx, width, log2, c, true), m)
    ensures ColumnInformation(p, Scaled(fx, m), width, log2, c, false) == ColumnInformation(p, fx, width, log2, c, false)
  {
    PerSecondScaled(p, fx, width, log2, c, m);
    PerEventScaled(p, fx, width, log2, c, m);
  }

  lemma PerEventScaled(p: seq<real>, fx: seq<seq<real>>, width: nat, log2: real -> real, c: nat, m: real)
    requires |p| == |fx| && Rectangular(fx, width) && c < width && m > 0.0
    ensures Rectangular(Scaled(fx, m), width)
    ensures ColumnInformation(p, Scaled(fx, m), width, log2, c, false) == ColumnInformation(p, fx, width, log2, c, false)
  {
    var sfx := Scaled(fx, m);
    MeanRateScaled(p, fx, width, c, m);
    PerSecondScaled(p, fx, width, log2, c, m);
    QuotientOfScaled(p, fx, sfx, width, log2, c, m);
    PerEventColumn(p, fx, width, log2, c);
    PerEventColumn(p, sfx, width, log2, c);
  }

  /** When the bits per second and the mean rate of one matrix are those of
      another times m, the two quotients agree. */
  lemma QuotientOfScaled(p: seq<real>, fx: seq<seq<real>>, sfx: seq<seq<real>>, width: nat, log2: real -> real, c: nat, m: real)
    requires |p| == |fx| == |sfx| && Rectangular(fx, width) && Rectangular(sfx, width) && c < width && m > 0.0
    requires ColumnInformation(p, sfx, width, log2, c, true) == Scale(ColumnInformation(p, fx, width, log2, c, true), m)
    requires MeanRate(p, sfx, width, c) == m * MeanRate(p, fx, width, c)
    ensures DivBy(ColumnInformation(p, sfx, width, log2, c, true), MeanRate(p, sfx, width, c))
         == DivBy(ColumnInformation(p, fx, width, log2, c, true), MeanRate(p, fx, width, c))
  {
    QuotientScaled(ColumnInformation(p, fx, width, log2, c, true), ColumnInformation(p, sfx, width, log2, c, true),
                   MeanRate(p, fx, width, c), MeanRate(p, sfx, width, c), m);
  }

  /** A scaled value over a denominator scaled alike is the same quotient. */
  lemma QuotientScaled(a: Value, sa: Value, y: real, sy: real, m: real)
    requires m > 0.0 && sa == Scale(a, m) && sy == m * y
    ensures DivBy(sa, sy) == DivBy(a, y)
  {
    DivByScaled(a, y, m);
  }

  lemma PerEventColumn(p: seq<real>, fx: seq<seq<real>>, width: nat, log2: real -> real, c: nat)
    requires |p| == |fx| && Rectangular(fx, width) && c < width
    ensures ColumnInformation(p, fx, width, log2, c, false)
         == DivBy(ColumnInformation(p, fx, width, log2, c, true), MeanRate(p, fx, width, c))
  {
  }

  /** Multiplying every rate of the tuning curves by a positive constant
      multiplies the bits per second by it and leaves the bits per event
      unchanged. */
  lemma ScalingRates(fx: seq<seq<real>>, width: nat, values: seq<real>, restricted: seq<real>,
                     minmax: Option<seq<real>>, log2: real -> real, m: real)
    requires Rectangular(fx, width) && m > 0.0
    requires NormalisedOccupancy(values, restricted, minmax, |fx|).Ok?
    ensures Rectangular(Scaled(fx, m), width)
    ensures var perSecond := MutualInformation(fx, width, values, restricted, minmax, true, log2).value;
      var scaled := MutualInformation(Scaled(fx, m), width, values, restricted, minmax, true, log2).value;
      forall c :: 0 <= c < width ==> scaled[c] == Scale(perSecond[c], m)
    ensures MutualInformation(Scaled(fx, m), width, values, restricted, minmax, false, log2)
         == MutualInformation(fx, width, values, restricted, minmax, false, log2)
  {
    var sfx := Scaled(fx, m);
    assert Rectangular(sfx, width);
    var occupancy := NormalisedOccupancy(values, restricted, minmax, |fx|).value;
    assert NormalisedOccupancy(values, restricted, minmax, |sfx|).value == occupancy;
    if occupancy.Some? {
      var p := occupancy.value;
      forall c | 0 <= c < width
        ensures ColumnInformation(p, sfx, width, log2, c, true) == Scale(ColumnInformation(p, fx, width, log2, c, true), m)
        ensures ColumnInformation(p, sfx, width, log2, c, false) == ColumnInformation(p, fx, width, log2, c, false)
      {
        ColumnInformationScaled(p, fx, width, log2, c, m);
      }
      var a := MutualInformation(sfx, width, values, restricted, minmax, false, log2).value;
      var b := MutualInformation(fx, width, values, restricted, minmax, false, log2).value;
      assert forall c :: 0 <= c < width ==> a[c] == ColumnInformation(p, sfx, width, log2, c, false);
      assert a == b;
    }
  }

  lemma {:induction false} InfoSumOfZeros(q: seq<real>, g: seq<seq<Value>>, width: nat, c: nat, k: nat)
    requires k <= |q| && k <= |g| && RectangularGrid(g, width) && c < width
    requires forall i :: 0 <= i < k ==> g[i][c] == Finite(0.0)
    ensures InfoSum(q, g, width, c, k) == Finite(0.0)
  {
    if k > 0 {
      InfoSumOfZeros(q, g, width, c, k - 1);
      assert Scale(Finite(0.0), q[k - 1]) == Finite(0.0 * q[k - 1]) == Finite(0.0);
    }
  }

  /** A column with the same positive rate in every bin carries no
      information, given only that log2(1) = 0. */
  lemma ConstantColumnCarriesNoInformation(p: seq<real>, fx: seq<seq<real>>, width: nat, log2: real -> real, c: nat, rate: real, bitssecond: bool)
    requires |p| == |fx| && Rectangular(fx, width) && c < width
    requires forall i :: 0 <= i < |p| ==> p[i] >= 0.0
    requires SumReal(p) == 1.0
    requires rate > 0.0 && forall i :: 0 <= i < |fx| ==> fx[i][c] == rate
    requires log2(1.0) == 0.0
    ensures ColumnInformation(p, fx, width, log2, c, bitssecond) == Finite(0.0)
  {
    MeanRateWithinColumnRange(p, fx, width, c, rate, rate);
    var fr := MeanRate(p, fx, width, c);
    var g := Suppressed(LogRatios(p, fx, width, log2));
    forall i | 0 <= i < |fx|
      ensures g[i][c] == Finite(0.0)
    {
      UnitRatio(fx[i][c], fr, log2);
    }
    var si := InfoSum(Weights(p, fx, width, c), g, width, c, |fx|);
    InfoSumOfZeros(Weights(p, fx, width, c), g, width, c, |fx|);
    assert ColumnInformation(p, fx, width, log2, c, true) == si;
    assert 0.0 / fr == 0.0;
  }

  /** A rate equal to the mean rate has a log ratio of 0. */
  lemma UnitRatio(x: real, fr: real, log2: real -> real)
    requires x == fr && fr > 0.0 && log2(1.0) == 0.0
    ensures InfToZero(Log2(Div(x, fr), log2)) == Finite(0.0)
  {
    assert x / fr == 1.0;
  }

  /** The Skaggs sum over the visited-rate bins: sum of p * fx * log2(fx / fr)
      over the bins where fx is positive. */
  function SkaggsSum(p: seq<real>, fx: seq<seq<real>>, width: nat, c: nat, fr: real, log2: real -> real): real
    requires |p| == |fx| && Rectangular(fx, width) && c < width && fr != 0.0
  {
    SumReal(SkaggsTerms(p, fx, width, c, fr, log2))
  }

  /** The contribution of each bin: p * fx * log2(fx / fr) where fx is positive, 0 elsewhere. */
  function SkaggsTerms(p: seq<real>, fx: seq<seq<real>>, width: nat, c: nat, fr: real, log2: real -> real): (t: seq<real>)
    requires |p| == |fx| && Rectangular(fx, width) && c < width && fr != 0.0
    ensures |t| == |fx|
  {
    seq(|fx|, i requires 0 <= i < |fx| => if fx[i][c] > 0.0 then p[i] * fx[i][c] * log2(fx[i][c] / fr) else 0.0)
  }

  lemma SkaggsCell(p: seq<real>, fx: seq<seq<real>>, width: nat, log2: real -> real, c: nat, i: nat)
    requires |p| == |fx| && Rectangular(fx, width) && c < width && i < |fx|
    requires MeanRate(p, fx, width, c) > 0.0
    requires fx[i][c] >= 0.0
    ensures var fr := MeanRate(p, fx, width, c);
      var x := fx[i][c];
      Scale(Suppressed(LogRatios(p, fx, width, log2))[i][c], x * p[i]) == Finite(SkaggsTerms(p, fx, width, c, fr, log2)[i])
  {
    var fr := MeanRate(p, fx, width, c);
    var x, w := fx[i][c], p[i];
    var g := Suppressed(LogRatios(p, fx, width, log2));
    assert g[i][c] == InfToZero(Log2(Div(x, fr), log2));
    if x > 0.0 {
      assert x / fr > 0.0;
      assert g[i][c] == Finite(log2(x / fr));
      assert log2(x / fr) * (x * w) == w * x * log2(x / fr);
    } else {
      assert x / fr == 0.0;
      assert g[i][c] == Finite(0.0);
    }
  }

  lemma InfoSumIsSkaggsSum(p: seq<real>, fx: seq<seq<real>>, width: nat, log2: real -> real, c: nat)
    requires |p| == |fx| && Rectangular(fx, width) && c < width
    requires MeanRate(p, fx, width, c) > 0.0
    requires forall i :: 0 <= i < |fx| ==> fx[i][c] >= 0.0
    ensures InfoSum(Weights(p, fx, width, c), Suppressed(LogRatios(p, fx, width, log2)), width, c, |fx|)
         == Finite(SkaggsSum(p, fx, width, c, MeanRate(p, fx, width, c), log2))
  {
    var q, g, fr := Weights(p, fx, width, c), Suppressed(LogRatios(p, fx, width, log2)), MeanRate(p, fx, width, c);
    var t := SkaggsTerms(p, fx, width, c, fr, log2);
    forall i | 0 <= i < |fx|
      ensures Scale(g[i][c], q[i]) == Finite(t[i])
    {
      SkaggsCell(p, fx, width, log2, c, i);
      assert q[i] == fx[i][c] * p[i];
    }
    InfoSumOfTerms(q, g, width, c, t, |fx|);
    assert t[..|fx|] == t;
  }

  /** A sum whose every product is a finite term t[i] is the finite sum of those terms. */
  lemma {:induction false} InfoSumOfTerms(q: seq<real>, g: seq<seq<Value>>, width: nat, c: nat, t: seq<real>, k: nat)
    requires k <= |q| && k <= |g| && k <= |t| && RectangularGrid(g, width) && c < width
    requires forall i :: 0 <= i < k ==> Scale(g[i][c], q[i]) == Finite(t[i])
    ensures InfoSum(q, g, width, c, k) == Finite(SumReal(t[..k]))
  {
    if k > 0 {
      InfoSumOfTerms(q, g, width, c, t, k - 1);
      assert t[..k][..k - 1] == t[..k - 1];
    }
  }

  /** With non-negative rates and a positive mean rate the statistic is
      finite: bins of zero rate contribute nothing (their -inf logarithm is
      cleared) and the rest contribute p * fx * log2(fx / fr). */
  lemma SkaggsFormula(p: seq<real>, fx: seq<seq<real>>, width: nat, log2: real -> real, c: nat)
    requires |p| == |fx| && Rectangular(fx, width) && c < width
    requires MeanRate(p, fx, width, c) > 0.0
    requires forall i :: 0 <= i < |fx| ==> fx[i][c] >= 0.0
    ensures var fr := MeanRate(p, fx, width, c);
      var s := SkaggsSum(p, fx, width, c, fr, log2);
      && ColumnInformation(p, fx, width, log2, c, true) == Finite(s)
      && ColumnInformation(p, fx, width, log2, c, false) == Finite(s / fr)
  {
    InfoSumIsSkaggsSum(p, fx, width, log2, c);
  }

  /** A column whose rates are all at least some positive bound has a positive
      mean rate, so its statistic is the finite Skaggs sum. */
  lemma PositiveColumnHasFiniteInformation(p: seq<real>, fx: seq<seq<real>>, width: nat, log2: real -> real, c: nat, lo: real)
    requires |p| == |fx| && Rectangular(fx, width) && c < width
    requires forall i :: 0 <= i < |p| ==> p[i] >= 0.0
    requires SumReal(p) == 1.0
    requires lo > 0.0 && forall i :: 0 <= i < |fx| ==> fx[i][c] >= lo
    ensures ColumnInformation(p, fx, width, log2, c, true).Finite?
    ensures ColumnInformation(p, fx, width, log2, c, false).Finite?
  {
    assert |fx| > 0;
    var column := seq(|fx|, i requires 0 <= i < |fx| => fx[i][c]);
    forall i | 0 <= i < |fx|
      ensures fx[i][c] <= Max(column)
    {
      assert column[i] in column;
    }
    MeanRateWithinColumnRange(p, fx, width, c, lo, Max(column));
    ColumnInformationCases(p, fx, width, log2, c, true);
    ColumnInformationCases(p, fx, width, log2, c, false);
  }

  /** A silent column (all rates zero) yields NaN, not 0, in both units: its
      mean rate is 0, every ratio is 0 / 0, and log2 of NaN is not cleared. */
  lemma SilentColumnIsNaN(fx: seq<seq<real>>, width: nat, values: seq<real>, restricted: seq<real>,
                          minmax: Option<seq<real>>, bitssecond: bool, log2: real -> real, c: nat)
    requires Rectangular(fx, width) && c < width && |fx| > 0
    requires forall i :: 0 <= i < |fx| ==> fx[i][c] == 0.0
    requires NormalisedOccupancy(values, restricted, minmax, |fx|).Ok?
    ensures MutualInformation(fx, width, values, restricted, minmax, bitssecond, log2).value[c].NaN?
  {
    var occupancy := NormalisedOccupancy(values, restricted, minmax, |fx|).value;
    if occupancy.Some? {
      var p := occupancy.value;
      OccupancyIsDistribution(values, restricted, minmax, |fx|);
      NormalisedNonNegative(values, restricted, minmax, |fx|);
      MeanRateWithinColumnRange(p, fx, width, c, 0.0, 0.0);
      var g := Suppressed(LogRatios(p, fx, width, log2));
      assert g[|fx| - 1][c] == NaN;
    }
  }

  lemma NormalisedNonNegative(values: seq<real>, restricted: seq<real>, minmax: Option<seq<real>>, rows: nat)
    requires NormalisedOccupancy(values, restricted, minmax, rows).Ok?
    requires NormalisedOccupancy(values, restricted, minmax, rows).value.Some?
    ensures forall i :: 0 <= i < rows ==> NormalisedOccupancy(values, restricted, minmax, rows).value.value[i] >= 0.0
  {
    var bins := Edges(values, minmax, 0, rows + 1).value;
    var counts := Counts(restricted, bins);
    if SumNat(counts) > 0 {
      NormalisedIsDistribution(counts);
    }
  }

  // ------------------------------------------------------------ imperative core

  /** `logfx[np.isinf(logfx)] = 0.0`, in place. */
  method ZeroFillInf(a: array2<Value>)
    modifies a
    ensures forall i, c :: 0 <= i < a.Length0 && 0 <= c < a.Length1 ==> a[i, c] == InfToZero(old(a[i, c]))
  {
    for i := 0 to a.Length0
      invariant forall q, d :: 0 <= q < i && 0 <= d < a.Length1 ==> a[q, d] == InfToZero(old(a[q, d]))
      invariant forall q, d :: i <= q < a.Length0 && 0 <= d < a.Length1 ==> a[q, d] == old(a[q, d])
    {
      for c := 0 to a.Length1
        invariant forall q, d :: 0 <= q < i && 0 <= d < a.Length1 ==> a[q, d] == InfToZero(old(a[q, d]))
        invariant forall d :: 0 <= d < c ==> a[i, d] == InfToZero(old(a[i, d]))
        invariant forall q, d :: i <= q < a.Length0 && 0 <= d < a.Length1 && (q > i || d >= c) ==> a[q, d] == old(a[q, d])
      {
        if a[i, c].Inf? {
          a[i, c] := Finite(0.0);
        }
      }
    }
  }

  /** `np.log2(fx / fr)`, written into a fresh matrix bin by bin. */
  method LogRatioGrid(p: seq<real>, fx: seq<seq<real>>, width: nat, log2: real -> real, fr: seq<real>)
    returns (logfx: array2<Value>)
    requires |p| == |fx| && Rectangular(fx, width)
    requires |fr| == width && forall c :: 0 <= c < width ==> fr[c] == MeanRate(p, fx, width, c)
    ensures fresh(logfx) && logfx.Length0 == |fx| && logfx.Length1 == width
    ensures forall i, c :: 0 <= i < |fx| && 0 <= c < width ==> logfx[i, c] == LogRatios(p, fx, width, log2)[i][c]
  {
    logfx := new Value[|fx|, width];
    for i := 0 to |fx|
      invariant forall q, d :: 0 <= q < i && 0 <= d < width ==> logfx[q, d] == LogRatios(p, fx, width, log2)[q][d]
    {
      for c := 0 to width
        invariant forall q, d :: 0 <= q < i && 0 <= d < width ==> logfx[q, d] == LogRatios(p, fx, width, log2)[q][d]
        invariant forall d :: 0 <= d < c ==> logfx[i, d] == LogRatios(p, fx, width, log2)[i][d]
      {
        logfx[i, c] := Log2(Div(fx[i][c], fr[c]), log2);
      }
    }
  }

  /** The rows of a matrix as a sequence of sequences. */
  method ReadGrid(a: array2<Value>) returns (g: seq<seq<Value>>)
    ensures |g| == a.Length0
    ensures forall i :: 0 <= i < |g| ==> |g[i]| == a.Length1
    ensures forall i, c :: 0 <= i < a.Length0 && 0 <= c < a.Length1 ==> g[i][c] == a[i, c]
  {
    g := [];
    for i := 0 to a.Length0
      invariant |g| == i
      invariant forall q :: 0 <= q < i ==> |g[q]| == a.Length1
      invariant forall q, c :: 0 <= q < i && 0 <= c < a.Length1 ==> g[q][c] == a[q, c]
    {
      var row := [];
      for c := 0 to a.Length1
        invariant |row| == c
        invariant forall d :: 0 <= d < c ==> row[d] == a[i, d]
      {
        row := row + [a[i, c]];
      }
      g := g + [row];
    }
  }

  /** compute_mutual_information_1d: the log-ratio matrix is built, cleared of
      infinities in place, then summed per column. */
  method ComputeMutualInformation1D(fx: seq<seq<real>>, width: nat, values: seq<real>, restricted: seq<real>,
                                    minmax: Option<seq<real>>, bitssecond: bool, log2: real -> real)
    returns (r: Result<seq<Value>>)
    requires Rectangular(fx, width)
    ensures r == MutualInformation(fx, width, values, restricted, minmax, bitssecond, log2)
  {
    var occupancy := NormalisedOccupancy(values, restricted, minmax, |fx|);
    if occupancy.Err? {
      return Err(occupancy.error);
    }
    if occupancy.value.None? {
      return Ok(seq(width, c => NaN));
    }
    var p := occupancy.value.value;
    var fr := seq(width, c requires 0 <= c < width => MeanRate(p, fx, width, c));
    var logfx := LogRatioGrid(p, fx, width, log2, fr);
    ZeroFillInf(logfx);
    var g := ReadGrid(logfx);
    ghost var lr := LogRatios(p, fx, width, log2);
    forall i | 0 <= i < |fx|
      ensures g[i] == Suppressed(lr)[i]
    {
      assert forall c :: 0 <= c < width ==> g[i][c] == InfToZero(lr[i][c]);
    }
    assert g == Suppressed(lr);
    var si := seq(width, c requires 0 <= c < width => InfoSum(Weights(p, fx, width, c), g, width, c, |fx|));
    if bitssecond {
      r := Ok(si);
    } else {
      r := Ok(seq(width, c requires 0 <= c < width => DivBy(si[c], fr[c])));
    }
    assert r.value == MutualInformation(fx, width, values, restricted, minmax, bitssecond, log2).value;
  }
}
