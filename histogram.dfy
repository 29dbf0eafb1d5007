/** Counting samples into bins with the semantics of numpy's `histogram` and
    `histogram2d` when the bins are given as an array of edges: bin i is
    [e[i], e[i+1]), the last bin is closed, values outside [e[0], e[last]] are
    not counted, and decreasing edges are an error. */
module Histogram {
  import opened Types
  import opened Bins
  import opened Sums

  /** Bin i of the edges e holds x. */
  predicate InBin(x: real, e: seq<real>, i: int)
  {
    0 <= i < |e| - 1 && e[i] <= x && (x < e[i + 1] || (i == |e| - 2 && x == e[i + 1]))
  }

  /** x lies between the first and the last edge. */
  predicate InRange(x: real, e: seq<real>)
  {
    |e| >= 2 && e[0] <= x <= e[|e| - 1]
  }

  /** Number of samples of xs that bin i holds. */
  function CountIn(xs: seq<real>, e: seq<real>, i: int): (n: nat)
    ensures n <= |xs|
    ensures (i < 0 || i >= |e| - 1) ==> n == 0
  {
    if xs == [] then 0 else (if InBin(xs[0], e, i) then 1 else 0) + CountIn(xs[1..], e, i)
  }

  /** Number of samples of xs that lie in the range of the edges. */
  function CountInRange(xs: seq<real>, e: seq<real>): nat
  {
    if xs == [] then 0 else (if InRange(xs[0], e) then 1 else 0) + CountInRange(xs[1..], e)
  }

  /** The counts of np.histogram(xs, e), one per bin. */
  function Counts(xs: seq<real>, e: seq<real>): (r: seq<nat>)
    ensures |r| == NumBins(e)
  {
    seq(NumBins(e), i requires 0 <= i < NumBins(e) => CountIn(xs, e, i))
  }

  /** np.histogram(xs, e)[0], which refuses decreasing edges. */
  function NpHistogram(xs: seq<real>, e: seq<real>): (r: Result<seq<nat>>)
    ensures r.Ok? <==> NonDecreasing(e)
    ensures r.Err? ==> r.error == BinsNotIncreasing
  {
    if NonDecreasing(e) then Ok(Counts(xs, e)) else Err(BinsNotIncreasing)
  }

  lemma {:induction false} FindBin(x: real, e: seq<real>, k: nat)
    requires k + 2 <= |e| && e[k] <= x <= e[|e| - 1]
    ensures exists i :: InBin(x, e, i)
    decreases |e| - k
  {
    if k == |e| - 2 || x < e[k + 1] {
      assert InBin(x, e, k);
    } else {
      FindBin(x, e, k + 1);
    }
  }

  lemma BinUnique(x: real, e: seq<real>, i: int, j: int)
    requires NonDecreasing(e) && InBin(x, e, i) && InBin(x, e, j)
    ensures i == j
  {
    if i < j {
      NonDecreasingPairwise(e, i + 1, j);
    } else if j < i {
      NonDecreasingPairwise(e, j + 1, i);
    }
  }

  lemma InBinInRange(x: real, e: seq<real>, i: int)
    requires NonDecreasing(e) && InBin(x, e, i)
    ensures InRange(x, e)
  {
    NonDecreasingPairwise(e, 0, i);
    NonDecreasingPairwise(e, i + 1, |e| - 1);
  }

  /** Every value in the range of the edges falls in exactly one bin; values
      outside the range fall in none. */
  lemma ExactlyOneBin(x: real, e: seq<real>)
    requires NonDecreasing(e)
    ensures InRange(x, e) <==> exists i :: InBin(x, e, i)
    ensures forall i, j :: InBin(x, e, i) && InBin(x, e, j) ==> i == j
  {
    if InRange(x, e) {
      FindBin(x, e, 0);
    }
    forall i | InBin(x, e, i)
      ensures InRange(x, e)
    {
      InBinInRange(x, e, i);
    }
    forall i, j | InBin(x, e, i) && InBin(x, e, j)
      ensures i == j
    {
      BinUnique(x, e, i, j);
    }
  }

  /** How many of the first k bins hold x. */
  function BinsHolding(x: real, e: seq<real>, k: nat): nat
  {
    if k == 0 then 0 else BinsHolding(x, e, k - 1) + (if InBin(x, e, k - 1) then 1 else 0)
  }

  lemma {:induction false} BinsHoldingAtMostOne(x: real, e: seq<real>, k: nat)
    requires NonDecreasing(e)
    ensures BinsHolding(x, e, k) == if exists i :: 0 <= i < k && InBin(x, e, i) then 1 else 0
  {
    if k > 0 {
      BinsHoldingAtMostOne(x, e, k - 1);
      if InBin(x, e, k - 1) && exists i :: 0 <= i < k - 1 && InBin(x, e, i) {
        var i :| 0 <= i < k - 1 && InBin(x, e, i);
        BinUnique(x, e, i, k - 1);
        assert false;
      }
    }
  }

  /** Total count of the first k bins. */
  function BinTotal(xs: seq<real>, e: seq<real>, k: nat): nat
  {
    if k == 0 then 0 else BinTotal(xs, e, k - 1) + CountIn(xs, e, k - 1)
  }

  lemma {:induction false} BinTotalFirst(xs: seq<real>, e: seq<real>, k: nat)
    requires xs != []
    ensures BinTotal(xs, e, k) == BinsHolding(xs[0], e, k) + BinTotal(xs[1..], e, k)
  {
    if k > 0 {
      BinTotalFirst(xs, e, k - 1);
    }
  }

  lemma {:induction false} BinTotalOfNothing(e: seq<real>, k: nat)
    ensures BinTotal([], e, k) == 0
  {
    if k > 0 {
      BinTotalOfNothing(e, k - 1);
    }
  }

  lemma {:induction false} BinTotalInRange(xs: seq<real>, e: seq<real>)
    requires NonDecreasing(e)
    ensures BinTotal(xs, e, NumBins(e)) == CountInRange(xs, e)
  {
    if xs == [] {
      BinTotalOfNothing(e, NumBins(e));
    } else {
      BinTotalFirst(xs, e, NumBins(e));
      BinsHoldingAtMostOne(xs[0], e, NumBins(e));
      ExactlyOneBin(xs[0], e);
      var n := NumBins(e);
      if InRange(xs[0], e) {
        var i :| InBin(xs[0], e, i);
        assert 0 <= i < n;
        assert BinsHolding(xs[0], e, n) == 1;
      } else {
        assert BinsHolding(xs[0], e, n) == 0;
      }
      BinTotalInRange(xs[1..], e);
      assert CountInRange(xs, e) == (if InRange(xs[0], e) then 1 else 0) + CountInRange(xs[1..], e);
    }
  }

  lemma {:induction false} SumOfFirstBins(xs: seq<real>, e: seq<real>, k: nat)
    requires k <= NumBins(e)
    ensures SumNat(Counts(xs, e)[..k]) == BinTotal(xs, e, k)
  {
    if k > 0 {
      var c := Counts(xs, e);
      assert c[..k][..k - 1] == c[..k - 1];
      SumOfFirstBins(xs, e, k - 1);
    }
  }

  /** The bin counts add up to the number of samples in range: no in-range
      sample is lost or counted twice. */
  lemma HistogramTotal(xs: seq<real>, e: seq<real>)
    requires NonDecreasing(e)
    ensures SumNat(Counts(xs, e)) == CountInRange(xs, e)
  {
    var c := Counts(xs, e);
    assert c[..|c|] == c;
    SumOfFirstBins(xs, e, |c|);
    BinTotalInRange(xs, e);
  }

  lemma {:induction false} CountedHasWitness(xs: seq<real>, e: seq<real>, i: int)
    requires CountIn(xs, e, i) > 0
    ensures exists t :: 0 <= t < |xs| && InBin(xs[t], e, i)
  {
    if !InBin(xs[0], e, i) {
      CountedHasWitness(xs[1..], e, i);
      var t :| 0 <= t < |xs[1..]| && InBin(xs[1..][t], e, i);
      assert xs[t + 1] == xs[1..][t];
    }
  }

  lemma {:induction false} WitnessIsCounted(xs: seq<real>, e: seq<real>, i: int, t: nat)
    requires t < |xs| && InBin(xs[t], e, i)
    ensures CountIn(xs, e, i) > 0
  {
    if t > 0 {
      assert xs[1..][t - 1] == xs[t];
      WitnessIsCounted(xs[1..], e, i, t - 1);
    }
  }

  /** When every aligned value is one of the feature's samples, a bin that
      counts an aligned value is occupied by the feature. */
  lemma OccupiedWhereCounted(aligned: seq<real>, samples: seq<real>, e: seq<real>, i: int)
    requires forall y :: y in aligned ==> y in samples
    requires CountIn(aligned, e, i) > 0
    ensures CountIn(samples, e, i) > 0
  {
    CountedHasWitness(aligned, e, i);
    var t :| 0 <= t < |aligned| && InBin(aligned[t], e, i);
    assert aligned[t] in samples;
    var s :| 0 <= s < |samples| && samples[s] == aligned[t];
    WitnessIsCounted(samples, e, i, s);
  }

  // ---------------------------------------------------------------- 2-D

  /** Number of pairs (xs[t], ys[t]) in cell (i, j). */
  function CountIn2(xs: seq<real>, ys: seq<real>, ex: seq<real>, ey: seq<real>, i: int, j: int): nat
    requires |xs| == |ys|
  {
    if xs == [] then 0
    else (if InBin(xs[0], ex, i) && InBin(ys[0], ey, j) then 1 else 0) + CountIn2(xs[1..], ys[1..], ex, ey, i, j)
  }

  /** The counts of np.histogram2d(xs, ys, [ex, ey]): rows follow the first channel. */
  function Counts2D(xs: seq<real>, ys: seq<real>, ex: seq<real>, ey: seq<real>): (g: seq<seq<nat>>)
    requires |xs| == |ys|
    ensures |g| == NumBins(ex)
    ensures forall i :: 0 <= i < |g| ==> |g[i]| == NumBins(ey)
  {
    seq(NumBins(ex), i requires 0 <= i < NumBins(ex) =>
      seq(NumBins(ey), j requires 0 <= j < NumBins(ey) => CountIn2(xs, ys, ex, ey, i, j)))
  }

  /** np.histogram2d(xs, ys, [ex, ey])[0], which refuses decreasing edges on
      either axis and then fails on an axis without edges, whose last edge it reads. */
  function NpHistogram2D(xs: seq<real>, ys: seq<real>, ex: seq<real>, ey: seq<real>): (r: Result<seq<seq<nat>>>)
    requires |xs| == |ys|
    ensures r.Ok? <==> NonDecreasing(ex) && NonDecreasing(ey) && |ex| > 0 && |ey| > 0
    ensures r.Err? ==> r.error == if NonDecreasing(ex) && NonDecreasing(ey) then NoBinEdges else BinsNotIncreasing
  {
    if !(NonDecreasing(ex) && NonDecreasing(ey)) then Err(BinsNotIncreasing)
    else if |ex| == 0 || |ey| == 0 then Err(NoBinEdges)
    else Ok(Counts2D(xs, ys, ex, ey))
  }

  /** Number of pairs whose two coordinates both lie in range. */
  function PairsInRange(xs: seq<real>, ys: seq<real>, ex: seq<real>, ey: seq<real>): nat
    requires |xs| == |ys|
  {
    if xs == [] then 0
    else (if InRange(xs[0], ex) && InRange(ys[0], ey) then 1 else 0) + PairsInRange(xs[1..], ys[1..], ex, ey)
  }

  /** The second coordinates of the pairs whose first coordinate lies in bin i. */
  function YsOfRow(xs: seq<real>, ys: seq<real>, ex: seq<real>, i: int): seq<real>
    requires |xs| == |ys|
  {
    if xs == [] then []
    else (if InBin(xs[0], ex, i) then [ys[0]] else []) + YsOfRow(xs[1..], ys[1..], ex, i)
  }

  /** The first coordinates of the pairs whose second coordinate lies in range. */
  function XsWithYInRange(xs: seq<real>, ys: seq<real>, ey: seq<real>): seq<real>
    requires |xs| == |ys|
  {
    if xs == [] then []
    else (if InRange(ys[0], ey) then [xs[0]] else []) + XsWithYInRange(xs[1..], ys[1..], ey)
  }

  lemma CountInPrepend(x: real, xs: seq<real>, e: seq<real>, i: int)
    ensures CountIn([x] + xs, e, i) == (if InBin(x, e, i) then 1 else 0) + CountIn(xs, e, i)
    ensures CountInRange([x] + xs, e) == (if InRange(x, e) then 1 else 0) + CountInRange(xs, e)
  {
    assert ([x] + xs)[1..] == xs;
  }

  lemma {:induction false} CellIsRowCount(xs: seq<real>, ys: seq<real>, ex: seq<real>, ey: seq<real>, i: int, j: int)
    requires |xs| == |ys|
    ensures CountIn2(xs, ys, ex, ey, i, j) == CountIn(YsOfRow(xs, ys, ex, i), ey, j)
  {
    if xs != [] {
      CellIsRowCount(xs[1..], ys[1..], ex, ey, i, j);
      var rest := YsOfRow(xs[1..], ys[1..], ex, i);
      if InBin(xs[0], ex, i) {
        CountInPrepend(ys[0], rest, ey, j);
      } else {
        assert YsOfRow(xs, ys, ex, i) == rest;
      }
    }
  }

  lemma {:induction false} RowRangeIsColumnCount(xs: seq<real>, ys: seq<real>, ex: seq<real>, ey: seq<real>, i: int)
    requires |xs| == |ys|
    ensures CountInRange(YsOfRow(xs, ys, ex, i), ey) == CountIn(XsWithYInRange(xs, ys, ey), ex, i)
  {
    if xs != [] {
      RowRangeIsColumnCount(xs[1..], ys[1..], ex, ey, i);
      var row := YsOfRow(xs[1..], ys[1..], ex, i);
      var col := XsWithYInRange(xs[1..], ys[1..], ey);
      if InBin(xs[0], ex, i) {
        CountInPrepend(ys[0], row, ey, i);
      } else {
        assert YsOfRow(xs, ys, ex, i) == row;
      }
      if InRange(ys[0], ey) {
        CountInPrepend(xs[0], col, ex, i);
      } else {
        assert XsWithYInRange(xs, ys, ey) == col;
      }
    }
  }

  lemma {:induction false} FilteredInRange(xs: seq<real>, ys: seq<real>, ex: seq<real>, ey: seq<real>)
    requires |xs| == |ys|
    ensures CountInRange(XsWithYInRange(xs, ys, ey), ex) == PairsInRange(xs, ys, ex, ey)
  {
    if xs != [] {
      FilteredInRange(xs[1..], ys[1..], ex, ey);
      var col := XsWithYInRange(xs[1..], ys[1..], ey);
      if InRange(ys[0], ey) {
        CountInPrepend(xs[0], col, ex, 0);
      } else {
        assert XsWithYInRange(xs, ys, ey) == col;
      }
    }
  }

  /** The sum of each row of a grid. */
  function RowSums(g: seq<seq<nat>>): (r: seq<nat>)
    ensures |r| == |g|
  {
    seq(|g|, i requires 0 <= i < |g| => SumNat(g[i]))
  }

  /** The cells of the 2-D histogram add up to the number of pairs whose two
      coordinates are both in range. */
  lemma Histogram2DTotal(xs: seq<real>, ys: seq<real>, ex: seq<real>, ey: seq<real>)
    requires |xs| == |ys|
    requires NonDecreasing(ex) && NonDecreasing(ey)
    ensures SumNat(RowSums(Counts2D(xs, ys, ex, ey))) == PairsInRange(xs, ys, ex, ey)
  {
    var g := Counts2D(xs, ys, ex, ey);
    var cols := XsWithYInRange(xs, ys, ey);
    forall i | 0 <= i < |g|
      ensures RowSums(g)[i] == Counts(cols, ex)[i]
    {
      var row := YsOfRow(xs, ys, ex, i);
      forall j | 0 <= j < |g[i]|
        ensures g[i][j] == Counts(row, ey)[j]
      {
        CellIsRowCount(xs, ys, ex, ey, i, j);
      }
      assert g[i] == Counts(row, ey);
      HistogramTotal(row, ey);
      RowRangeIsColumnCount(xs, ys, ex, ey, i);
    }
    assert RowSums(g) == Counts(cols, ex);
    HistogramTotal(cols, ex);
    FilteredInRange(xs, ys, ex, ey);
  }

  lemma {:induction false} CountedPairHasWitness(xs: seq<real>, ys: seq<real>, ex: seq<real>, ey: seq<real>, i: int, j: int)
    requires |xs| == |ys| && CountIn2(xs, ys, ex, ey, i, j) > 0
    ensures exists t :: 0 <= t < |xs| && InBin(xs[t], ex, i) && InBin(ys[t], ey, j)
  {
    if !(InBin(xs[0], ex, i) && InBin(ys[0], ey, j)) {
      CountedPairHasWitness(xs[1..], ys[1..], ex, ey, i, j);
      var t :| 0 <= t < |xs[1..]| && InBin(xs[1..][t], ex, i) && InBin(ys[1..][t], ey, j);
      assert xs[t + 1] == xs[1..][t] && ys[t + 1] == ys[1..][t];
    }
  }

  lemma {:induction false} PairWitnessIsCounted(xs: seq<real>, ys: seq<real>, ex: seq<real>, ey: seq<real>, i: int, j: int, t: nat)
    requires |xs| == |ys| && t < |xs| && InBin(xs[t], ex, i) && InBin(ys[t], ey, j)
    ensures CountIn2(xs, ys, ex, ey, i, j) > 0
  {
    if t > 0 {
      assert xs[1..][t - 1] == xs[t] && ys[1..][t - 1] == ys[t];
      PairWitnessIsCounted(xs[1..], ys[1..], ex, ey, i, j, t - 1);
    }
  }

  /** Every aligned pair (xs[t], ys[t]) is one of the feature's sample pairs. */
  predicate PairsAmong(xs: seq<real>, ys: seq<real>, fx: seq<real>, fy: seq<real>)
    requires |xs| == |ys| && |fx| == |fy|
  {
    forall t :: 0 <= t < |xs| ==> exists s :: 0 <= s < |fx| && fx[s] == xs[t] && fy[s] == ys[t]
  }

  /** When every aligned pair is a sample pair of the feature, a cell that
      counts an aligned pair is occupied. */
  lemma OccupiedWhereCounted2D(xs: seq<real>, ys: seq<real>, fx: seq<real>, fy: seq<real>,
                               ex: seq<real>, ey: seq<real>, i: int, j: int)
    requires |xs| == |ys| && |fx| == |fy| && PairsAmong(xs, ys, fx, fy)
    requires CountIn2(xs, ys, ex, ey, i, j) > 0
    ensures CountIn2(fx, fy, ex, ey, i, j) > 0
  {
    CountedPairHasWitness(xs, ys, ex, ey, i, j);
    var t :| 0 <= t < |xs| && InBin(xs[t], ex, i) && InBin(ys[t], ey, j);
    var s :| 0 <= s < |fx| && fx[s] == xs[t] && fy[s] == ys[t];
    PairWitnessIsCounted(fx, fy, ex, ey, i, j, s);
  }
}
