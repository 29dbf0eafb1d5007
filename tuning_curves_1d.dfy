/** compute_1d_tuning_curves (pynapple/process/tuning_curves.py:13-58): the
    firing rate of each group member per bin of a 1-D feature, normalised by the
    feature's own occupancy of the bin and scaled by its sampling rate. The
    alignment of each member onto the feature (group.value_from) is not modelled:
    each member arrives with its aligned values. */
module TuningCurves1D {
  import opened Types
  import opened Floats
  import opened Bins
  import opened Histogram
  import opened Rates

  /** One group member: its identifier and the feature values at its events. */
  datatype Member = Member(key: Key, aligned: seq<real>)

  /** A 1-D feature: its samples and its sampling rate. */
  datatype Feature = Feature(values: seq<real>, rate: real)

  /** The returned DataFrame: the bin centres as index, one column per key. */
  datatype Table = Table(index: seq<real>, keys: seq<Key>, columns: seq<seq<Value>>)

  /** `list(group.keys())`, in the group's order. */
  function Keys(group: seq<Member>): (ks: seq<Key>)
    ensures |ks| == |group|
    ensures forall j :: 0 <= j < |group| ==> ks[j] == group[j].key
  {
    seq(|group|, j requires 0 <= j < |group| => group[j].key)
  }

  /** One column: `count / occupancy` with NaN set to 0, times the rate. */
  function Column(count: seq<nat>, occupancy: seq<nat>, rate: real): (col: seq<Value>)
    requires |count| == |occupancy|
    ensures |col| == |count|
  {
    seq(|count|, i requires 0 <= i < |count| => Scale(NanToZero(Div(count[i] as real, occupancy[i] as real)), rate))
  }

  /** Cell i of a column: the bin's rate where the feature visited the bin, 0
      where neither the feature nor the member did, and where only the member
      did an infinity with the sign of the rate (NaN at rate 0), which the NaN
      mask leaves in place. */
  lemma ColumnCell(count: seq<nat>, occupancy: seq<nat>, rate: real, i: nat)
    requires |count| == |occupancy| && i < |count|
    ensures var col := Column(count, occupancy, rate);
      && (occupancy[i] > 0 ==> col[i] == Finite(BinRate(count[i], occupancy[i], rate)))
      && (occupancy[i] == 0 && count[i] == 0 ==> col[i] == Finite(0.0))
      && (occupancy[i] == 0 && count[i] > 0 ==> col[i] == if rate == 0.0 then NaN else Inf(rate > 0.0))
  {
  }

  /** What compute_1d_tuning_curves returns, or the error it raises. */
  function TuningCurves(group: seq<Member>, feature: Feature, nbBins: int, minmax: Option<seq<real>>): (r: Result<Table>)
    ensures r.Ok? <==> Edges(feature.values, minmax, 0, nbBins).Ok? && NonDecreasing(Edges(feature.values, minmax, 0, nbBins).value)
    ensures r.Ok? ==>
      && |r.value.index| == (if nbBins == 0 then 0 else nbBins - 1)
      && r.value.keys == Keys(group)
      && |r.value.columns| == |group|
      && forall j :: 0 <= j < |group| ==> |r.value.columns[j]| == |r.value.index|
  {
    var bins :- Edges(feature.values, minmax, 0, nbBins);
    var occupancy :- NpHistogram(feature.values, bins);
    Ok(Table(Centres(bins), Keys(group),
      seq(|group|, j requires 0 <= j < |group| => Column(Counts(group[j].aligned, bins), occupancy, feature.rate))))
  }

  /** The call fails exactly when the bounds cannot be formed, nb_bins is
      negative, or at least two edges run from a lower bound above the upper one. */
  lemma FailsExactlyWhen(group: seq<Member>, feature: Feature, nbBins: int, minmax: Option<seq<real>>)
    ensures var r := TuningCurves(group, feature, nbBins, minmax);
      var b := Bounds(feature.values, minmax, 0);
      && (minmax.None? && |feature.values| == 0 ==> r == Err(EmptyFeature))
      && (minmax.Some? && |minmax.value| < 2 ==> r == Err(BoundsTooShort))
      && (b.Ok? && nbBins < 0 ==> r == Err(NegativeBinCount))
      && (b.Ok? && nbBins >= 2 && b.value.0 > b.value.1 ==> r == Err(BinsNotIncreasing))
      && (r.Ok? <==> b.Ok? && nbBins >= 0 && (nbBins < 2 || b.value.0 <= b.value.1))
  {
    var b := Bounds(feature.values, minmax, 0);
    if b.Ok? && nbBins >= 0 {
      LinspaceOrder(b.value.0, b.value.1, nbBins);
    }
  }

  /** Every cell is count / occupancy * rate where the feature visited the
      bin, 0 where neither the feature nor the member did, and non-finite where
      only the member did (an infinity the NaN filter at line 54 leaves in place). */
  lemma CellValues(group: seq<Member>, feature: Feature, nbBins: int, minmax: Option<seq<real>>, j: nat, i: nat)
    requires TuningCurves(group, feature, nbBins, minmax).Ok?
    requires j < |group| && i < |TuningCurves(group, feature, nbBins, minmax).value.index|
    ensures var t := TuningCurves(group, feature, nbBins, minmax).value;
      var bins := Edges(feature.values, minmax, 0, nbBins).value;
      var count := CountIn(group[j].aligned, bins, i);
      var occupancy := CountIn(feature.values, bins, i);
      && t.index[i] == Centres(bins)[i]
      && t.keys[j] == group[j].key
      && (occupancy > 0 ==> t.columns[j][i] == Finite(BinRate(count, occupancy, feature.rate)))
      && (occupancy == 0 && count == 0 ==> t.columns[j][i] == Finite(0.0))
      && (occupancy == 0 && count > 0 ==> t.columns[j][i] == if feature.rate == 0.0 then NaN else Inf(feature.rate > 0.0))
  {
    var bins := Edges(feature.values, minmax, 0, nbBins).value;
    var count, occupancy := Counts(group[j].aligned, bins), Counts(feature.values, bins);
    assert TuningCurves(group, feature, nbBins, minmax).value.columns[j] == Column(count, occupancy, feature.rate);
    ColumnCell(count, occupancy, feature.rate, i);
  }

  lemma IndexIsCentres(group: seq<Member>, feature: Feature, nbBins: int, minmax: Option<seq<real>>, i: nat)
    requires TuningCurves(group, feature, nbBins, minmax).Ok?
    requires i < |TuningCurves(group, feature, nbBins, minmax).value.index|
    ensures TuningCurves(group, feature, nbBins, minmax).value.index[i]
         == Centres(Edges(feature.values, minmax, 0, nbBins).value)[i]
  {
  }

  /** When every aligned value is one of the feature's samples no cell is
      undefined: a visited bin holds count / occupancy * rate and an unvisited
      one holds 0. */
  lemma AlignedAmongSamples(group: seq<Member>, feature: Feature, nbBins: int, minmax: Option<seq<real>>)
    requires forall j, x :: 0 <= j < |group| && x in group[j].aligned ==> x in feature.values
    requires TuningCurves(group, feature, nbBins, minmax).Ok?
    ensures var t := TuningCurves(group, feature, nbBins, minmax).value;
      var bins := Edges(feature.values, minmax, 0, nbBins).value;
      forall j, i :: 0 <= j < |group| && 0 <= i < |t.index| ==>
        t.columns[j][i] ==
          if CountIn(feature.values, bins, i) > 0
          then Finite(BinRate(CountIn(group[j].aligned, bins, i), CountIn(feature.values, bins, i), feature.rate))
          else Finite(0.0)
  {
    var t := TuningCurves(group, feature, nbBins, minmax).value;
    var bins := Edges(feature.values, minmax, 0, nbBins).value;
    forall j, i | 0 <= j < |group| && 0 <= i < |t.index|
      ensures CountIn(feature.values, bins, i) == 0 ==> CountIn(group[j].aligned, bins, i) == 0
    {
      if CountIn(group[j].aligned, bins, i) > 0 {
        OccupiedWhereCounted(group[j].aligned, feature.values, bins, i);
      }
    }
  }

  /** Scaling the feature's sampling rate by k scales every finite cell by k
      and changes nothing else. */
  lemma RateLinear(group: seq<Member>, feature: Feature, nbBins: int, minmax: Option<seq<real>>, k: real)
    ensures var r := TuningCurves(group, feature, nbBins, minmax);
      var s := TuningCurves(group, Feature(feature.values, k * feature.rate), nbBins, minmax);
      && (r.Ok? <==> s.Ok?)
      && (r.Ok? ==>
        && s.value.index == r.value.index && s.value.keys == r.value.keys
        && forall j, i :: 0 <= j < |group| && 0 <= i < |r.value.index| && r.value.columns[j][i].Finite? ==>
             s.value.columns[j][i] == Finite(k * r.value.columns[j][i].v))
  {
    var r := TuningCurves(group, feature, nbBins, minmax);
    var scaled := Feature(feature.values, k * feature.rate);
    var s := TuningCurves(group, scaled, nbBins, minmax);
    RateLeavesShape(group, feature, nbBins, minmax, k);
    if r.Ok? {
      forall j, i | 0 <= j < |group| && 0 <= i < |r.value.index| && r.value.columns[j][i].Finite?
        ensures s.value.columns[j][i] == Finite(k * r.value.columns[j][i].v)
      {
        CellScaled(group, feature, nbBins, minmax, k, j, i);
      }
    }
  }

  /** The sampling rate plays no part in success, index or columns. */
  lemma RateLeavesShape(group: seq<Member>, feature: Feature, nbBins: int, minmax: Option<seq<real>>, k: real)
    ensures var r := TuningCurves(group, feature, nbBins, minmax);
      var s := TuningCurves(group, Feature(feature.values, k * feature.rate), nbBins, minmax);
      && (r.Ok? <==> s.Ok?)
      && (r.Ok? ==> s.value.index == r.value.index && s.value.keys == r.value.keys)
  {
  }

  lemma CellScaled(group: seq<Member>, feature: Feature, nbBins: int, minmax: Option<seq<real>>, k: real, j: nat, i: nat)
    requires TuningCurves(group, feature, nbBins, minmax).Ok?
    requires j < |group| && i < |TuningCurves(group, feature, nbBins, minmax).value.index|
    requires TuningCurves(group, feature, nbBins, minmax).value.columns[j][i].Finite?
    ensures var scaled := Feature(feature.values, k * feature.rate);
      && TuningCurves(group, scaled, nbBins, minmax).Ok?
      && TuningCurves(group, scaled, nbBins, minmax).value.columns[j][i]
         == Finite(k * TuningCurves(group, feature, nbBins, minmax).value.columns[j][i].v)
  {
    var scaled := Feature(feature.values, k * feature.rate);
    var bins := Edges(feature.values, minmax, 0, nbBins).value;
    var count, occupancy := Counts(group[j].aligned, bins), Counts(feature.values, bins);
    assert TuningCurves(group, feature, nbBins, minmax).value.columns[j] == Column(count, occupancy, feature.rate);
    assert TuningCurves(group, scaled, nbBins, minmax).value.columns[j] == Column(count, occupancy, k * feature.rate);
    ColumnScaled(count, occupancy, feature.rate, k, i);
  }

  /** One finite cell of a column under the rates rate and k * rate. */
  lemma ColumnScaled(count: seq<nat>, occupancy: seq<nat>, rate: real, k: real, i: nat)
    requires |count| == |occupancy| && i < |count|
    requires Column(count, occupancy, rate)[i].Finite?
    ensures Column(count, occupancy, k * rate)[i] == Finite(k * Column(count, occupancy, rate)[i].v)
  {
    ColumnCell(count, occupancy, rate, i);
    ColumnCell(count, occupancy, k * rate, i);
    if occupancy[i] > 0 {
      BinRateScaled(count[i], occupancy[i], rate, k);
    }
  }

  /** Passing the feature's own min and max as bounds gives the same table as
      inferring them. */
  lemma ExplicitBoundsReproduceInferred(group: seq<Member>, feature: Feature, nbBins: int)
    requires |feature.values| > 0
    ensures TuningCurves(group, feature, nbBins, Some([Min(feature.values), Max(feature.values)]))
         == TuningCurves(group, feature, nbBins, None)
  {
    ExplicitBoundsMatchInferred(feature.values, nbBins);
  }

  /** `count[np.isnan(count)] = 0.0`, in place. */
  method ZeroFillNaN(a: array<Value>)
    modifies a
    ensures forall i :: 0 <= i < a.Length ==> a[i] == NanToZero(old(a[i]))
  {
    var i := 0;
    while i < a.Length
      invariant 0 <= i <= a.Length
      invariant forall q :: 0 <= q < i ==> a[q] == NanToZero(old(a[q]))
      invariant forall q :: i <= q < a.Length ==> a[q] == old(a[q])
    {
      if a[i].NaN? {
        a[i] := Finite(0.0);
      }
      i := i + 1;
    }
  }

  /** compute_1d_tuning_curves: the table is filled column by column, one
      group member at a time. */
  method Compute1DTuningCurves(group: seq<Member>, feature: Feature, nbBins: int, minmax: Option<seq<real>>)
    returns (r: Result<Table>)
    ensures r == TuningCurves(group, feature, nbBins, minmax)
  {
    var edges := Edges(feature.values, minmax, 0, nbBins);
    if edges.Err? {
      return Err(edges.error);
    }
    var bins := edges.value;
    var idx := Centres(bins);
    var histogram := NpHistogram(feature.values, bins);
    if histogram.Err? {
      return Err(histogram.error);
    }
    var occupancy := histogram.value;
    var columns: seq<seq<Value>> := [];
    var j := 0;
    while j < |group|
      invariant 0 <= j <= |group|
      invariant |columns| == j
      invariant forall q :: 0 <= q < j ==> columns[q] == Column(Counts(group[q].aligned, bins), occupancy, feature.rate)
    {
      var count := Counts(group[j].aligned, bins);
      var ratio := new Value[|count|](i requires 0 <= i < |count| => Div(count[i] as real, occupancy[i] as real));
      ZeroFillNaN(ratio);
      var filled := ratio[..];
      var column := seq(|filled|, i requires 0 <= i < |filled| => Scale(filled[i], feature.rate));
      assert column == Column(count, occupancy, feature.rate);
      columns := columns + [column];
      j := j + 1;
    }
    assert columns == seq(|group|, q requires 0 <= q < |group| => Column(Counts(group[q].aligned, bins), occupancy, feature.rate));
    r := Ok(Table(idx, Keys(group), columns));
  }
}
