/** compute_2d_tuning_curves (pynapple/process/tuning_curves.py:60-124): the
    firing rate of each group member per cell of a grid over a two-column
    feature. Unlike the 1-D function, cells the feature never visited are left
    non-finite (the NaN filter at line 119 is commented out). The alignment of
    each member onto the two columns (group.value_from) is not modelled: each
    member arrives with its aligned values per column. */
module TuningCurves2D {
  import opened Types
  import opened Floats
  import opened Bins
  import opened Histogram
  import opened Rates

  /** One group member: its identifier and the values of the two feature
      columns at its events (one value of each column per event). */
  datatype Member = Member(key: Key, xs: seq<real>, ys: seq<real>)

  /** A feature frame: its columns (shape[1] of them) and its sampling rate. */
  datatype Feature = Feature(channels: seq<seq<real>>, rate: real)

  /** What the function returns: the dict of grids by key, and the bin centres
      of each of the two columns. */
  datatype Curves = Curves(grids: map<Key, seq<seq<Value>>>, centres: seq<seq<real>>)

  /** Both aligned columns of each member have one value per event. */
  predicate Aligned(group: seq<Member>)
  {
    forall j :: 0 <= j < |group| ==> |group[j].xs| == |group[j].ys|
  }

  /** All columns of a frame have the same number of samples. */
  predicate Rectangular(feature: Feature)
  {
    forall c :: 0 <= c < |feature.channels| ==> |feature.channels[c]| == |feature.channels[0]|
  }

  /** Distinct members carry distinct keys, as in a TsGroup. */
  predicate DistinctKeys(group: seq<Member>)
  {
    forall a, b :: 0 <= a < b < |group| ==> group[a].key != group[b].key
  }

  /** `count / occupancy * feature.rate`, cell by cell, with no zero-fill. */
  function Grid(count: seq<seq<nat>>, occupancy: seq<seq<nat>>, rate: real): (g: seq<seq<Value>>)
    requires |count| == |occupancy|
    requires forall i :: 0 <= i < |count| ==> |count[i]| == |occupancy[i]|
    ensures |g| == |count|
    ensures forall i :: 0 <= i < |g| ==> |g[i]| == |count[i]|
    ensures forall i, l :: 0 <= i < |g| && 0 <= l < |g[i]| && occupancy[i][l] > 0 ==>
      g[i][l] == Finite(BinRate(count[i][l], occupancy[i][l], rate))
    ensures forall i, l :: 0 <= i < |g| && 0 <= l < |g[i]| && occupancy[i][l] == 0 && count[i][l] == 0 ==> g[i][l].NaN?
    ensures forall i, l :: 0 <= i < |g| && 0 <= l < |g[i]| && occupancy[i][l] == 0 && count[i][l] > 0 ==>
      g[i][l] == if rate == 0.0 then NaN else Inf(rate > 0.0)
  {
    seq(|count|, i requires 0 <= i < |count| =>
      seq(|count[i]|, l requires 0 <= l < |count[i]| => Scale(Div(count[i][l] as real, occupancy[i][l] as real), rate)))
  }

  /** The grid of one member over the given edges and occupancy. */
  function MemberGrid(m: Member, ex: seq<real>, ey: seq<real>, occupancy: seq<seq<nat>>, rate: real): (g: seq<seq<Value>>)
    requires |m.xs| == |m.ys|
    requires |occupancy| == NumBins(ex) && forall i :: 0 <= i < |occupancy| ==> |occupancy[i]| == NumBins(ey)
    ensures |g| == NumBins(ex) && forall i :: 0 <= i < |g| ==> |g[i]| == NumBins(ey)
    ensures forall i, l :: 0 <= i < |g| && 0 <= l < |g[i]| ==>
      var count := CountIn2(m.xs, m.ys, ex, ey, i, l);
      && (occupancy[i][l] > 0 ==> g[i][l] == Finite(BinRate(count, occupancy[i][l], rate)))
      && (occupancy[i][l] == 0 && count == 0 ==> g[i][l].NaN?)
      && (occupancy[i][l] == 0 && count > 0 ==> g[i][l] == if rate == 0.0 then NaN else Inf(rate > 0.0))
  {
    Grid(Counts2D(m.xs, m.ys, ex, ey), occupancy, rate)
  }

  /** The dict `tc` after inserting the members' grids in group order; a later
      key overwrites an earlier one, as in a Python dict. */
  function GridsOf(group: seq<Member>, ex: seq<real>, ey: seq<real>, occupancy: seq<seq<nat>>, rate: real)
    : (tc: map<Key, seq<seq<Value>>>)
    requires Aligned(group)
    requires |occupancy| == NumBins(ex) && forall i :: 0 <= i < |occupancy| ==> |occupancy[i]| == NumBins(ey)
    ensures tc.Keys == set j | 0 <= j < |group| :: group[j].key
    ensures forall k :: k in tc ==> |tc[k]| == NumBins(ex) && forall i :: 0 <= i < |tc[k]| ==> |tc[k][i]| == NumBins(ey)
  {
    if group == [] then map[]
    else
      var m := group[|group| - 1];
      var init := group[..|group| - 1];
      assert forall j :: 0 <= j < |init| ==> init[j] == group[j];
      GridsOf(init, ex, ey, occupancy, rate)[m.key := MemberGrid(m, ex, ey, occupancy, rate)]
  }

  /** With distinct keys every member's grid is the one stored under its key. */
  lemma {:induction false} GridsOfLookup(group: seq<Member>, ex: seq<real>, ey: seq<real>, occupancy: seq<seq<nat>>, rate: real, j: nat)
    requires Aligned(group) && DistinctKeys(group) && j < |group|
    requires |occupancy| == NumBins(ex) && forall i :: 0 <= i < |occupancy| ==> |occupancy[i]| == NumBins(ey)
    ensures GridsOf(group, ex, ey, occupancy, rate)[group[j].key] == MemberGrid(group[j], ex, ey, occupancy, rate)
  {
    var init := group[..|group| - 1];
    if j < |group| - 1 {
      assert init[j] == group[j];
      GridsOfLookup(init, ex, ey, occupancy, rate, j);
    }
  }

  /** The edges of both columns, built as the loop at lines 98-104 does: column
      i takes its bounds from minmax[i + i % 2] and minmax[i + 1 + i % 2]. */
  function ChannelEdges(feature: Feature, nbBins: int, minmax: Option<seq<real>>): (r: Result<seq<seq<real>>>)
    requires |feature.channels| == 2
    ensures r.Ok? ==> |r.value| == 2
  {
    var ex :- Edges(feature.channels[0], minmax, 0 + 0 % 2, nbBins);
    var ey :- Edges(feature.channels[1], minmax, 1 + 1 % 2, nbBins);
    Ok([ex, ey])
  }

  /** What compute_2d_tuning_curves returns, or the error it raises. */
  function TuningCurves(group: seq<Member>, feature: Feature, nbBins: int, minmax: Option<seq<real>>): (r: Result<Curves>)
    requires Aligned(group) && Rectangular(feature)
    ensures |feature.channels| != 2 ==> r == Err(NotTwoDimensional)
    ensures r.Ok? ==>
      && |r.value.centres| == 2
      && (forall c :: 0 <= c < 2 ==> |r.value.centres[c]| == nbBins - 1)
      && r.value.grids.Keys == (set j | 0 <= j < |group| :: group[j].key)
      && forall k :: k in r.value.grids ==>
           |r.value.grids[k]| == |r.value.centres[0]| &&
           forall i :: 0 <= i < |r.value.grids[k]| ==> |r.value.grids[k][i]| == |r.value.centres[1]|
  {
    if |feature.channels| != 2 then Err(NotTwoDimensional)
    else
      var binsxy :- ChannelEdges(feature, nbBins, minmax);
      var occupancy :- NpHistogram2D(feature.channels[0], feature.channels[1], binsxy[0], binsxy[1]);
      Ok(Curves(GridsOf(group, binsxy[0], binsxy[1], occupancy, feature.rate), [Centres(binsxy[0]), Centres(binsxy[1])]))
  }

  /** The call fails exactly when the feature does not have two columns, the
      bounds of a column cannot be formed, nb_bins is negative, a column's
      edges would decrease, or nb_bins is 0; the checks come in that order. */
  lemma FailsExactlyWhen(group: seq<Member>, feature: Feature, nbBins: int, minmax: Option<seq<real>>)
    requires Aligned(group) && Rectangular(feature)
    requires |feature.channels| == 2
    ensures var r := TuningCurves(group, feature, nbBins, minmax);
      var b0 := Bounds(feature.channels[0], minmax, 0);
      var b1 := Bounds(feature.channels[1], minmax, 2);
      && (b0.Err? ==> r == Err(b0.error))
      && (b0.Ok? && nbBins < 0 ==> r == Err(NegativeBinCount))
      && (b0.Ok? && nbBins >= 0 && b1.Err? ==> r == Err(b1.error))
      && (b0.Ok? && b1.Ok? && nbBins == 0 ==> r == Err(NoBinEdges))
      && (b0.Ok? && b1.Ok? && nbBins >= 2 && (b0.value.0 > b0.value.1 || b1.value.0 > b1.value.1) ==> r == Err(BinsNotIncreasing))
      && (r.Ok? <==> b0.Ok? && b1.Ok? && nbBins >= 1 &&
                     (nbBins < 2 || (b0.value.0 <= b0.value.1 && b1.value.0 <= b1.value.1)))
  {
    var b0 := Bounds(feature.channels[0], minmax, 0);
    var b1 := Bounds(feature.channels[1], minmax, 2);
    if b0.Ok? && b1.Ok? && nbBins >= 0 {
      LinspaceOrder(b0.value.0, b0.value.1, nbBins);
      LinspaceOrder(b1.value.0, b1.value.1, nbBins);
    }
  }

  /** With caller bounds the first column spans minmax[0]..minmax[1] and the
      second minmax[2]..minmax[3]; otherwise each spans its own min..max. */
  lemma BoundsPerChannel(group: seq<Member>, feature: Feature, nbBins: int, minmax: Option<seq<real>>)
    requires Aligned(group) && Rectangular(feature)
    requires TuningCurves(group, feature, nbBins, minmax).Ok?
    ensures var r := TuningCurves(group, feature, nbBins, minmax).value;
      && (minmax.Some? ==>
           && |minmax.value| >= 4
           && r.centres[0] == Centres(Linspace(minmax.value[0], minmax.value[1], nbBins))
           && r.centres[1] == Centres(Linspace(minmax.value[2], minmax.value[3], nbBins)))
      && (minmax.None? ==>
           && r.centres[0] == Centres(Linspace(Min(feature.channels[0]), Max(feature.channels[0]), nbBins))
           && r.centres[1] == Centres(Linspace(Min(feature.channels[1]), Max(feature.channels[1]), nbBins)))
    ensures ChannelEdges(feature, nbBins, minmax).Ok?
    ensures var binsxy := ChannelEdges(feature, nbBins, minmax).value;
      && (minmax.Some? ==>
           binsxy == [Linspace(minmax.value[0], minmax.value[1], nbBins), Linspace(minmax.value[2], minmax.value[3], nbBins)])
      && (minmax.None? ==>
           binsxy == [Linspace(Min(feature.channels[0]), Max(feature.channels[0]), nbBins),
                      Linspace(Min(feature.channels[1]), Max(feature.channels[1]), nbBins)])
  {
  }

  /** The cells of a member's stored grid, in terms of the two histograms. */
  lemma StoredCell(group: seq<Member>, ex: seq<real>, ey: seq<real>, fx: seq<real>, fy: seq<real>, rate: real, j: nat, i: nat, l: nat)
    requires Aligned(group) && DistinctKeys(group) && j < |group|
    requires |fx| == |fy| && i < NumBins(ex) && l < NumBins(ey)
    ensures var cell := GridsOf(group, ex, ey, Counts2D(fx, fy, ex, ey), rate)[group[j].key][i][l];
      var count := CountIn2(group[j].xs, group[j].ys, ex, ey, i, l);
      var occupancy := CountIn2(fx, fy, ex, ey, i, l);
      && (occupancy > 0 ==> cell == Finite(BinRate(count, occupancy, rate)))
      && (occupancy == 0 && count == 0 ==> cell.NaN?)
      && (occupancy == 0 && count > 0 ==> cell == if rate == 0.0 then NaN else Inf(rate > 0.0))
  {
    var occupancy := Counts2D(fx, fy, ex, ey);
    var tc := GridsOf(group, ex, ey, occupancy, rate);
    assert group[j].key in tc;
    GridsOfLookup(group, ex, ey, occupancy, rate, j);
    var count := Counts2D(group[j].xs, group[j].ys, ex, ey);
    var g := Grid(count, occupancy, rate);
    assert tc[group[j].key] == g;
    assert count[i][l] == CountIn2(group[j].xs, group[j].ys, ex, ey, i, l);
    assert occupancy[i][l] == CountIn2(fx, fy, ex, ey, i, l);
  }

  /** Each member's grid, under its key, holds count / occupancy * rate where
      the feature visited the cell and a NaN or an infinity where it did not. */
  lemma CellValues(group: seq<Member>, feature: Feature, nbBins: int, minmax: Option<seq<real>>, j: nat, i: nat, l: nat)
    requires Aligned(group) && Rectangular(feature) && DistinctKeys(group)
    requires TuningCurves(group, feature, nbBins, minmax).Ok?
    requires j < |group|
    requires i < |TuningCurves(group, feature, nbBins, minmax).value.centres[0]|
    requires l < |TuningCurves(group, feature, nbBins, minmax).value.centres[1]|
    ensures var r := TuningCurves(group, feature, nbBins, minmax).value;
      var binsxy := ChannelEdges(feature, nbBins, minmax).value;
      var count := CountIn2(group[j].xs, group[j].ys, binsxy[0], binsxy[1], i, l);
      var occupancy := CountIn2(feature.channels[0], feature.channels[1], binsxy[0], binsxy[1], i, l);
      var cell := r.grids[group[j].key][i][l];
      && (occupancy > 0 ==> cell == Finite(BinRate(count, occupancy, feature.rate)))
      && (occupancy == 0 && count == 0 ==> cell.NaN?)
      && (occupancy == 0 && count > 0 ==> cell == if feature.rate == 0.0 then NaN else Inf(feature.rate > 0.0))
  {
    var r := TuningCurves(group, feature, nbBins, minmax).value;
    var binsxy := ChannelEdges(feature, nbBins, minmax).value;
    var ex, ey := binsxy[0], binsxy[1];
    var occupancy := Counts2D(feature.channels[0], feature.channels[1], ex, ey);
    assert NpHistogram2D(feature.channels[0], feature.channels[1], ex, ey) == Ok(occupancy);
    assert r == Curves(GridsOf(group, ex, ey, occupancy, feature.rate), [Centres(ex), Centres(ey)]);
    assert i < NumBins(ex) && l < NumBins(ey);
    assert |feature.channels[0]| == |feature.channels[1]|;
    StoredCell(group, ex, ey, feature.channels[0], feature.channels[1], feature.rate, j, i, l);
  }

  /** When every aligned pair is one of the feature's sample pairs, a cell is
      finite exactly when the feature visited it, and NaN otherwise. */
  lemma AlignedAmongSamples(group: seq<Member>, feature: Feature, nbBins: int, minmax: Option<seq<real>>, j: nat, i: nat, l: nat)
    requires Aligned(group) && Rectangular(feature) && DistinctKeys(group)
    requires |feature.channels| == 2
    requires forall q :: 0 <= q < |group| ==>
      PairsAmong(group[q].xs, group[q].ys, feature.channels[0], feature.channels[1])
    requires TuningCurves(group, feature, nbBins, minmax).Ok?
    requires j < |group|
    requires i < |TuningCurves(group, feature, nbBins, minmax).value.centres[0]|
    requires l < |TuningCurves(group, feature, nbBins, minmax).value.centres[1]|
    ensures var r := TuningCurves(group, feature, nbBins, minmax).value;
      var binsxy := ChannelEdges(feature, nbBins, minmax).value;
      var occupancy := CountIn2(feature.channels[0], feature.channels[1], binsxy[0], binsxy[1], i, l);
      && (r.grids[group[j].key][i][l].Finite? <==> occupancy > 0)
      && (occupancy == 0 ==> r.grids[group[j].key][i][l].NaN?)
  {
    var binsxy := ChannelEdges(feature, nbBins, minmax).value;
    CellValues(group, feature, nbBins, minmax, j, i, l);
    if CountIn2(group[j].xs, group[j].ys, binsxy[0], binsxy[1], i, l) > 0 {
      OccupiedWhereCounted2D(group[j].xs, group[j].ys, feature.channels[0], feature.channels[1], binsxy[0], binsxy[1], i, l);
    }
  }

  /** The channel loop at lines 98-104: the edges of each column in turn. */
  method ChannelBins(feature: Feature, nbBins: int, minmax: Option<seq<real>>) returns (r: Result<seq<seq<real>>>)
    requires |feature.channels| == 2
    ensures r == ChannelEdges(feature, nbBins, minmax)
  {
    var binsxy: seq<seq<real>> := [];
    for i := 0 to 2
      invariant |binsxy| == i
      invariant forall q :: 0 <= q < i ==> Edges(feature.channels[q], minmax, q + q % 2, nbBins) == Ok(binsxy[q])
    {
      var bins := Edges(feature.channels[i], minmax, i + i % 2, nbBins);
      if bins.Err? {
        return Err(bins.error);
      }
      binsxy := binsxy + [bins.value];
    }
    assert binsxy == [binsxy[0], binsxy[1]];
    r := Ok(binsxy);
  }

  /** compute_2d_tuning_curves: the dict of grids is filled one member at a time. */
  method Compute2DTuningCurves(group: seq<Member>, feature: Feature, nbBins: int, minmax: Option<seq<real>>)
    returns (r: Result<Curves>)
    requires Aligned(group) && Rectangular(feature)
    ensures r == TuningCurves(group, feature, nbBins, minmax)
  {
    if |feature.channels| != 2 {
      return Err(NotTwoDimensional);
    }
    var binsxy := ChannelBins(feature, nbBins, minmax);
    if binsxy.Err? {
      return Err(binsxy.error);
    }
    var ex, ey := binsxy.value[0], binsxy.value[1];
    var histogram := NpHistogram2D(feature.channels[0], feature.channels[1], ex, ey);
    if histogram.Err? {
      return Err(histogram.error);
    }
    var occupancy := histogram.value;
    var tc: map<Key, seq<seq<Value>>> := map[];
    for j := 0 to |group|
      invariant tc == GridsOf(group[..j], ex, ey, occupancy, feature.rate)
    {
      var count := Counts2D(group[j].xs, group[j].ys, ex, ey);
      assert group[..j + 1][..j] == group[..j];
      tc := tc[group[j].key := Grid(count, occupancy, feature.rate)];
    }
    assert group[..|group|] == group;
    r := Ok(Curves(tc, [Centres(ex), Centres(ey)]));
  }
}
