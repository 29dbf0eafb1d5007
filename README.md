# Tuning curves and spatial information, modelled in Dafny

This project models the numerical core of pynapple's `process/tuning_curves.py`:

- `compute_1d_tuning_curves`: each group member's firing rate in each bin of a 1-D behavioural feature. It is the member's histogram divided by the feature's own histogram (its occupancy), times the feature's sampling rate. Only the NaN of `0/0` is replaced by 0: a bin that neither the member nor the feature visited holds 0. A bin that only the member visited holds an infinity with the sign of the rate, or NaN when the rate is 0, because the infinity survives the NaN mask.
- `compute_2d_tuning_curves`: the same over a grid spanned by a two-column feature. Here the zero-fill is switched off, so unvisited cells stay NaN or infinite.
- `compute_mutual_information_1d`: the Skaggs information of each tuning-curve column, in bits per second or in bits per event.

All arithmetic is over Dafny's exact `real`. The floating-point results that the code relies on are NaN and the two infinities. They come from dividing by zero and from taking the logarithm of zero, of a negative number, of NaN or of an infinity. `Floats.Value` (`Finite(v) | NaN | Inf(positive)`) represents them, so the two masked overwrites are modelled exactly: `count[np.isnan(count)] = 0.0` and `logfx[np.isinf(logfx)] = 0.0`. The base-2 logarithm is a function parameter `log2: real -> real`. It is consulted only on positive arguments, and nothing is assumed about it except where a lemma states a requirement such as `log2(1.0) == 0.0`.

Layout, one module per concept:

| file | module | contents |
|---|---|---|
| types.dfy | `Types` | group keys, `Option`, `Result` and the exceptions the functions raise |
| floats.dfy | `Floats` | finite / NaN / infinite values with division, scaling, addition, log2 and the two masks |
| sums.dfy | `Sums` | sums of sequences |
| bins.dfy | `Bins` | `np.min`/`np.max`, `np.linspace`, bound selection, edges and centres |
| histogram.dfy | `Histogram` | `np.histogram` and `np.histogram2d` given explicit edges |
| rates.dfy | `Rates` | the rate of a bin, `count / occupancy * rate` |
| tuning_curves_1d.dfy | `TuningCurves1D` | `compute_1d_tuning_curves` |
| tuning_curves_2d.dfy | `TuningCurves2D` | `compute_2d_tuning_curves` |
| information.dfy | `Information` | `compute_mutual_information_1d` |

Each entry point has a pure specification function (`TuningCurves1D.TuningCurves`, `TuningCurves2D.TuningCurves`, `Information.MutualInformation`) and a method that follows the code's loops (`Compute1DTuningCurves`, `Compute2DTuningCurves`, `ComputeMutualInformation1D`). Each method is proved to return what its function specifies. The lemmas state the properties of those functions.

Errors are values of `Types.Error`:

- `EmptyFeature`: there are no feature samples to take the min and max of.
- `BoundsTooShort`: `minmax` has too few entries, which is an IndexError in the code.
- `NegativeBinCount`: `np.linspace` is given a negative count.
- `BinsNotIncreasing`: the `histogram` check rejects decreasing edges, which happens when the lower bound exceeds the upper bound and there are at least two edges.
- `NotTwoDimensional`: the RuntimeError at line 92.
- `NoBinEdges`: `np.histogram2d` reads the last edge of each axis, which is an IndexError when `nb_bins` is 0.

`nb_bins` counts edges, so there are `nb_bins - 1` bins. The model keeps this convention.

## Model

| member | source | states |
|---|---|---|
| Bins.Min | pynapple/process/tuning_curves.py:42 | `np.min` of a non-empty feature is one of its samples and is at most every sample |
| Bins.Max | pynapple/process/tuning_curves.py:42 | `np.max` of a non-empty feature is one of its samples and is at least every sample |
| Bins.Linspace | pynapple/process/tuning_curves.py:42-44 | `np.linspace(lo, hi, num)` has exactly `num` elements |
| Bins.LinspaceSpans | pynapple/process/tuning_curves.py:42-44 | the first edge is `lo`; with at least two edges the last is exactly `hi` |
| Bins.LinspaceOrder | pynapple/process/tuning_curves.py:42-44 | on `lo < hi` the edges strictly increase; the edges are non-decreasing exactly when there are fewer than two or `lo <= hi` |
| Bins.Centres | pynapple/process/tuning_curves.py:45 | `bins[0:-1] + np.diff(bins)/2` has one element per bin |
| Bins.CentresInsideBins | pynapple/process/tuning_curves.py:45 | on increasing edges each centre lies strictly between its two edges, and the centres increase |
| Bins.Bounds | pynapple/process/tuning_curves.py:41-44 | without `minmax` the bounds are the feature's min and max (an empty feature is an error); with `minmax` they are `minmax[at], minmax[at+1]`, and a too-short `minmax` is an error |
| Bins.Edges | pynapple/process/tuning_curves.py:41-44 | edges exist exactly when the bounds do and `nb_bins >= 0`, and there are `nb_bins` of them |
| Bins.EdgesShape | pynapple/process/tuning_curves.py:41-45 | `nb_bins` edges from lo to hi, strictly increasing on a proper range with each centre strictly inside its bin, and `nb_bins - 1` centres |
| Bins.ExplicitBoundsMatchInferred | pynapple/process/tuning_curves.py:41-44 | passing the feature's own min and max as `minmax` gives the inferred edges |
| Histogram.Counts | pynapple/process/tuning_curves.py:49 | `np.histogram` gives one count per bin |
| Histogram.NpHistogram | pynapple/process/tuning_curves.py:49 | `np.histogram` succeeds exactly on non-decreasing edges and otherwise raises the monotonicity error |
| Histogram.CountIn | pynapple/process/tuning_curves.py:49-52 | a bin's count is at most the number of samples, and an index outside the bins counts nothing |
| Histogram.CountedHasWitness | pynapple/process/tuning_curves.py:49-52 | a bin with a positive count holds one of the samples |
| Histogram.WitnessIsCounted | pynapple/process/tuning_curves.py:49-52 | a sample lying in a bin makes that bin's count positive |
| Histogram.BinUnique | pynapple/process/tuning_curves.py:49-52 | over non-decreasing edges no value lies in two bins (`InBin`: half-open bins, the last one closed) |
| Histogram.InBinInRange | pynapple/process/tuning_curves.py:49-52 | a value lying in a bin lies between the first and the last edge |
| Rates.BinRateMeaning | pynapple/process/tuning_curves.py:53-56 | `count/occupancy*rate` times the occupancy gives `count*rate`; it is non-negative for a non-negative sampling rate and equals the rate when every sample of the bin produced an event |
| Rates.BinRateScaled | pynapple/process/tuning_curves.py:56 | a bin's rate is linear in the sampling rate |
| Histogram.ExactlyOneBin | pynapple/process/tuning_curves.py:49 | a value in `[e_0, e_last]` lies in exactly one bin (half-open bins, last bin closed); a value outside lies in none |
| Histogram.HistogramTotal | pynapple/process/tuning_curves.py:49-52 | the bin counts add up to the number of in-range samples |
| Histogram.OccupiedWhereCounted | pynapple/process/tuning_curves.py:49-53 | when every aligned value is a feature sample, a bin holding an aligned value has positive occupancy |
| Histogram.Counts2D | pynapple/process/tuning_curves.py:106-117 | `np.histogram2d` gives a grid with one row per x-bin and one column per y-bin |
| Histogram.NpHistogram2D | pynapple/process/tuning_curves.py:106-117 | `np.histogram2d` succeeds exactly when both edge sequences are non-decreasing and non-empty; decreasing edges raise the monotonicity error, and otherwise an axis without edges raises the IndexError |
| Histogram.Histogram2DTotal | pynapple/process/tuning_curves.py:106-117 | the cells of the 2-D histogram add up to the number of pairs with both coordinates in range |
| Histogram.OccupiedWhereCounted2D | pynapple/process/tuning_curves.py:106-118 | when every aligned pair is a feature sample pair, a cell holding an aligned pair has positive occupancy |
| Floats.Div | pynapple/process/tuning_curves.py:53 | a non-zero divisor gives the finite quotient `x / y`; dividing by 0 gives NaN for `0/0` and otherwise an infinity with the sign of `x` |
| Floats.Scale | pynapple/process/tuning_curves.py:56 | a finite value times the rate is the finite product; an infinity times a non-zero rate is the infinity whose sign is the product of the signs; NaN exactly for NaN and for an infinity times 0 |
| Floats.DivBy | pynapple/process/tuning_curves.py:188 | a finite value over the mean rate is `Div` of the two, finite exactly for a non-zero rate; NaN stays NaN |
| Floats.Add | pynapple/process/tuning_curves.py:182 | two finite terms give their finite sum; a sum is finite exactly when both terms are, and NaN exactly when a term is NaN or the terms are opposite infinities |
| Floats.ScaleAdd | pynapple/process/tuning_curves.py:182 | multiplying a sum by a positive constant multiplies each term, on every kind of value |
| Floats.DivByScaled | pynapple/process/tuning_curves.py:188 | scaling numerator and denominator by the same positive constant leaves the quotient unchanged |
| Floats.NanToZero | pynapple/process/tuning_curves.py:54 | the NaN mask turns NaN into 0, leaves no NaN, and changes nothing else |
| Floats.InfToZero | pynapple/process/tuning_curves.py:181 | the infinity mask turns either infinity into 0, leaves no infinity, and changes nothing else |
| Floats.Log2 | pynapple/process/tuning_curves.py:180 | `np.log2` is finite exactly on finite positive arguments, where it is `log2(x)`; it is −inf at 0, +inf at +inf, and NaN for negatives, NaN and −inf |
| TuningCurves1D.Keys | pynapple/process/tuning_curves.py:47 | the columns are the group's keys in the group's order |
| TuningCurves1D.ColumnCell | pynapple/process/tuning_curves.py:52-56 | a cell of a column is `count/occupancy*rate` on an occupied bin and 0 when count and occupancy are both 0; when only the member visited the bin it is an infinity with the sign of the rate, or NaN at rate 0 |
| TuningCurves1D.TuningCurves | pynapple/process/tuning_curves.py:41-58 | succeeds exactly when the edges exist and are non-decreasing; the result has `nb_bins - 1` rows, the group's keys as columns, and one full column per member |
| TuningCurves1D.FailsExactlyWhen | pynapple/process/tuning_curves.py:41-49 | which error is raised for an empty feature, a short `minmax`, a negative `nb_bins` or reversed bounds, and that every other call succeeds |
| TuningCurves1D.CellValues | pynapple/process/tuning_curves.py:45-56 | each index entry is its bin's centre and each column is headed by its member's key; each cell follows the zero-fill rule over the two histograms, with the exact infinity or NaN where only the member visited the bin |
| TuningCurves1D.AlignedAmongSamples | pynapple/process/tuning_curves.py:49-56 | when aligned values are feature samples, every cell is finite: `count/occupancy*rate` on occupied bins, 0 elsewhere |
| TuningCurves1D.RateLinear | pynapple/process/tuning_curves.py:56 | scaling `feature.rate` by k scales every finite cell by k and leaves index, columns and success unchanged |
| TuningCurves1D.ExplicitBoundsReproduceInferred | pynapple/process/tuning_curves.py:41-44 | passing the feature's own min and max as `minmax` reproduces the inferred table |
| TuningCurves1D.ZeroFillNaN | pynapple/process/tuning_curves.py:54 | the in-place mask applies `NanToZero` to every element |
| TuningCurves1D.Compute1DTuningCurves | pynapple/process/tuning_curves.py:39-58 | the column-by-column loop returns exactly `TuningCurves` |
| TuningCurves2D.Grid | pynapple/process/tuning_curves.py:118-120 | a cell is `count/occupancy*rate` on an occupied cell, NaN when both counts are 0, and a signed infinity (NaN at rate 0) when only the member visited it; no zero-fill |
| TuningCurves2D.MemberGrid | pynapple/process/tuning_curves.py:113-120 | a member's grid has one cell per pair of bins: its own 2-D count over the occupancy times the rate where occupied, NaN where neither visited, and an infinity with the rate's sign (NaN at rate 0) where only the member did |
| TuningCurves2D.GridsOf | pynapple/process/tuning_curves.py:111-120 | the dict has exactly the group's keys, and each of its grids is `(nb_bins-1) x (nb_bins-1)` |
| TuningCurves2D.GridsOfLookup | pynapple/process/tuning_curves.py:111-120 | with distinct keys, each member's own grid is stored under its key |
| TuningCurves2D.ChannelEdges | pynapple/process/tuning_curves.py:98-104 | the channel loop yields one edge sequence per channel |
| TuningCurves2D.TuningCurves | pynapple/process/tuning_curves.py:91-124 | a feature without exactly two columns is rejected before any histogram; on success there are two centre sequences of `nb_bins - 1`, and a grid of that size per key |
| TuningCurves2D.FailsExactlyWhen | pynapple/process/tuning_curves.py:98-109 | the error order (x bounds, bin count, y bounds, then no edges at `nb_bins` 0 and the monotonicity error when either channel's bounds are reversed with two or more edges), and that every other call succeeds |
| TuningCurves2D.BoundsPerChannel | pynapple/process/tuning_curves.py:100-104 | with `minmax` the x edges are `linspace(minmax[0], minmax[1])` and the y edges `linspace(minmax[2], minmax[3])` (the `i + i%2` indexing); otherwise each channel's edges run from its own min to its own max; the centres are those of these edges |
| TuningCurves2D.StoredCell | pynapple/process/tuning_curves.py:111-120 | the cell stored under a member's key follows `Grid`'s rule over that member's histogram and the occupancy |
| TuningCurves2D.CellValues | pynapple/process/tuning_curves.py:106-120 | every cell of every member's grid is the ratio times rate where occupied, and NaN or infinite where not |
| TuningCurves2D.AlignedAmongSamples | pynapple/process/tuning_curves.py:106-120 | when aligned pairs are feature sample pairs, a cell is finite exactly when occupied and NaN otherwise |
| TuningCurves2D.ChannelBins | pynapple/process/tuning_curves.py:98-104 | the channel loop returns exactly `ChannelEdges` |
| TuningCurves2D.Compute2DTuningCurves | pynapple/process/tuning_curves.py:91-124 | the member-by-member dict fill returns exactly `TuningCurves` |
| Information.Normalised | pynapple/process/tuning_curves.py:173 | dividing a histogram by its total keeps its length |
| Information.NormalisedOccupancy | pynapple/process/tuning_curves.py:163-173 | uses `rows(tc) + 1` edges and fails exactly when the edges fail; a defined occupancy has one entry per row |
| Information.NormalisedIsDistribution | pynapple/process/tuning_curves.py:173 | a normalised histogram is non-negative and sums to 1 |
| Information.OccupancyIsDistribution | pynapple/process/tuning_curves.py:163-173 | `rows(tc) + 1` edges; the occupancy is undefined (NaN) exactly when no restricted sample is in range; otherwise each entry is the bin's share of in-range restricted samples, and the entries sum to 1 |
| Information.MeanRate | pynapple/process/tuning_curves.py:176 | `sum(fx * occupancy, 0)` of a column is non-negative for non-negative rates and occupancy, and 0 for a silent column |
| Information.MeanRates | pynapple/process/tuning_curves.py:176 | the mean rate of every column is never infinite, and is NaN exactly when the occupancy is undefined |
| Information.MeanRateWithinColumnRange | pynapple/process/tuning_curves.py:176 | over a probability vector, a column's mean rate lies between the column's smallest and largest rates |
| Information.LogRatioCases | pynapple/process/tuning_curves.py:177-180 | each log ratio is `log2(fx/fr)` where the ratio is positive, minus infinity for a zero rate over a non-zero mean, plus infinity for a positive rate over a zero mean, and NaN for `0/0` and negative ratios |
| Information.Suppressed | pynapple/process/tuning_curves.py:181 | after the mask every infinite log term is 0, every other one is unchanged, and the shape is unchanged |
| Information.InfoSum | pynapple/process/tuning_curves.py:182 | the column sum of `occupancy * fx * logfx` is finite when every log term is, and NaN when no term is infinite and one is NaN |
| Information.ColumnInformationCases | pynapple/process/tuning_curves.py:182-190 | a column with non-negative rates and a positive mean rate has finite information; an all-zero column has NaN; bits per event are never finite at a zero mean rate |
| Information.MeanRateScaled | pynapple/process/tuning_curves.py:176 | scaling the tuning curve by m scales every mean rate by m |
| Information.LogRatiosScaled | pynapple/process/tuning_curves.py:177-180 | scaling the tuning curve by m > 0 leaves every log ratio unchanged |
| Information.ColumnInformationScaled | pynapple/process/tuning_curves.py:182-190 | scaling the tuning curve by m > 0 scales a column's bits per second by m and leaves its bits per event unchanged |
| Information.MutualInformation | pynapple/process/tuning_curves.py:163-190 | succeeds exactly when the occupancy does, with one result per tuning-curve column |
| Information.PerEventIsPerSecondOverMeanRate | pynapple/process/tuning_curves.py:184-190 | bits per event equal bits per second divided by the column's mean rate; both are NaN where the occupancy is undefined |
| Information.ScalingRates | pynapple/process/tuning_curves.py:176-190 | scaling the whole tuning curve by m > 0 scales bits per second by m and leaves bits per event unchanged |
| Information.ConstantColumnCarriesNoInformation | pynapple/process/tuning_curves.py:176-190 | a column with the same positive rate in every bin has information exactly 0, given `log2(1) = 0` |
| Information.SkaggsFormula | pynapple/process/tuning_curves.py:177-190 | with non-negative rates and a positive mean rate the result is the finite sum of `p*fx*log2(fx/fr)` over bins of positive rate, divided by `fr` for bits per event |
| Information.PositiveColumnHasFiniteInformation | pynapple/process/tuning_curves.py:176-190 | a column bounded below by a positive rate has finite information in both units |
| Information.SilentColumnIsNaN | pynapple/process/tuning_curves.py:176-190 | an all-zero column yields NaN in both units, because `0/0` is NaN and the mask clears only infinities |
| Information.ZeroFillInf | pynapple/process/tuning_curves.py:181 | the in-place mask applies `InfToZero` to every cell of the matrix |
| Information.LogRatioGrid | pynapple/process/tuning_curves.py:177-180 | the log-ratio matrix holds `log2(fx/fr)` in every cell |
| Information.ComputeMutualInformation1D | pynapple/process/tuning_curves.py:163-190 | build the log ratios, mask them in place, then sum per column: the result is exactly `MutualInformation` |

## Left out

- Alignment: the code builds a `TsGroup` from a dict (lines 36-37 and 88-89) and calls `group.value_from` (lines 39 and 99). Both live in pynapple's `core` package, which is not part of this model. Each member arrives with its aligned values. `TuningCurves2D.Member` carries one value per channel per event.
- Epoch restriction: `feature.restrict(ep)` (line 172) is part of `core` too. The information function takes the restricted samples as a separate input, `restricted`. The bounds still come from the unrestricted feature, as at line 165. The 1-D tuning curve's occupancy uses the unrestricted samples (line 49).
- Logarithm: `np.log2` on positive reals is an uninterpreted parameter. Its non-finite cases are modelled explicitly.
- Floating point: there is no rounding, no signed zero and no overflow. Linspace, division and sums are exact. Feature and aligned samples are reals, so NaN feature or aligned samples are not modelled: neither the bounds taken from a feature containing NaN nor the histograms' treatment of NaN values is captured. Warning suppression (lines 178-179) has no counterpart.
- An empty feature: `np.min` of an empty pandas series gives NaN rather than raising. The model reports `EmptyFeature` instead of carrying NaN edges through the histograms.
- Edge sequences shorter than two: `np.histogram` then gives zero bins, and so does the model; `np.histogram2d` gives a 0 x 0 grid for a single edge and raises IndexError for none (`NoBinEdges`), as modelled.
- `np.histogram2d` in older numpy releases rounds before comparing a value with the last edge. The model compares exactly.
- Containers: pandas DataFrame and numpy arrays become sequences; the 2-D result dict becomes a `map`. The `tc` type dispatch at lines 156-161 is left out. Line 159 reads `type(tc is np.ndarray)`, which is always truthy. The information function takes a finite real matrix `fx` with `width` columns, and its result is indexed by column position.
- Information.MutualInformation: the tuning curve is taken to be finite reals. A tuning curve that itself holds NaN or infinities is not modelled.
- TuningCurves2D.CellValues: this lemma assumes the members' keys are distinct, as dict keys are. Without that, `GridsOf` lets a later duplicate overwrite an earlier one.
- The 2-D docstring promises an array of shape `(n, nb_bins, nb_bins)` (line 82). The code returns a dict of `(nb_bins-1) x (nb_bins-1)` grids, and the model follows the code.
- An all-zero tuning-curve column is sometimes described as carrying 0 bits. The code yields NaN, because `0/0` is NaN and only infinities are cleared. The model follows the code (`Information.SilentColumnIsNaN`).
- The 2-D path does not zero-fill unvisited cells, because line 119 is commented out. The model keeps them NaN or infinite, as the code does.
