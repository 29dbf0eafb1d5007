/** The firing rate of a bin, `count / occupancy * feature.rate`, shared by the
    1-D and 2-D tuning curves (pynapple/process/tuning_curves.py:53-56 and 118-120). */
module Rates {

  /** The normalised rate of a bin: `count / occupancy * rate`. */
  function BinRate(count: nat, occupancy: nat, rate: real): real
    requires occupancy > 0
  {
    count as real / occupancy as real * rate
  }

  /** The rate of a bin is the rate at which its occupancy would yield its
      count: non-negative for a non-negative sampling rate, and the sampling
      rate itself when every sample of the bin produced an event. */
  lemma BinRateMeaning(count: nat, occupancy: nat, rate: real)
    requires occupancy > 0
    ensures BinRate(count, occupancy, rate) * occupancy as real == count as real * rate
    ensures rate >= 0.0 ==> BinRate(count, occupancy, rate) >= 0.0
    ensures count == occupancy ==> BinRate(count, occupancy, rate) == rate
  {
    var share := count as real / occupancy as real;
    assert share * occupancy as real == count as real;
    assert share >= 0.0 && (rate >= 0.0 ==> share * rate >= 0.0);
    if count == occupancy {
      assert share == 1.0;
    }
  }

  /** The rate of a bin is linear in the sampling rate. */
  lemma BinRateScaled(count: nat, occupancy: nat, rate: real, k: real)
    requires occupancy > 0
    ensures BinRate(count, occupancy, k * rate) == k * BinRate(count, occupancy, rate)
  {
    var q := count as real / occupancy as real;
    assert q * (k * rate) == k * (q * rate);
  }
}
