/** `TradeSignalFeatures.compute_rsi`: the relative strength index of a price history
    over the first `period` daily changes, with plain (not smoothed) averages. */
module Signals {
  import opened Numeric

  /** The `period` argument `compute_rsi` uses when none is passed. */
  const DefaultRsiPeriod: nat := 14

  /** `np.diff(prices)`: the change from each price to the next. */
  function Diffs(prices: seq<real>): (d: seq<real>)
    ensures |prices| >= 1 ==> |d| == |prices| - 1
    ensures |prices| == 0 ==> d == []
    ensures forall k :: 0 <= k < |d| ==> d[k] == prices[k + 1] - prices[k]
  {
    if |prices| <= 1 then [] else [prices[1] - prices[0]] + Diffs(prices[1..])
  }

  /** The part of a change counted as a gain (`seed >= 0`) or a loss (`seed < 0`). */
  function Gain(d: real): real { if d >= 0.0 then d else 0.0 }
  function Loss(d: real): real { if d < 0.0 then -d else 0.0 }
  function Identity(d: real): real { d }

  /** `deltas[:period]`: the first `period` changes, or all of them when there are fewer. */
  function Seed(prices: seq<real>, period: nat): (s: seq<real>)
    ensures |s| <= period
    ensures |s| <= |Diffs(prices)| && s == Diffs(prices)[..|s|]
    ensures |s| < period ==> s == Diffs(prices)
  {
    var d := Diffs(prices);
    if period <= |d| then d[..period] else d
  }

  /** Average gain and average loss over the seed, both divided by the full period. */
  function AverageGain(prices: seq<real>, period: nat): real
    requires period > 0
  {
    SumOf(Seed(prices, period), Gain) / period as real
  }

  function AverageLoss(prices: seq<real>, period: nat): real
    requires period > 0
  {
    SumOf(Seed(prices, period), Loss) / period as real
  }

  lemma {:induction false} GainsNonNegative(s: seq<real>)
    ensures SumOf(s, Gain) >= 0.0 && SumOf(s, Loss) >= 0.0
  {
    if |s| > 0 {
      GainsNonNegative(s[1..]);
    }
  }

  /** A loss sum is zero only when no change in the seed is negative. */
  lemma {:induction false} NoLossesIffNoDrop(s: seq<real>)
    ensures SumOf(s, Loss) == 0.0 <==> forall k :: 0 <= k < |s| ==> s[k] >= 0.0
  {
    if |s| > 0 {
      NoLossesIffNoDrop(s[1..]);
      GainsNonNegative(s[1..]);
      assert forall k :: 1 <= k < |s| ==> s[k] == s[1..][k - 1];
    }
  }

  /** `compute_rsi` as written: `rs` is taken as 0 when there is no loss in the seed,
      so a history with no drop at all has an RSI of 0. */
  function ComputeRsi(prices: seq<real>, period: nat): (r: real)
    requires period > 0
    ensures 0.0 <= r < 100.0
    ensures AverageLoss(prices, period) == 0.0 ==> r == 0.0
    ensures AverageLoss(prices, period) != 0.0 ==>
              r * (AverageGain(prices, period) + AverageLoss(prices, period)) == 100.0 * AverageGain(prices, period)
  {
    var up := AverageGain(prices, period);
    var down := AverageLoss(prices, period);
    GainsNonNegative(Seed(prices, period));
    DivideNonNegative(SumOf(Seed(prices, period), Gain), period as real);
    DivideNonNegative(SumOf(Seed(prices, period), Loss), period as real);
    var rs := if down != 0.0 then up / down else 0.0;
    assert rs >= 0.0 by {
      if down != 0.0 {
        DivideNonNegative(up, down);
      }
    }
    var r := 100.0 - 100.0 / (1.0 + rs);
    assert down != 0.0 ==> r * (up + down) == 100.0 * up by {
      if down != 0.0 {
        RsiIdentity(up, down);
      }
    }
    r
  }

  lemma DivideNonNegative(a: real, b: real)
    requires a >= 0.0 && b > 0.0
    ensures a / b >= 0.0
  {
  }

  /** `100 - 100 / (1 + up / down)` is `100 * up / (up + down)`. */
  lemma RsiIdentity(up: real, down: real)
    requires up >= 0.0 && down > 0.0
    ensures (100.0 - 100.0 / (1.0 + up / down)) * (up + down) == 100.0 * up
  {
    var rs := up / down;
    assert rs * down == up;
    assert (1.0 + rs) * down == up + down;
    var q := 100.0 / (1.0 + rs);
    assert q * (1.0 + rs) == 100.0;
    assert q * (up + down) == q * (1.0 + rs) * down;
  }

  /** The RSI reads only the first `period + 1` prices. */
  lemma RsiUsesOnlyWindow(prices: seq<real>, period: nat)
    requires period > 0 && |prices| > period
    ensures ComputeRsi(prices, period) == ComputeRsi(prices[..period + 1], period)
  {
    SeedIsPrefixDiffs(prices, period);
    var d := Diffs(prices[..period + 1]);
    assert d[..period] == d;
    assert Seed(prices, period) == Seed(prices[..period + 1], period);
  }

  /** A history with no drop in its first `period` changes has an RSI of 0 as written,
      however much it rose: here two rises of 1.0 over a period of 2. */
  lemma RisingHistoryReadsZero()
    ensures Seed([1.0, 2.0, 3.0], 2) == [1.0, 1.0]
    ensures ComputeRsi([1.0, 2.0, 3.0], 2) == 0.0
  {
    assert Diffs([1.0, 2.0, 3.0]) == [1.0, 1.0];
    NoLossesIffNoDrop([1.0, 1.0]);
  }

  /** The RSI with the conventional reading of a seed without losses: 100 when
      prices rose, and 0 (as written) for a flat history. */
  function ComputeRsiCorrected(prices: seq<real>, period: nat): (r: real)
    requires period > 0
    ensures 0.0 <= r <= 100.0
    ensures AverageGain(prices, period) + AverageLoss(prices, period) > 0.0 ==>
              r * (AverageGain(prices, period) + AverageLoss(prices, period)) == 100.0 * AverageGain(prices, period)
    ensures r == 100.0 <==> AverageLoss(prices, period) == 0.0 && AverageGain(prices, period) > 0.0
    ensures AverageLoss(prices, period) != 0.0 ==> r == ComputeRsi(prices, period)
  {
    var up := AverageGain(prices, period);
    var down := AverageLoss(prices, period);
    if down != 0.0 then ComputeRsi(prices, period)
    else if up > 0.0 then 100.0
    else 0.0
  }

  /** Gains minus losses over a seed is the net change it covers. */
  lemma {:induction false} GainMinusLoss(s: seq<real>)
    ensures SumOf(s, Gain) - SumOf(s, Loss) == SumOf(s, Identity)
  {
    if |s| > 0 {
      GainMinusLoss(s[1..]);
    }
  }

  /** The changes of a history add up to its last price minus its first. */
  lemma {:induction false} DiffsTelescope(prices: seq<real>)
    requires |prices| >= 1
    ensures SumOf(Diffs(prices), Identity) == prices[|prices| - 1] - prices[0]
  {
    if |prices| > 1 {
      var rest := prices[1..];
      DiffsTelescope(rest);
      assert Diffs(prices) == [prices[1] - prices[0]] + Diffs(rest);
      assert rest[|rest| - 1] == prices[|prices| - 1];
    }
  }

  /** The seed of a history is the change sequence of its first `m + 1` prices,
      `m = min(period, len(prices) - 1)`. */
  lemma {:induction false} SeedIsPrefixDiffs(prices: seq<real>, m: nat)
    requires m < |prices|
    ensures Diffs(prices)[..m] == Diffs(prices[..m + 1])
  {
    if m > 0 {
      SeedIsPrefixDiffs(prices[1..], m - 1);
      assert prices[1..][..m] == prices[..m + 1][1..];
    }
  }

  /** Average gain minus average loss is the net move over the seed divided by the period. */
  lemma NetMove(prices: seq<real>, period: nat)
    requires period > 0 && |prices| >= 1
    ensures var m := if period < |prices| then period else |prices| - 1;
            AverageGain(prices, period) - AverageLoss(prices, period) == (prices[m] - prices[0]) / period as real
  {
    var m := if period < |prices| then period else |prices| - 1;
    var s := Seed(prices, period);
    assert |s| == m;
    SeedIsPrefixDiffs(prices, m);
    GainMinusLoss(s);
    DiffsTelescope(prices[..m + 1]);
    assert SumOf(s, Identity) == prices[m] - prices[0];
    DivideDifference(SumOf(s, Gain), SumOf(s, Loss), period as real);
  }

  lemma DivideDifference(a: real, b: real, c: real)
    requires c > 0.0
    ensures a / c - b / c == (a - b) / c
  {
  }
}
