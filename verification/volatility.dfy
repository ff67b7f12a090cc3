/** `VolatilityToolkit.calculate_roc`: the annualised return on the capital one
    contract ties up. */
module Volatility {
  import opened Results
  import opened Numeric

  /** Shares per contract, as the capital formula uses it. */
  const SharesPerContract: real := 100.0
  const DaysPerYear: real := 365.0

  /** The annualised yield before rounding, defined when strike and days are non-zero. */
  function AnnualizedYield(premium: real, strike: real, daysToExpiry: int): real
    requires strike != 0.0 && daysToExpiry != 0
  {
    premium / strike * (DaysPerYear / daysToExpiry as real)
  }

  /** `round((premium * 100) / (strike * 100) * (365 / days_to_expiry), 3)`; a zero
      strike or a zero day count raises `ZeroDivisionError`. */
  function CalculateRoc(premium: real, strike: real, daysToExpiry: int): (r: Result<real>)
    ensures r.Err? <==> strike == 0.0 || daysToExpiry == 0
    ensures r.Err? ==> r.error == ZeroDivisionError
    ensures r.Ok? ==> -0.0005 <= r.value - AnnualizedYield(premium, strike, daysToExpiry) <= 0.0005
    ensures r.Ok? ==> r.value == RoundTo(AnnualizedYield(premium, strike, daysToExpiry), 1000)
  {
    var capital := strike * SharesPerContract;
    if capital == 0.0 then Err(ZeroDivisionError)
    else if daysToExpiry == 0 then Err(ZeroDivisionError)
    else
      var annual := (premium * SharesPerContract) / capital * (DaysPerYear / daysToExpiry as real);
      assert annual == AnnualizedYield(premium, strike, daysToExpiry) by {
        CancelFactor(premium, strike, SharesPerContract);
      }
      assert -0.0005 <= RoundTo(annual, 1000) - annual <= 0.0005 by {
        assert 0.5 / 1000 as real == 0.0005;
      }
      Ok(RoundTo(annual, 1000))
  }

  lemma CancelFactor(a: real, b: real, c: real)
    requires b != 0.0 && c != 0.0
    ensures (a * c) / (b * c) == a / b
  {
  }

  lemma CancelLeft(a: real, b: real)
    requires b != 0.0
    ensures (b * a) / b == a
  {
  }

  /** The caller passes `strike * yield` as the premium, so the strike cancels: the
      return on capital depends only on the yield and the days to expiry. */
  lemma RocOfYield(yieldToStrike: real, strike: real, daysToExpiry: int)
    requires strike != 0.0 && daysToExpiry != 0
    ensures CalculateRoc(strike * yieldToStrike, strike, daysToExpiry)
            == Ok(RoundTo(yieldToStrike * (DaysPerYear / daysToExpiry as real), 1000))
  {
    CancelLeft(yieldToStrike, strike);
    assert AnnualizedYield(strike * yieldToStrike, strike, daysToExpiry)
        == yieldToStrike * (DaysPerYear / daysToExpiry as real);
  }

  /** With a positive strike and day count, a larger premium never lowers the result. */
  lemma RocMonotoneInPremium(p1: real, p2: real, strike: real, daysToExpiry: int)
    requires strike > 0.0 && daysToExpiry > 0 && p1 <= p2
    ensures CalculateRoc(p1, strike, daysToExpiry).value <= CalculateRoc(p2, strike, daysToExpiry).value
  {
    var f := DaysPerYear / daysToExpiry as real;
    DivideMonotone(p1, p2, strike);
    DivideMonotone(0.0, DaysPerYear, daysToExpiry as real);
    MultiplyMonotone(p1 / strike, p2 / strike, f);
    RoundToMonotone(AnnualizedYield(p1, strike, daysToExpiry), AnnualizedYield(p2, strike, daysToExpiry), 1000);
  }

  /** With a non-negative premium and a positive strike, a longer time to expiry
      never raises the result. */
  lemma RocAntitoneInDays(premium: real, strike: real, d1: int, d2: int)
    requires premium >= 0.0 && strike > 0.0 && 0 < d1 <= d2
    ensures CalculateRoc(premium, strike, d2).value <= CalculateRoc(premium, strike, d1).value
  {
    var y := premium / strike;
    DivideMonotone(0.0, premium, strike);
    DivideAntitone(DaysPerYear, d1 as real, d2 as real);
    MultiplyMonotone(DaysPerYear / d2 as real, DaysPerYear / d1 as real, y);
    RoundToMonotone(AnnualizedYield(premium, strike, d2), AnnualizedYield(premium, strike, d1), 1000);
  }

  lemma DivideAntitone(a: real, c1: real, c2: real)
    requires a >= 0.0 && 0.0 < c1 <= c2
    ensures a / c2 <= a / c1
  {
    assert a / c2 * c2 == a;
    assert a / c1 * c1 == a;
    assert a / c2 * c1 <= a / c2 * c2;
  }

  /** A zero premium earns 0 whatever the strike and days. */
  lemma RocOfZeroPremium(strike: real, daysToExpiry: int)
    requires strike != 0.0 && daysToExpiry != 0
    ensures CalculateRoc(0.0, strike, daysToExpiry) == Ok(0.0)
  {
    RoundToOfInt(0, 1000);
  }
}
