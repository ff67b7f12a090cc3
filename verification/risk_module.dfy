/** The capital-risk adjustment: a penalty for trades whose assignment would use more
    than the capital left after a safety buffer, the score it is subtracted from, a
    per-trade allocation cap, and the batch evaluation that combines them. */
module RiskModule {
  import opened Results
  import Numeric

  datatype Trade = Trade(
    strike: real,
    delta: real,
    premium: real,
    underlyingPrice: real,
    shares: int,
    requiredCapital: real)

  const DefaultCapitalBuffer: real := 0.2
  const DefaultMaxAllocationPercent: real := 0.1

  /** `Trade(...)`: when no required capital is given it is the assignment cost `strike * shares`. */
  function NewTrade(strike: real, delta: real, premium: real, underlyingPrice: real, shares: int,
                    requiredCapital: Option<real>): (t: Trade)
    ensures t.strike == strike && t.delta == delta && t.premium == premium
    ensures t.underlyingPrice == underlyingPrice && t.shares == shares
    ensures requiredCapital.Some? ==> t.requiredCapital == requiredCapital.value
    ensures requiredCapital.None? ==> t.requiredCapital == strike * shares as real
  {
    Trade(strike, delta, premium, underlyingPrice, shares, requiredCapital.GetOr(strike * shares as real))
  }

  /** The capital that may be committed once the buffer fraction is held back. */
  function AllowedCapital(availableCapital: real, capitalBuffer: real): real
  {
    availableCapital * (1.0 - capitalBuffer)
  }

  /** `calculate_assignment_risk_penalty`. The trade is read only through its
      `required_capital`, so that is what the model takes. Dividing by an allowed
      capital of zero raises. */
  function CalculateAssignmentRiskPenalty(requiredCapital: real, availableCapital: real, capitalBuffer: real)
    : (r: Result<real>)
    ensures var allowed := AllowedCapital(availableCapital, capitalBuffer);
            && (r.Err? <==> requiredCapital > allowed && allowed == 0.0)
            && (r.Err? ==> r.error == ZeroDivisionError)
            && (requiredCapital <= allowed ==> r == Ok(0.0))
            && (r.Ok? && requiredCapital > allowed ==> r.value * allowed == 10.0 * (requiredCapital - allowed))
            && (allowed > 0.0 ==> r.Ok? && r.value >= 0.0)
  {
    var allowed := AllowedCapital(availableCapital, capitalBuffer);
    if requiredCapital > allowed then
      if allowed == 0.0 then Err(ZeroDivisionError)
      else Ok((requiredCapital - allowed) / allowed * 10.0)
    else Ok(0.0)
  }

  /** With a positive allowed capital the penalty never decreases as the required
      capital grows, and strictly increases once it is above the allowed amount. */
  lemma PenaltyMonotone(r1: real, r2: real, availableCapital: real, capitalBuffer: real)
    requires AllowedCapital(availableCapital, capitalBuffer) > 0.0
    requires r1 <= r2
    ensures CalculateAssignmentRiskPenalty(r1, availableCapital, capitalBuffer).value
            <= CalculateAssignmentRiskPenalty(r2, availableCapital, capitalBuffer).value
    ensures r1 > AllowedCapital(availableCapital, capitalBuffer) && r1 < r2 ==>
              CalculateAssignmentRiskPenalty(r1, availableCapital, capitalBuffer).value
              < CalculateAssignmentRiskPenalty(r2, availableCapital, capitalBuffer).value
  {
    var a := AllowedCapital(availableCapital, capitalBuffer);
    if r1 > a {
      assert (r1 - a) / a <= (r2 - a) / a;
      assert r1 < r2 ==> (r1 - a) / a < (r2 - a) / a;
    }
  }

  /** `adjust_trade_score`: the base score less the penalty. */
  function AdjustTradeScore(baseScore: real, requiredCapital: real, availableCapital: real, capitalBuffer: real)
    : (r: Result<real>)
    ensures var p := CalculateAssignmentRiskPenalty(requiredCapital, availableCapital, capitalBuffer);
            && (r.Ok? <==> p.Ok?)
            && (r.Err? ==> r.error == p.error)
            && (r.Ok? ==> r.value + p.value == baseScore)
    ensures AllowedCapital(availableCapital, capitalBuffer) > 0.0 ==> r.Ok? && r.value <= baseScore
    ensures requiredCapital <= AllowedCapital(availableCapital, capitalBuffer) ==> r == Ok(baseScore)
  {
    match CalculateAssignmentRiskPenalty(requiredCapital, availableCapital, capitalBuffer)
    case Ok(penalty) => Ok(baseScore - penalty)
    case Err(e) => Err(e)
  }

  /** `compute_allocation_size`: a fixed fraction of the available capital, whatever the trade. */
  function ComputeAllocationSize(availableCapital: real, maxAllocationPercent: real): (r: real)
    ensures availableCapital >= 0.0 && 0.0 <= maxAllocationPercent <= 1.0 ==> 0.0 <= r <= availableCapital
    ensures maxAllocationPercent == DefaultMaxAllocationPercent ==> 10.0 * r == availableCapital
    ensures r == availableCapital * maxAllocationPercent
  {
    assert availableCapital >= 0.0 && maxAllocationPercent <= 1.0 ==>
             availableCapital * maxAllocationPercent <= availableCapital * 1.0;
    availableCapital * maxAllocationPercent
  }

  /** The allocation is proportional to the capital: splitting the capital in two
      splits the allocation the same way. */
  lemma AllocationAdditive(a: real, b: real, maxAllocationPercent: real)
    ensures ComputeAllocationSize(a + b, maxAllocationPercent)
            == ComputeAllocationSize(a, maxAllocationPercent) + ComputeAllocationSize(b, maxAllocationPercent)
  {
  }

  /** More capital or a larger fraction never shrinks a non-negative allocation. */
  lemma AllocationMonotone(a1: real, a2: real, p1: real, p2: real)
    requires 0.0 <= a1 <= a2 && 0.0 <= p1 <= p2
    ensures ComputeAllocationSize(a1, p1) <= ComputeAllocationSize(a2, p2)
  {
    AllocationMonotoneInPercent(a1, p1, p2);
    AllocationMonotoneInCapital(a1, a2, p2);
  }

  lemma AllocationMonotoneInPercent(a: real, p1: real, p2: real)
    requires 0.0 <= a && p1 <= p2
    ensures ComputeAllocationSize(a, p1) <= ComputeAllocationSize(a, p2)
  {
    var d := p2 - p1;
    assert a * d >= 0.0;
    assert a * p2 == a * p1 + a * d;
  }

  lemma AllocationMonotoneInCapital(a1: real, a2: real, p: real)
    requires a1 <= a2 && 0.0 <= p
    ensures ComputeAllocationSize(a1, p) <= ComputeAllocationSize(a2, p)
  {
    var d := a2 - a1;
    assert d * p >= 0.0;
    assert a2 * p == a1 * p + d * p;
  }

  /** One entry of `evaluate_trades`' result. */
  datatype Evaluation = Evaluation(trade: Trade, baseScore: real, adjustedScore: real, allocationSize: real)

  /** `evaluate_trades`: one evaluation per (trade, base score), in input order; the
      first penalty that raises aborts the whole batch. */
  function EvaluateTrades(tradeScores: seq<(Trade, real)>, availableCapital: real, capitalBuffer: real,
                          maxAllocationPercent: real): (r: Result<seq<Evaluation>>)
    ensures r.Ok? <==> forall i :: 0 <= i < |tradeScores| ==>
              AdjustTradeScore(tradeScores[i].1, tradeScores[i].0.requiredCapital, availableCapital, capitalBuffer).Ok?
    ensures r.Err? ==> r.error == ZeroDivisionError
    ensures r.Ok? ==> |r.value| == |tradeScores|
    ensures r.Ok? ==> forall i :: 0 <= i < |tradeScores| ==>
              && r.value[i].trade == tradeScores[i].0
              && r.value[i].baseScore == tradeScores[i].1
              && Ok(r.value[i].adjustedScore) ==
                   AdjustTradeScore(tradeScores[i].1, tradeScores[i].0.requiredCapital, availableCapital, capitalBuffer)
              && r.value[i].allocationSize == ComputeAllocationSize(availableCapital, maxAllocationPercent)
    ensures AllowedCapital(availableCapital, capitalBuffer) > 0.0 ==> r.Ok?
  {
    if |tradeScores| == 0 then Ok([])
    else
      var (trade, base) := tradeScores[0];
      match AdjustTradeScore(base, trade.requiredCapital, availableCapital, capitalBuffer)
      case Err(e) => Err(e)
      case Ok(adjusted) =>
        var head := Evaluation(trade, base, adjusted, ComputeAllocationSize(availableCapital, maxAllocationPercent));
        match EvaluateTrades(tradeScores[1..], availableCapital, capitalBuffer, maxAllocationPercent)
        case Err(e) => Err(e)
        case Ok(rest) => Ok([head] + rest)
  }
}
