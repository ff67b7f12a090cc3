/** The trade scorer as the backtest uses it: one `TradeScorer(symbol="NVDA")` asked
    for a "LONG" score at every signalled row, with the row's price as the premium. */
module BacktestScoring {
  import opened Results
  import opened PnlTracker
  import opened BacktestEngine
  import TradeScorer
  import RiskModule

  /** With the scorer as written, every consulted row raises `TypeError`: the run
      fails exactly when some candidate row is signalled, and otherwise trades nothing. */
  lemma AsWrittenBacktestRaises(s: Inputs, scorer: TradeScorer.TradeScorer,
                                contracts: seq<TradeScorer.OptionContract>)
    requires WellFormed(s) && |contracts| == |s.prices|
    requires forall i :: 0 <= i < |s.scores| ==>
               s.scores[i] == TradeScorer.ScoreAndLogTradeAsWritten(scorer, contracts[i], s.prices[i], "LONG", [])
    ensures (exists i :: 0 <= i < CandidateRows(s) && Signalled(s, i)) ==> BacktestOutcome(s) == Err(TypeError)
    ensures (forall i :: 0 <= i < CandidateRows(s) ==> !Signalled(s, i)) ==>
              BacktestOutcome(s) == Ok(PnlReport(0, 0, 0.0, 0.0))
  {
    if forall i :: 0 <= i < CandidateRows(s) ==> !Signalled(s, i) {
      NothingSignalled(s);
    } else {
      var i :| 0 <= i < CandidateRows(s) && Signalled(s, i);
      assert Fails(s, i);
    }
  }

  /** A default scorer without a model, given contracts that carry their required
      capital and a positive allowed capital, never clears the entry gate: the run
      ends with an empty ledger. */
  lemma DefaultScorerBacktestTradesNothing(s: Inputs, riskParams: Option<seq<(string, real)>>,
                                           contracts: seq<TradeScorer.OptionContract>,
                                           availableCapital: real, capitalBuffer: real)
    requires WellFormed(s) && |contracts| == |s.prices|
    requires RiskModule.AllowedCapital(availableCapital, capitalBuffer) > 0.0
    requires forall i :: 0 <= i < |contracts| ==> contracts[i].requiredCapital.Some?
    requires forall i :: 0 <= i < |s.scores| ==>
               s.scores[i] == TradeScorer.HybridOf(TradeScorer.ScoreAndLogTrade(
                 TradeScorer.NewTradeScorer("NVDA", None, riskParams, None, None),
                 contracts[i], s.prices[i], "LONG", [], availableCapital, capitalBuffer))
    ensures BacktestOutcome(s) == Ok(PnlReport(0, 0, 0.0, 0.0))
  {
    forall i | 0 <= i < |s.scores|
      ensures s.scores[i].Ok? && s.scores[i].value < EntryGate
    {
      TradeScorer.DefaultScorerStaysAtOrBelowZero("NVDA", riskParams, contracts[i], s.prices[i], "LONG",
                                                  availableCapital, capitalBuffer);
    }
    NothingBelowGate(s);
  }
}
