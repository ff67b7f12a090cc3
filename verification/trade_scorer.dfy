/** `TradeScorer`: builds a feature dict from the option, asks the learned model for
    a probability, computes the conviction score, blends the two 70/30 and subtracts
    the capital-risk penalty. The log line it writes is not modelled. */
module TradeScorer {
  import opened Results
  import opened Dict
  import opened Text
  import opened Conviction
  import RiskModule

  /** The learned model's `predict_proba` reduced to what the scorer uses: the
      feature vector in, the positive-class probability out, `None` when the call raises. */
  type Provider = seq<real> -> Option<real>

  /** The attributes the scorer reads from the option object; `None` is a missing attribute. */
  datatype OptionContract = OptionContract(
    strike: Option<real>,
    delta: Option<real>,
    expiry: Option<real>,
    requiredCapital: Option<real>)

  datatype TradeScorer = TradeScorer(
    symbol: string,
    mlModel: Option<Provider>,
    riskParams: Assoc<real>,
    convictionWeights: Weights,
    overrideConfig: OverrideConfig)

  const DefaultWeights: Weights := map[
    "DTE" := 0.15,
    "Strike Distance" := 0.15,
    "Premium Yield" := 0.15,
    "Delta" := 0.10,
    "IV Rank" := 0.10,
    "RSI" := 0.10,
    "Earnings Proximity" := 0.10,
    "Cost Basis Awareness" := 0.10,
    "Sizing" := 0.05]

  const DefaultOverrideConfig: OverrideConfig :=
    [("sizing", Some(90.0)), ("strike_distance", Some(92.0)), ("premium_yield", Some(95.0))]

  /** The keys of the base feature dict, in insertion order. */
  const BaseFeatureKeys: seq<string> := ["strike", "delta", "premium", "expiry", "side"]

  /** The weight applied to a blended component. */
  const MlWeight: real := 0.7
  const ConvictionWeight: real := 0.3

  /** `TradeScorer(...)`: an absent or empty weight table or override config falls back
      to the defaults (Python's `x or default`), and absent risk parameters become `{}`. */
  function NewTradeScorer(symbol: string, mlModel: Option<Provider>, riskParams: Option<Assoc<real>>,
                          convictionWeights: Option<Weights>, overrideConfig: Option<OverrideConfig>)
    : (s: TradeScorer)
    ensures s.symbol == symbol && s.mlModel == mlModel
    ensures riskParams.Some? ==> s.riskParams == riskParams.value
    ensures riskParams.None? ==> s.riskParams == []
    ensures convictionWeights.Some? && |convictionWeights.value| > 0 ==> s.convictionWeights == convictionWeights.value
    ensures convictionWeights.None? || |convictionWeights.value| == 0 ==> s.convictionWeights == DefaultWeights
    ensures overrideConfig.Some? && |overrideConfig.value| > 0 ==> s.overrideConfig == overrideConfig.value
    ensures overrideConfig.None? || |overrideConfig.value| == 0 ==> s.overrideConfig == DefaultOverrideConfig
  {
    TradeScorer(
      symbol,
      mlModel,
      riskParams.GetOr([]),
      if convictionWeights.Some? && |convictionWeights.value| > 0 then convictionWeights.value else DefaultWeights,
      if overrideConfig.Some? && |overrideConfig.value| > 0 then overrideConfig.value else DefaultOverrideConfig)
  }

  /** `1.0 if side.upper() == "CALL" else 0.0`. */
  function SideFlag(side: string): real
  {
    if Upper(side) == "CALL" then 1.0 else 0.0
  }

  /** `_gather_base_features`: a missing strike, delta or expiry reads as 0.0. */
  function BaseFeatures(option: OptionContract, side: string, premium: real): (fs: Features)
    ensures Keys(fs) == BaseFeatureKeys
    ensures DistinctKeys(fs)
  {
    [("strike", option.strike.GetOr(0.0)),
     ("delta", option.delta.GetOr(0.0)),
     ("premium", premium),
     ("expiry", option.expiry.GetOr(0.0)),
     ("side", SideFlag(side))]
  }

  /** The base features hold the option's attributes, 0.0 for each missing one, and a
      side flag that is 1.0 exactly for "call" in any mix of cases. */
  lemma BaseFeatureValues(option: OptionContract, side: string, premium: real)
    ensures var fs := BaseFeatures(option, side, premium);
            && Get(fs, "strike") == Some(if option.strike.Some? then option.strike.value else 0.0)
            && Get(fs, "delta") == Some(if option.delta.Some? then option.delta.value else 0.0)
            && Get(fs, "premium") == Some(premium)
            && Get(fs, "expiry") == Some(if option.expiry.Some? then option.expiry.value else 0.0)
    ensures Get(BaseFeatures(option, side, premium), "side") == Some(1.0) <==>
              |side| == 4 && side[0] in "cC" && side[1] in "aA" && side[2] in "lL" && side[3] in "lL"
    ensures Get(BaseFeatures(option, side, premium), "side") in {Some(0.0), Some(1.0)}
  {
    var fs := BaseFeatures(option, side, premium);
    GetEntry(fs, 0);
    GetEntry(fs, 1);
    GetEntry(fs, 2);
    GetEntry(fs, 3);
    GetEntry(fs, 4);
    UpperIsCall(side);
  }

  /** The base features updated with the caller's extra features. */
  function GatherFeatures(option: OptionContract, side: string, premium: real, extras: Features): (fs: Features)
    ensures DistinctKeys(fs)
    ensures |fs| >= 5 && Keys(fs)[..5] == BaseFeatureKeys
  {
    var base := BaseFeatures(option, side, premium);
    assert |Keys(base)| == 5;
    Update(base, extras)
  }

  /** An extra feature replaces the base feature of the same name; other base features stay. */
  lemma ExtraFeaturesOverride(option: OptionContract, side: string, premium: real, extras: Features, k: string)
    requires DistinctKeys(extras)
    ensures Get(GatherFeatures(option, side, premium, extras), k) ==
              if k in Keys(extras) then Get(extras, k) else Get(BaseFeatures(option, side, premium), k)
  {
    UpdateGet(BaseFeatures(option, side, premium), extras, k);
  }

  /** The row handed to `predict_proba`: the feature values in ascending key order. */
  function FeatureVector(fs: Features): (v: seq<real>)
    requires DistinctKeys(fs)
    ensures |v| == |fs|
    ensures exists s :: SortedByKey(s) && multiset(s) == multiset(fs) && Values(s) == v
  {
    var s := SortByKey(fs);
    assert |s| == |multiset(fs)|;
    Values(s)
  }

  /** The vector depends on the feature entries only, not on their insertion order. */
  lemma FeatureVectorOrderIndependent(a: Features, b: Features)
    requires DistinctKeys(a) && DistinctKeys(b)
    requires multiset(a) == multiset(b)
    ensures FeatureVector(a) == FeatureVector(b)
  {
    SortedPermutationUnique(SortByKey(a), SortByKey(b));
  }

  /** `_predict_ml_score`: the provider's probability, or 0.0 when it raises. */
  function PredictMlScore(provider: Provider, fs: Features): (r: real)
    requires DistinctKeys(fs)
    ensures provider(FeatureVector(fs)).None? ==> r == 0.0
    ensures provider(FeatureVector(fs)).Some? ==> r == provider(FeatureVector(fs)).value
  {
    provider(FeatureVector(fs)).GetOr(0.0)
  }

  /** Step 2 of scoring: 0.0 without a model, the model's score otherwise. */
  function MlScore(scorer: TradeScorer, fs: Features): (r: real)
    requires DistinctKeys(fs)
    ensures scorer.mlModel.None? ==> r == 0.0
    ensures scorer.mlModel.Some? ==> r == PredictMlScore(scorer.mlModel.value, fs)
  {
    match scorer.mlModel
    case None => 0.0
    case Some(provider) => PredictMlScore(provider, fs)
  }

  /** The 70/30 blend of the probability and the conviction score scaled to [0, 1]. */
  function Blend(mlScore: real, convictionScore: real): (r: real)
    ensures 0.0 <= mlScore <= 1.0 && 0.0 <= convictionScore <= 100.0 ==> 0.0 <= r <= 1.0
    ensures mlScore == 0.0 ==> r * 1000.0 == 3.0 * convictionScore
    ensures convictionScore == 0.0 ==> r * 10.0 == 7.0 * mlScore
  {
    MlWeight * mlScore + ConvictionWeight * (convictionScore / 100.0)
  }

  /** The two contributions add up independently, so with the two one-sided cases of
      `Blend`'s contract this pins the blend to 0.7 × ML + 0.3 × conviction / 100. */
  lemma BlendSeparates(mlScore: real, convictionScore: real)
    ensures Blend(mlScore, convictionScore) == Blend(mlScore, 0.0) + Blend(0.0, convictionScore)
  {
  }

  /** Everything one scoring call computes; the audit line reports these values. */
  datatype ScoreBreakdown = ScoreBreakdown(
    mlScore: real,
    conviction: ConvictionResult,
    rawScore: real,
    finalScore: real)

  /** `score_and_log_trade` with the available capital and buffer passed explicitly to
      the risk adjustment. It raises only where the risk adjustment does: the option
      has no `required_capital`, or the allowed capital is zero and exceeded. */
  function ScoreAndLogTrade(scorer: TradeScorer, option: OptionContract, premium: real, side: string,
                            extras: Features, availableCapital: real, capitalBuffer: real)
    : (r: Result<ScoreBreakdown>)
    requires DistinctKeys(extras)
    ensures option.requiredCapital.None? ==> r == Err(AttributeError)
    ensures option.requiredCapital.Some? ==>
              (r.Ok? <==> RiskModule.CalculateAssignmentRiskPenalty(
                             option.requiredCapital.value, availableCapital, capitalBuffer).Ok?)
    ensures r.Ok? ==> var fs := GatherFeatures(option, side, premium, extras);
              && r.value.mlScore == MlScore(scorer, fs)
              && r.value.conviction == ComputeConvictionScore(fs, scorer.convictionWeights, scorer.overrideConfig)
              && r.value.rawScore == Blend(r.value.mlScore, r.value.conviction.score)
              && r.value.finalScore + RiskModule.CalculateAssignmentRiskPenalty(
                   option.requiredCapital.value, availableCapital, capitalBuffer).value == r.value.rawScore
    ensures RiskModule.AllowedCapital(availableCapital, capitalBuffer) > 0.0 && option.requiredCapital.Some? ==>
              r.Ok? && r.value.finalScore <= r.value.rawScore
  {
    var fs := GatherFeatures(option, side, premium, extras);
    var ml := MlScore(scorer, fs);
    var conviction := ComputeConvictionScore(fs, scorer.convictionWeights, scorer.overrideConfig);
    var raw := Blend(ml, conviction.score);
    match option.requiredCapital
    case None => Err(AttributeError)
    case Some(requiredCapital) =>
      match RiskModule.AdjustTradeScore(raw, requiredCapital, availableCapital, capitalBuffer)
      case Err(e) => Err(e)
      case Ok(final) => Ok(ScoreBreakdown(ml, conviction, raw, final))
  }

  /** None of the default weight names is a base feature name, so without extra
      features the default weights give a conviction score of 0 and no overrides. */
  lemma DefaultWeightsScoreZero(option: OptionContract, side: string, premium: real)
    ensures var c := ComputeConvictionScore(BaseFeatures(option, side, premium), DefaultWeights, DefaultOverrideConfig);
            c.score == 0.0 && c.overrides == []
  {
    var fs := BaseFeatures(option, side, premium);
    assert forall i :: 0 <= i < |fs| ==> fs[i].0 !in DefaultWeights by {
      assert Keys(fs) == BaseFeatureKeys;
      forall i | 0 <= i < |fs| ensures fs[i].0 !in DefaultWeights {
        assert fs[i].0 == BaseFeatureKeys[i];
      }
    }
    NoWeightedFeatureScoresZero(fs, DefaultWeights, DefaultOverrideConfig);
  }

  /** A scorer built with default tables and no model, given no extra features, never
      scores above 0 while the allowed capital is positive, so it never reaches the
      0.15 entry gate the backtest applies. */
  lemma DefaultScorerStaysAtOrBelowZero(symbol: string, riskParams: Option<Assoc<real>>,
                                        option: OptionContract, premium: real, side: string,
                                        availableCapital: real, capitalBuffer: real)
    requires RiskModule.AllowedCapital(availableCapital, capitalBuffer) > 0.0
    requires option.requiredCapital.Some?
    ensures var r := ScoreAndLogTrade(NewTradeScorer(symbol, None, riskParams, None, None),
                                      option, premium, side, [], availableCapital, capitalBuffer);
            r.Ok? && r.value.mlScore == 0.0 && r.value.conviction.score == 0.0 && r.value.finalScore <= 0.0
  {
    DefaultWeightsScoreZero(option, side, premium);
    assert GatherFeatures(option, side, premium, []) == BaseFeatures(option, side, premium);
  }

  /** A Python value passed where `adjust_trade_score` expects a number. */
  datatype CapitalArgument = Number(value: real) | ParamDict(entries: Assoc<real>)

  /** `available_capital * (1 - capital_buffer)` for either kind of argument: a dict
      times a float raises `TypeError`. */
  function AllowedCapitalOf(arg: CapitalArgument, capitalBuffer: real): (r: Result<real>)
    ensures arg.ParamDict? ==> r == Err(TypeError)
    ensures arg.Number? ==> r == Ok(RiskModule.AllowedCapital(arg.value, capitalBuffer))
  {
    match arg
    case Number(v) => Ok(RiskModule.AllowedCapital(v, capitalBuffer))
    case ParamDict(_) => Err(TypeError)
  }

  /** `score_and_log_trade` with the risk adjustment given whatever Python value is
      passed as the available capital, with the default buffer. */
  function ScoreWithCapitalArgument(scorer: TradeScorer, option: OptionContract, premium: real, side: string,
                                    extras: Features, capital: CapitalArgument): (r: Result<real>)
    requires DistinctKeys(extras)
    ensures capital.ParamDict? ==> r == Err(TypeError)
    ensures capital.Number? ==>
              r == HybridOf(ScoreAndLogTrade(scorer, option, premium, side, extras,
                                             capital.value, RiskModule.DefaultCapitalBuffer))
  {
    match AllowedCapitalOf(capital, RiskModule.DefaultCapitalBuffer)
    case Err(e) => Err(e)
    case Ok(_) =>
      HybridOf(ScoreAndLogTrade(scorer, option, premium, side, extras, capital.value, RiskModule.DefaultCapitalBuffer))
  }

  /** The final score of a scoring outcome, or the exception it raised. */
  function HybridOf(r: Result<ScoreBreakdown>): (h: Result<real>)
    ensures h.Ok? <==> r.Ok?
    ensures r.Ok? ==> h.value == r.value.finalScore
    ensures r.Err? ==> h.error == r.error
  {
    match r
    case Ok(b) => Ok(b.finalScore)
    case Err(e) => Err(e)
  }

  /** `score_and_log_trade` as written: `adjust_trade_score(raw_score, option, self.risk_params)`
      passes the risk-parameter dict as the available capital. */
  function ScoreAndLogTradeAsWritten(scorer: TradeScorer, option: OptionContract, premium: real, side: string,
                                     extras: Features): (r: Result<real>)
    requires DistinctKeys(extras)
    ensures r == Err(TypeError)
  {
    ScoreWithCapitalArgument(scorer, option, premium, side, extras, ParamDict(scorer.riskParams))
  }

  /** As written, every call raises `TypeError`, while the corrected scorer returns a
      score for the same call once it is given a positive allowed capital. */
  lemma AsWrittenScorerAlwaysRaises(scorer: TradeScorer, option: OptionContract, premium: real, side: string,
                                    extras: Features, availableCapital: real)
    requires DistinctKeys(extras)
    requires option.requiredCapital.Some?
    requires availableCapital > 0.0
    ensures ScoreAndLogTradeAsWritten(scorer, option, premium, side, extras) == Err(TypeError)
    ensures ScoreAndLogTrade(scorer, option, premium, side, extras, availableCapital,
                             RiskModule.DefaultCapitalBuffer).Ok?
  {
  }
}
