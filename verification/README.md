# Trade bot core: a Dafny model

This project models the scoring and bookkeeping core of an options-trading bot, and
its backtest simulation:

- **Conviction scoring** (`compute_conviction_score`). A weight-normalised average of
  the trade's features, scaled to 0–100 and rounded to two decimals. It also returns
  the override rules whose threshold the score reaches.
- **Capital-risk adjustment** (`risk_module`). The assignment-risk penalty, the
  adjusted score, the per-trade allocation cap and the batch evaluation.
- **The trade scorer** (`TradeScorer.score_and_log_trade`). It covers:
  - the base feature dict and `dict.update` with the extra features;
  - the sorted feature vector passed to the learned model, whose failure reads as 0.0;
  - the 70/30 blend of model probability and conviction;
  - the risk penalty.
- **The PnL ledger** (`PnLTracker`). `record_trade`, `close_trade` (the most recent
  matching open record), and `report`.
- **The backtest** (`BacktestEngine`):
  - the days-to-expiry filter of `load_data`;
  - the volatility-adjusted holding period and exit bands;
  - the simulation loop of `run_backtest`. Each signalled row is scored, gated at 0.15,
    scanned for take-profit or stop-loss, then recorded and closed in the ledger.
- **The helpers** `calculate_roc`, `compute_rsi` and `reconcile_outcomes`.

One Dafny module corresponds to each source file:

| module | source |
|---|---|
| `Conviction` | `utils/conviction.py` |
| `RiskModule` | `utils/risk_module.py` |
| `TradeScorer` | `strategy/trade_scorer.py` |
| `PnlTracker` | `utils/pnl_tracker.py` |
| `BacktestEngine` | `ml/ML_Module/core/backtest_engine.py` |
| `BacktestScoring` | the scorer as that backtest calls it |
| `Signals` | `utils/signals.py` |
| `Volatility` | `utils/volatility.py` |
| `ReconcileOutcomes` | `utils/reconcile_outcomes.py` |

Shared modules stand in for the Python runtime:

- `Results`: `Option`, and `Result` with the exception kinds that can be raised.
- `Numeric`: `round` as exact round-half-even, and `sum`.
- `Dict`: `str`-keyed dicts as association lists in insertion order, `dict.update`,
  and `sorted` by key.
- `Text`: ASCII `str.upper` and string order.
- `Sequences`: subsequences and multiset facts.

Numbers are exact reals. An exception is an `Err` value, and an operation that can
raise returns a `Result`.

**Edge cases of the code worth knowing:**

- **Exit scan near the end of the data.** The exit scan never runs past the data,
  because only rows `i < len(df) - holding` are scanned
  (`BacktestEngine.CandidateRows`).
- **Overrides at total weight 0.** At total weight 0 the score is 0, and every rule
  whose threshold is at most 0 still fires (`Conviction.NoWeightedFeatureScoresZero`).
- **Empty price cells in the trade history.** A "Sell Call" row with an expiry price
  but an empty Strike or Premium cell gets a NaN outcome, which is written back as an
  empty cell. The file is rewritten on every run
  (`ReconcileOutcomes.BlankPriceRewrittenEveryRun`).

**The backtest as written never completes a trade:**

- The scorer passes its risk-parameter dict as the available capital
  (`strategy/trade_scorer.py:103`). So every signalled row raises `TypeError` and ends
  the run (`BacktestScoring.AsWrittenBacktestRaises`).
- With that call corrected, the dummy trade the backtest builds has no
  `required_capital`. The corrected scorer then raises `AttributeError`
  (`TradeScorer.ScoreAndLogTrade`).
- The engine model therefore takes each row's scoring outcome as an input: a score,
  or the exception raised.
- With a default scorer that does get a required capital, no row clears the
  0.15 gate (`BacktestScoring.DefaultScorerBacktestTradesNothing`).

## Model

| member | source | states |
|---|---|---|
| Numeric.RoundHalfEven | ml/ML_Module/core/backtest_engine.py:179 | `round(x)` is an integer within one half of `x`, and the even one on a tie |
| Numeric.RoundHalfEvenUnique | ml/ML_Module/core/backtest_engine.py:179 | any integer within one half of `x` that is even on a tie is `round(x)`, so the two properties define rounding |
| Numeric.RoundTo | utils/conviction.py:12 | `round(x, d)` is the half-to-even rounding of x × 10^d, divided back by 10^d, and so lies within half a unit of the last kept decimal of `x` |
| Numeric.RoundToMonotone | utils/volatility.py:26 | rounding to a fixed number of decimals never reverses the order of two values |
| Numeric.RoundToWithin | utils/conviction.py:12 | rounding keeps a value inside an interval with whole-number ends |
| Numeric.SumOfAppend | utils/pnl_tracker.py:117 | the sum over two sequences laid end to end is the sum of the two sums |
| Numeric.SumOfPermutation | utils/conviction.py:7-10 | a sum does not depend on the order of its terms |
| Text.UpperIsCall | strategy/trade_scorer.py:120 | `side.upper() == "CALL"` holds exactly for the four letters c, a, l, l in any mix of cases |
| Dict.PutGet | strategy/trade_scorer.py:88 | after `d[k] = v`, `k` maps to `v` and every other key keeps its value |
| Dict.Update | strategy/trade_scorer.py:88 | `dict.update` keeps the keys distinct and keeps every existing key at its position |
| Dict.UpdateGet | strategy/trade_scorer.py:87-88 | after `d.update(e)`, a key of `e` holds `e`'s value and any other key holds `d`'s |
| Dict.SortByKey | strategy/trade_scorer.py:130-131 | the result is sorted by strictly increasing key and is a permutation of the dict's entries |
| Dict.SortedPermutationUnique | strategy/trade_scorer.py:130-131 | two key-sorted orderings of the same entries are equal, so sorted order depends only on the contents |
| Conviction.FiredOverrides | utils/conviction.py:15-19 | a rule name is in the override list exactly when some rule of that name has a threshold (default 90) at most the score |
| Conviction.ComputeConvictionScore | utils/conviction.py:2-24 | the score is `round(..., 2)` of 100 times the weight-normalised average, or of 0 at total weight 0, so it lies within 0.005 of that average; the overrides are exactly the rules that fire at that score |
| Conviction.ScoreOrderIndependent | utils/conviction.py:7-12 | reordering the feature entries changes neither the score nor the overrides |
| Conviction.UnweightedFeatureIgnored | utils/conviction.py:7-10 | a feature without a weight adds to neither sum and leaves the result unchanged, wherever it sits |
| Conviction.NoWeightedFeatureScoresZero | utils/conviction.py:12-19 | with no weighted feature the score is 0, and the overrides are exactly the rules that fire at 0 |
| Conviction.ScoreWithinRange | utils/conviction.py:7-12 | values in [0, 1] under non-negative weights give a score in [0, 100], before and after rounding |
| Conviction.FiredInConfigOrder | utils/conviction.py:16-19 | the fired rules appear in the config's order |
| Conviction.FiredNoDuplicates | utils/conviction.py:16-19 | with distinct rule names, no rule is listed twice |
| Conviction.OverridesOrderedWithoutDuplicates | utils/conviction.py:15-19 | the override list is a subsequence of the config's rule names, with no repeats |
| Conviction.OverridesMonotoneInThreshold | utils/conviction.py:16-19 | if a rule fires, every rule with a threshold no higher fires too |
| RiskModule.NewTrade | utils/risk_module.py:5-23 | the fields are as given, and a missing required capital is `strike * shares` |
| RiskModule.CalculateAssignmentRiskPenalty | utils/risk_module.py:26-44 | the penalty is 0 when the required capital fits the allowed capital. Above it, penalty times allowed equals 10 times the excess. It raises `ZeroDivisionError` exactly when an allowed capital of 0 is exceeded, and is non-negative whenever the allowed capital is positive |
| RiskModule.PenaltyMonotone | utils/risk_module.py:39-44 | with a positive allowed capital, the penalty never falls as the required capital grows, and strictly rises above the allowed amount |
| RiskModule.AdjustTradeScore | utils/risk_module.py:47-61 | the adjusted score plus the penalty is the base score, and it raises exactly when the penalty does. It is at most the base score when the allowed capital is positive, and equal to it when the trade fits |
| RiskModule.ComputeAllocationSize | utils/risk_module.py:64-75 | the allocation is the capital times the fraction; a fraction in [0, 1] of non-negative capital lies between 0 and the capital; the default fraction gives a tenth |
| RiskModule.AllocationAdditive | utils/risk_module.py:75 | splitting the capital in two splits the allocation the same way |
| RiskModule.AllocationMonotone | utils/risk_module.py:75 | more non-negative capital or a larger non-negative fraction never gives a smaller allocation |
| RiskModule.EvaluateTrades | utils/risk_module.py:78-108 | one evaluation per input pair, in order, holding the trade, its base score, its adjusted score and the allocation size. It fails exactly when some adjustment raises, and never when the allowed capital is positive |
| TradeScorer.NewTradeScorer | strategy/trade_scorer.py:26-56 | an absent or empty weight table or override config falls back to the defaults, and absent risk parameters become empty |
| TradeScorer.BaseFeatures | strategy/trade_scorer.py:110-122 | the base features have the keys strike, delta, premium, expiry and side, in that order and distinct |
| TradeScorer.BaseFeatureValues | strategy/trade_scorer.py:114-121 | each base feature holds the option's attribute or 0.0 when it is missing. The side flag is 0.0 or 1.0, and 1.0 exactly for "call" in any case |
| TradeScorer.GatherFeatures | strategy/trade_scorer.py:85-88 | the gathered features have distinct keys and start with the five base keys |
| TradeScorer.ExtraFeaturesOverride | strategy/trade_scorer.py:86-88 | an extra feature replaces the base feature of the same name, and other base features stay |
| TradeScorer.FeatureVector | strategy/trade_scorer.py:130-131 | the vector is the values of a key-sorted permutation of the features, one per feature |
| TradeScorer.FeatureVectorOrderIndependent | strategy/trade_scorer.py:130-131 | the vector does not depend on the features' insertion order |
| TradeScorer.PredictMlScore | strategy/trade_scorer.py:124-137 | the model's positive-class probability for the sorted vector, or 0.0 when the model raises |
| TradeScorer.MlScore | strategy/trade_scorer.py:90-93 | 0.0 without a model, and the model's prediction otherwise |
| TradeScorer.Blend | strategy/trade_scorer.py:100 | a probability in [0, 1] and a conviction in [0, 100] blend to [0, 1]; without a model the blend is 0.003 times the conviction, and at conviction 0 it is 0.7 times the probability |
| TradeScorer.BlendSeparates | strategy/trade_scorer.py:100 | the blend is the sum of its probability-only and conviction-only parts, which with the two cases above fixes it |
| TradeScorer.ScoreAndLogTrade | strategy/trade_scorer.py:67-108 | with the capital passed correctly: it raises `AttributeError` without a required capital, and otherwise fails exactly when the penalty does. The result records the model score, the conviction result, the blend, and a final score that is the blend less the penalty. It never exceeds the blend when the allowed capital is positive |
| TradeScorer.DefaultWeightsScoreZero | strategy/trade_scorer.py:41-56 | no default weight names a base feature, so the defaults give the base features a conviction of 0 and no override |
| TradeScorer.DefaultScorerStaysAtOrBelowZero | strategy/trade_scorer.py:86-103 | a default scorer without a model and without extras scores at most 0 when the allowed capital is positive |
| TradeScorer.AllowedCapitalOf | utils/risk_module.py:39 | multiplying a dict by a float raises `TypeError`, and a number gives the allowed capital |
| TradeScorer.ScoreWithCapitalArgument | strategy/trade_scorer.py:103 | passing a dict as the available capital raises `TypeError`, and passing a number gives the corrected scorer's final score |
| TradeScorer.ScoreAndLogTradeAsWritten | strategy/trade_scorer.py:103 | as written, every call raises `TypeError` |
| TradeScorer.AsWrittenScorerAlwaysRaises | strategy/trade_scorer.py:103 | the call raises as written but succeeds once a positive capital is passed |
| PnlTracker.TradeRecord.UnrealizedPnl | utils/pnl_tracker.py:29-40 | a "PUT" or "CALL" record is marked at (entry − current) × quantity × 100, which is non-negative when the price fell and the quantity is non-negative; any other side reads 0 |
| PnlTracker.TradeRecord.RealizedPnl | utils/pnl_tracker.py:42-52 | a closed "PUT" or "CALL" record realised (entry − exit) × quantity × 100; an open record or another side reads 0 |
| PnlTracker.RealizedIsUnrealizedAtExit | utils/pnl_tracker.py:29-52 | a closed record has realised exactly the unrealised PnL at its exit price |
| PnlTracker.RecordTrade | utils/pnl_tracker.py:66-80 | recording appends one open record for the instrument, with the given side, quantity and premium, and leaves earlier records unchanged |
| PnlTracker.LastOpenMatch | utils/pnl_tracker.py:92-100 | finds the last open record matching symbol, strike and expiry, or reports that none exists |
| PnlTracker.CloseTrade | utils/pnl_tracker.py:86-102 | closing sets the exit of the most recent open matching record and changes nothing else; with no open match the ledger is unchanged |
| PnlTracker.CloseTradeIsLifo | utils/pnl_tracker.py:99-101 | of two open records for the same instrument, closing leaves the earlier one open |
| PnlTracker.RecordThenClose | utils/pnl_tracker.py:66-102 | recording and then closing the same instrument appends one closed record |
| PnlTracker.PositionsPartition | utils/pnl_tracker.py:114-117 | open and closed positions split the ledger, and summing realised PnL over closed records equals the sum over all records |
| PnlTracker.Report | utils/pnl_tracker.py:109-120 | the open and closed counts add up to the ledger size, the realised total is the sum over all records, and the unrealised figure is 0 |
| PnlTracker.ReportConcat | utils/pnl_tracker.py:114-117 | the report of two ledgers laid end to end adds up their reports |
| PnlTracker.ReportAfterRecord | utils/pnl_tracker.py:66-120 | recording adds one open position and changes nothing else in the report |
| PnlTracker.ReportAfterClose | utils/pnl_tracker.py:86-120 | closing a matched record moves one position from open to closed and adds its realised PnL |
| PnlTracker.ReportAfterClosedShortOption | utils/pnl_tracker.py:42-52 | appending a closed PUT or CALL record adds a closed position and (entry − exit) × quantity × 100 to the realised total |
| PnlTracker.RoundTripRealizesPremiumDifference | utils/pnl_tracker.py:42-117 | opening and closing a short option realises the premium difference × quantity × 100 |
| PnlTracker.PutRoundTripExample | utils/pnl_tracker.py:45-49 | a PUT sold at 2.00 and bought back at 1.50 realises 50.0 on one contract |
| BacktestEngine.DteWindow | ml/ML_Module/core/backtest_engine.py:81-82 | the filter keeps rows in order, keeps only rows with 16 ≤ DTE ≤ 21, and keeps every copy of each such row |
| BacktestEngine.FilterByDte | ml/ML_Module/core/backtest_engine.py:76-85 | without both date columns the table is unchanged; with them the result keeps table order, holds only in-window rows, and keeps every copy of each in-window row |
| BacktestEngine.DteWindowKeepsInWindow | ml/ML_Module/core/backtest_engine.py:82 | every copy of an in-window row survives the filter |
| BacktestEngine.DteWindowIdempotent | ml/ML_Module/core/backtest_engine.py:82 | filtering twice keeps what filtering once keeps |
| BacktestEngine.DteWindowAppend | ml/ML_Module/core/backtest_engine.py:82 | filtering a table split in two filters each part |
| BacktestEngine.Predictions | ml/ML_Module/core/backtest_engine.py:165 | each prediction is 0 or 1, and it is 1 exactly when the probability reaches the threshold |
| BacktestEngine.SignalledIsPrediction | ml/ML_Module/core/backtest_engine.py:165-200 | the loop consults the scorer for a row exactly where the prediction vector holds 1 |
| BacktestEngine.EffectiveVolatility | ml/ML_Module/core/backtest_engine.py:170-176 | the measured log-return deviation is used whenever there are at least two prices, and 0.01 otherwise |
| BacktestEngine.DynamicHolding | ml/ML_Module/core/backtest_engine.py:179 | the holding period is at least 1. It is 1 exactly when base/(1 + vol) is below 1.5, and otherwise it is the half-to-even rounding of base/(1 + vol). It never exceeds a positive base |
| BacktestEngine.Widen | ml/ML_Module/core/backtest_engine.py:180-181 | widening by a non-negative volatility never shrinks a non-negative band nor raises a non-positive one |
| BacktestEngine.DynamicExitParams | ml/ML_Module/core/backtest_engine.py:179-181 | the holding period is `DynamicHolding`, and both bands are scaled by (1 + vol), so neither is narrower than its base band |
| BacktestEngine.ExitParamsMonotoneInVolatility | ml/ML_Module/core/backtest_engine.py:179-181 | higher volatility never lengthens the holding period and never narrows either non-negative band |
| BacktestEngine.MakeInputs | ml/ML_Module/core/backtest_engine.py:170-181 | the run's exit parameters are the dynamic parameters of the effective volatility, and the inputs are well formed |
| BacktestEngine.VolatilityWidensScan | ml/ML_Module/core/backtest_engine.py:179-199 | a more volatile price series scans at least as many rows |
| BacktestEngine.FirstHit | ml/ML_Module/core/backtest_engine.py:213-222 | returns the first row in the window whose price meets a band, with take-profit winning on the same row; `None` means no row meets one |
| BacktestEngine.ExitPoint | ml/ML_Module/core/backtest_engine.py:212-225 | the exit lies within the holding window and no earlier row meets a band. A time-stop exit is at the window's last row, which meets no band |
| BacktestEngine.ScanForExit | ml/ML_Module/core/backtest_engine.py:212-225 | the inner loop returns the exit point and the price at that row |
| BacktestEngine.FirstFailure | ml/ML_Module/core/backtest_engine.py:199-209 | returns the first candidate row whose scoring raised, or `None` if no candidate raised |
| BacktestEngine.AcceptedRows | ml/ML_Module/core/backtest_engine.py:199-211 | lists, in increasing order, exactly the candidate rows that are signalled and score at least 0.15 |
| BacktestEngine.SimulatedLedger | ml/ML_Module/core/backtest_engine.py:226-232 | holds one record per accepted row, in row order |
| BacktestEngine.ClosedLongLedgerReport | utils/pnl_tracker.py:42-52 | a ledger of closed LONG records reports no open position, every record closed, and nothing realised |
| BacktestEngine.RunBacktest | ml/ML_Module/core/backtest_engine.py:199-233 | the run raises the first scoring exception, leaving the ledger built up to that row. Otherwise it reports every accepted row as a closed position with nothing realised |
| BacktestEngine.ScanRow | ml/ML_Module/core/backtest_engine.py:200-232 | one row raises exactly when it is signalled and its scoring raised; otherwise the ledger grows by that row's simulated trade |
| BacktestEngine.FailureEndsRun | ml/ML_Module/core/backtest_engine.py:209 | the first row whose scoring raises decides the outcome of the run |
| BacktestEngine.AcceptedRowStep | ml/ML_Module/core/backtest_engine.py:226-232 | recording and closing an accepted row's trade appends its simulated record |
| BacktestEngine.RejectedRowStep | ml/ML_Module/core/backtest_engine.py:200-211 | a row that did not raise leaves the first failure unchanged, and if not accepted leaves the ledger unchanged |
| BacktestEngine.CompletedRun | ml/ML_Module/core/backtest_engine.py:233 | a run no scorer cuts short reports one closed position per accepted row and nothing realised |
| BacktestEngine.BacktestFailsIff | ml/ML_Module/core/backtest_engine.py:199-209 | a run fails exactly when some candidate row is signalled and its scoring raised |
| BacktestEngine.NothingBelowGate | ml/ML_Module/core/backtest_engine.py:210-211 | with every score under 0.15, the run enters no trade and reports an empty ledger |
| BacktestEngine.NothingSignalled | ml/ML_Module/core/backtest_engine.py:199-200 | with no signalled candidate, the run reports an empty ledger |
| BacktestEngine.QuietRun | ml/ML_Module/core/backtest_engine.py:199-233 | if no candidate fails or is accepted, the ledger is empty and so is the report |
| BacktestEngine.NoAcceptedRows | ml/ML_Module/core/backtest_engine.py:199-211 | no accepted row below `n` means no recorded trade below `n` |
| BacktestScoring.AsWrittenBacktestRaises | ml/ML_Module/core/backtest_engine.py:188-209 | with the scorer as written, a run fails with `TypeError` exactly when some candidate is signalled, and otherwise trades nothing |
| BacktestScoring.DefaultScorerBacktestTradesNothing | ml/ML_Module/core/backtest_engine.py:188-211 | a default scorer without a model never clears the gate, so the run reports an empty ledger |
| Signals.Diffs | utils/signals.py:41 | the changes between consecutive prices, one fewer than the prices |
| Signals.Seed | utils/signals.py:42 | the first `period` changes, or all of them when there are fewer |
| Signals.GainsNonNegative | utils/signals.py:43-44 | the gain and loss sums are non-negative |
| Signals.NoLossesIffNoDrop | utils/signals.py:44 | the loss sum is 0 exactly when no change in the seed is negative |
| Signals.ComputeRsi | utils/signals.py:40-46 | the RSI lies in [0, 100). It is 0 when the average loss is 0, and otherwise RSI × (up + down) = 100 × up |
| Signals.RsiUsesOnlyWindow | utils/signals.py:41-42 | the RSI reads only the first `period + 1` prices |
| Signals.RisingHistoryReadsZero | utils/signals.py:45-46 | as written, prices 1, 2, 3 over a period of 2 give an RSI of 0 |
| Signals.ComputeRsiCorrected | utils/signals.py:45-46 | the corrected RSI lies in [0, 100] and keeps the same identity whenever there is any movement. It is 100 exactly when there are gains and no losses, and agrees with the original whenever there is a loss |
| Signals.GainMinusLoss | utils/signals.py:43-44 | gains minus losses is the net change over the seed |
| Signals.DiffsTelescope | utils/signals.py:41 | the changes add up to the last price minus the first |
| Signals.SeedIsPrefixDiffs | utils/signals.py:41-42 | the first `m` changes of a history are the changes of its first `m + 1` prices |
| Signals.NetMove | utils/signals.py:41-44 | average gain minus average loss is the net move over the seed divided by the period |
| Volatility.CalculateRoc | utils/volatility.py:23-26 | raises `ZeroDivisionError` exactly when the strike or the day count is 0. Otherwise the result is the annualised yield rounded to three decimals, within 0.0005 of it |
| Volatility.RocOfYield | strategy/csp_overlay.py:33 | when the caller passes strike × yield as the premium, the strike cancels out |
| Volatility.RocMonotoneInPremium | utils/volatility.py:23-26 | with a positive strike and day count, a larger premium never lowers the result |
| Volatility.RocAntitoneInDays | utils/volatility.py:23-26 | with a non-negative premium and a positive strike, more days to expiry never raise the result |
| Volatility.RocOfZeroPremium | utils/volatility.py:23-26 | a zero premium gives 0 |
| ReconcileOutcomes.ExpiryPnl | utils/reconcile_outcomes.py:27 | the short call's profit is at most the premium, equals it exactly when expiry ≤ strike, and otherwise is the premium less the excess |
| ReconcileOutcomes.ExpiryPnlAntitone | utils/reconcile_outcomes.py:27 | a higher expiry price never raises the profit |
| ReconcileOutcomes.OutcomeCell | utils/reconcile_outcomes.py:21-29 | the outcome cell is filled exactly when strike and premium are both present, and then lies within 0.005 of the expiry profit |
| ReconcileOutcomes.ReconcileRow | utils/reconcile_outcomes.py:17-30 | a row that needs it gets the expiry profit rounded to cents, or an empty cell when its strike or premium is empty, and no other change; any other row is unchanged; afterwards it needs an update again exactly when a price was empty |
| ReconcileOutcomes.ReconcileRows | utils/reconcile_outcomes.py:17-30 | every row is reconciled in place |
| ReconcileOutcomes.Reconcile | utils/reconcile_outcomes.py:9-35 | no file means no action. The file is rewritten exactly when some row needs an outcome, and then holds the reconciled rows |
| ReconcileOutcomes.NotUpdatedIsFixedPoint | utils/reconcile_outcomes.py:31-35 | when nothing is written, reconciling would not have changed the table |
| ReconcileOutcomes.ReconcileIdempotent | utils/reconcile_outcomes.py:17-35 | reconciling twice changes no cell beyond reconciling once. The second pass writes nothing exactly when every row that needed an outcome had both prices |
| ReconcileOutcomes.BlankPriceRewrittenEveryRun | utils/reconcile_outcomes.py:21-32 | a short call with an empty strike or premium stays without an outcome, yet the file is rewritten on this run and the next |
| ReconcileOutcomes.RecordedOutcomesKept | utils/reconcile_outcomes.py:18-26 | rows with an outcome, rows of other kinds, and rows without an expiry price keep every cell |
| ReconcileOutcomes.OutOfTheMoneyKeepsPremium | utils/reconcile_outcomes.py:27-28 | a priced call that expired at or below its strike records its whole premium, rounded to cents |

## Left out

- **Outside effects are not modelled.** This covers file and CSV I/O, logging (including the scorer's audit line), `os.path.exists`, `print`, and the async wrappers (`run_backtest` is `async`; `score_and_log_trade_async` is a thread hand-off).
- **Inputs stand in for what the model cannot compute.** Clock readings (`datetime.now()`, `datetime.utcnow()`) are inputs: the expiry strings and timestamps.
- **The learned model.** Training, Optuna tuning and `predict_proba` are not modelled. The backtest takes the probabilities as an input. The scorer takes a function from the feature vector to an optional probability, where `None` means the call raised.
- **The volatility value.** The standard deviation of the daily log returns is an input. Logarithms and `np.std` are not modelled.
- **Floating-point arithmetic is not modelled.** Numbers are exact reals, so representation error and overflow are absent. `round` is exact round-half-even of the exact value.
- TradeScorer.BaseFeatures: reads `strike`, `delta` and `expiry` as already-converted optional numbers, and the `float(...)` conversion of a string expiry is not modelled. `str.upper` is modelled on ASCII letters only.
- BacktestEngine.DteWindow: dates are given as day numbers, and parsing `%Y%m%d` and `%Y-%m-%d` strings is not modelled.
- **Column selection in `load_data`.** The numeric-column and `label` selection is not modelled, because it changes only which features reach the learned model.
- **A table without a `price` column** skips the simulation. The model covers the branch that has prices.
- **Accuracy logging.** The accuracy, precision and recall computations only feed the log, so they are not modelled.
- Signals.ComputeRsi: requires a positive period. A period of 0 or below gives NumPy's `nan` or a negative slice, which is not modelled. The default period of 14 is `Signals.DefaultRsiPeriod`.
- ReconcileOutcomes.Reconcile: a table missing the `Type`, `Strike` or `Premium` column raises `KeyError` in the source. The model assumes these columns exist. Empty cells are modelled as missing values; a non-numeric text cell in Strike or Premium, which would raise `TypeError`, is not.
- **Parts of the repository outside this core are not part of this model:** `covered_call.py`, `csp_overlay.py` (beyond the call it makes to `calculate_roc`), the dashboards, the broker interface and the alerting.

## Findings

| source | as written | input that shows it | evidently intended | confidence | as-written member | corrected member |
|---|---|---|---|---|---|---|
| strategy/trade_scorer.py:103 | `adjust_trade_score(raw_score, option, self.risk_params)` passes the risk-parameter dict as the available capital, so `dict * float` raises `TypeError` | any call, e.g. `TradeScorer("NVDA").score_and_log_trade(option, 1.0)` | pass the available capital (and buffer) as numbers | high; not executed | TradeScorer.ScoreAndLogTradeAsWritten | TradeScorer.ScoreAndLogTrade |
| utils/signals.py:45 | `rs = up / down if down != 0 else 0` makes a seed with gains and no losses read as RSI 0 | prices `[1.0, 2.0, 3.0]`, period 2: RSI 0.0 | RSI 100 when there are gains and no losses | medium; not executed | Signals.ComputeRsi | Signals.ComputeRsiCorrected |

- **First finding.** `TradeScorer.AsWrittenScorerAlwaysRaises` shows the as-written call raising and the corrected call succeeding. The backtest consequence is `BacktestScoring.AsWrittenBacktestRaises`.
- **Second finding.** `Signals.RisingHistoryReadsZero` exhibits the input. `Signals.ComputeRsiCorrected` proves the intended reading: RSI 100 exactly when there are gains and no losses.
