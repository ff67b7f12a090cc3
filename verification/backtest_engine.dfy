/** The simulation body of `BacktestEngine.run_backtest` and the DTE filter of
    `load_data`. Model probabilities, per-candidate hybrid scores, the volatility of
    the price series and the clock readings are inputs. */
module BacktestEngine {
  import opened Results
  import opened Numeric
  import opened Sequences
  import opened PnlTracker

  /** Hybrid scores below this are rejected. */
  const EntryGate: real := 0.15

  /** The volatility used when the series has fewer than two prices. */
  const DefaultVolatility: real := 0.01

  /** The days-to-expiry window `load_data` keeps. */
  const MinDte: int := 16
  const MaxDte: int := 21

  /** Defaults of the base trading parameters. */
  const DefaultHoldingPeriod: int := 2
  const DefaultStopLossPct: real := 0.03
  const DefaultTakeProfitPct: real := 0.05
  const DefaultPredictThreshold: real := 0.5

  // ---------------------------------------------------------------------------
  // DTE filter

  /** A row of the options table, with its quote date and expiry as day numbers. */
  datatype DataRow = DataRow(date: int, expiry: int, price: real)

  function Dte(row: DataRow): int
  {
    row.expiry - row.date
  }

  predicate InDteWindow(row: DataRow)
  {
    MinDte <= Dte(row) <= MaxDte
  }

  /** `df[(df["dte"] >= 16) & (df["dte"] <= 21)]`: the in-window rows in their order. */
  function DteWindow(rows: seq<DataRow>): (r: seq<DataRow>)
    ensures IsSubsequence(r, rows)
    ensures forall x :: x in r ==> InDteWindow(x)
  {
    if |rows| == 0 then []
    else
      var rest := DteWindow(rows[1..]);
      if InDteWindow(rows[0]) then
        var r := [rows[0]] + rest;
        assert r[0] == rows[0] && r[1..] == rest;
        r
      else
        assert |rows| > 0 && IsSubsequence(rest, rows[1..]);
        rest
  }

  /** Every copy of an in-window row survives the filter. */
  lemma {:induction false} DteWindowKeepsInWindow(rows: seq<DataRow>, x: DataRow)
    requires InDteWindow(x)
    ensures multiset(DteWindow(rows))[x] == multiset(rows)[x]
  {
    if |rows| > 0 {
      DteWindowKeepsInWindow(rows[1..], x);
      assert rows == [rows[0]] + rows[1..];
      assert multiset(rows) == multiset{rows[0]} + multiset(rows[1..]);
      if InDteWindow(rows[0]) {
        assert DteWindow(rows) == [rows[0]] + DteWindow(rows[1..]);
      }
    }
  }

  /** The filter runs only when the table has both `date` and `expiry` columns. */
  function FilterByDte(rows: seq<DataRow>, hasDateColumns: bool): (r: seq<DataRow>)
    ensures !hasDateColumns ==> r == rows
    ensures hasDateColumns ==> forall x :: x in r ==> InDteWindow(x)
    ensures hasDateColumns ==> IsSubsequence(r, rows)
    ensures hasDateColumns ==> forall x :: InDteWindow(x) ==> multiset(r)[x] == multiset(rows)[x]
  {
    if hasDateColumns then
      forall x | InDteWindow(x) ensures multiset(DteWindow(rows))[x] == multiset(rows)[x] {
        DteWindowKeepsInWindow(rows, x);
      }
      DteWindow(rows)
    else rows
  }

  /** Filtering twice keeps what filtering once keeps. */
  lemma {:induction false} DteWindowIdempotent(rows: seq<DataRow>)
    ensures DteWindow(DteWindow(rows)) == DteWindow(rows)
  {
    if |rows| > 0 {
      DteWindowIdempotent(rows[1..]);
      if InDteWindow(rows[0]) {
        assert ([rows[0]] + DteWindow(rows[1..]))[1..] == DteWindow(rows[1..]);
      }
    }
  }

  /** Filtering a table split in two filters each part. */
  lemma {:induction false} DteWindowAppend(a: seq<DataRow>, b: seq<DataRow>)
    ensures DteWindow(a + b) == DteWindow(a) + DteWindow(b)
  {
    if |a| == 0 {
      assert a + b == b;
    } else {
      assert (a + b)[1..] == a[1..] + b;
      DteWindowAppend(a[1..], b);
    }
  }

  // ---------------------------------------------------------------------------
  // Signal and exit parameters

  /** `(probas >= predict_threshold).astype(int)`. */
  function Predictions(probas: seq<real>, threshold: real): (p: seq<int>)
    ensures |p| == |probas|
    ensures forall i :: 0 <= i < |probas| ==> (p[i] == 1 <==> probas[i] >= threshold)
    ensures forall i :: 0 <= i < |probas| ==> p[i] == 0 || p[i] == 1
  {
    seq(|probas|, i requires 0 <= i < |probas| => if probas[i] >= threshold then 1 else 0)
  }

  /** The volatility in effect: the standard deviation of the daily log returns, or
      the default for a series of fewer than two prices. */
  function EffectiveVolatility(priceCount: nat, logReturnStd: real): (v: real)
    requires logReturnStd >= 0.0
    ensures v >= 0.0
    ensures priceCount <= 1 ==> v == DefaultVolatility
    ensures priceCount > 1 ==> v == logReturnStd
  {
    if priceCount > 1 then logReturnStd else DefaultVolatility
  }

  datatype ExitParams = ExitParams(holding: int, stopLoss: real, takeProfit: real)

  /** `max(1, int(round(base / (1 + volatility))))`: the holding period scaled down by
      the volatility, never below one bar. */
  function DynamicHolding(baseHolding: int, volatility: real): (h: int)
    requires volatility >= 0.0
    ensures h >= 1
    ensures h == 1 || -0.5 <= h as real - baseHolding as real / (1.0 + volatility) <= 0.5
    ensures h == 1 <==> baseHolding as real / (1.0 + volatility) < 1.5
    ensures h > 1 ==> h == RoundHalfEven(baseHolding as real / (1.0 + volatility))
    ensures baseHolding >= 1 ==> h <= baseHolding
  {
    var scaled := baseHolding as real / (1.0 + volatility);
    var rounded := RoundHalfEven(scaled);
    assert baseHolding >= 1 ==> rounded <= baseHolding by {
      if baseHolding >= 1 {
        assert scaled <= baseHolding as real;
        RoundHalfEvenMonotone(scaled, baseHolding as real);
        RoundHalfEvenOfInt(baseHolding);
      }
    }
    RoundHalfEvenAtMostOne(scaled);
    if rounded > 1 then rounded else 1
  }

  /** `pct * (1 + volatility)`: an exit band widened by the volatility. */
  function Widen(pct: real, volatility: real): (w: real)
    requires volatility >= 0.0
    ensures pct >= 0.0 ==> w >= pct
    ensures pct <= 0.0 ==> w <= pct
  {
    assert pct * (1.0 + volatility) - pct == pct * volatility;
    if pct >= 0.0 then
      MultiplyMonotone(0.0, volatility, pct);
      pct * (1.0 + volatility)
    else
      MultiplyMonotone(pct, 0.0, volatility);
      pct * (1.0 + volatility)
  }

  /** The holding period shrinks and both exit bands widen with volatility. */
  function DynamicExitParams(baseHolding: int, stopLossPct: real, takeProfitPct: real, volatility: real)
    : (p: ExitParams)
    requires volatility >= 0.0
    ensures p.holding == DynamicHolding(baseHolding, volatility)
    ensures p.stopLoss == Widen(stopLossPct, volatility) && p.takeProfit == Widen(takeProfitPct, volatility)
    ensures stopLossPct >= 0.0 ==> p.stopLoss >= stopLossPct
    ensures takeProfitPct >= 0.0 ==> p.takeProfit >= takeProfitPct
  {
    ExitParams(DynamicHolding(baseHolding, volatility),
               Widen(stopLossPct, volatility), Widen(takeProfitPct, volatility))
  }

  /** A more volatile market never lengthens the holding period and never narrows
      either exit band. */
  lemma ExitParamsMonotoneInVolatility(baseHolding: int, stopLossPct: real, takeProfitPct: real,
                                       v1: real, v2: real)
    requires 0.0 <= v1 <= v2 && baseHolding >= 0
    ensures var p1 := DynamicExitParams(baseHolding, stopLossPct, takeProfitPct, v1);
            var p2 := DynamicExitParams(baseHolding, stopLossPct, takeProfitPct, v2);
            && p2.holding <= p1.holding
            && (stopLossPct >= 0.0 ==> p1.stopLoss <= p2.stopLoss)
            && (takeProfitPct >= 0.0 ==> p1.takeProfit <= p2.takeProfit)
  {
    HoldingAntitone(baseHolding, v1, v2);
    BandWidens(stopLossPct, v1, v2);
    BandWidens(takeProfitPct, v1, v2);
  }

  lemma HoldingAntitone(baseHolding: int, v1: real, v2: real)
    requires 0.0 <= v1 <= v2 && baseHolding >= 0
    ensures DynamicHolding(baseHolding, v2) <= DynamicHolding(baseHolding, v1)
  {
    var h2 := DynamicHolding(baseHolding, v2);
    if h2 > 1 {
      var s1 := baseHolding as real / (1.0 + v1);
      var s2 := baseHolding as real / (1.0 + v2);
      DivideAntitone(baseHolding as real, 1.0 + v1, 1.0 + v2);
      RoundHalfEvenMonotone(s2, s1);
      RoundHalfEvenAtMostOne(s1);
    }
  }

  lemma BandWidens(pct: real, v1: real, v2: real)
    requires 0.0 <= v1 <= v2
    ensures pct >= 0.0 ==> Widen(pct, v1) <= Widen(pct, v2)
  {
    if pct >= 0.0 {
      MultiplyMonotone(1.0 + v1, 1.0 + v2, pct);
    }
  }

  lemma DivideAntitone(b: real, x: real, y: real)
    requires b >= 0.0 && 0.0 < x <= y
    ensures b / y <= b / x
  {
    assert b / x - b / y == b * (y - x) / (x * y);
  }

  // ---------------------------------------------------------------------------
  // Exit scan

  datatype ExitReason = TakeProfit | StopLoss | TimeStop

  predicate TakeProfitHit(entry: real, price: real, p: ExitParams)
  {
    price >= entry * (1.0 + p.takeProfit)
  }

  predicate StopLossHit(entry: real, price: real, p: ExitParams)
  {
    price <= entry * (1.0 - p.stopLoss)
  }

  predicate ExitHit(entry: real, price: real, p: ExitParams)
  {
    TakeProfitHit(entry, price, p) || StopLossHit(entry, price, p)
  }

  /** The first row in `[from, last]` whose price meets take-profit or stop-loss, with
      take-profit checked first on the same row. */
  function FirstHit(prices: seq<real>, entry: real, from: nat, last: nat, p: ExitParams)
    : (r: Option<(nat, ExitReason)>)
    requires last < |prices|
    ensures r.Some? ==> from <= r.value.0 <= last && ExitHit(entry, prices[r.value.0], p)
    ensures r.Some? ==> forall k :: from <= k < r.value.0 ==> !ExitHit(entry, prices[k], p)
    ensures r.Some? ==> (r.value.1 == TakeProfit <==> TakeProfitHit(entry, prices[r.value.0], p))
    ensures r.Some? ==> r.value.1 != TimeStop
    ensures r.None? ==> forall k :: from <= k <= last ==> !ExitHit(entry, prices[k], p)
    decreases last + 1 - from
  {
    if from > last then None
    else if TakeProfitHit(entry, prices[from], p) then Some((from, TakeProfit))
    else if StopLossHit(entry, prices[from], p) then Some((from, StopLoss))
    else FirstHit(prices, entry, from + 1, last, p)
  }

  /** Where and why the position entered at row `i` is exited: the first row after
      `i` that meets an exit band, or else row `i + holding` (the time stop). */
  function ExitPoint(prices: seq<real>, i: nat, p: ExitParams): (e: (nat, ExitReason))
    requires p.holding >= 1 && i + p.holding < |prices|
    ensures i < e.0 <= i + p.holding
    ensures forall k :: i < k < e.0 ==> !ExitHit(prices[i], prices[k], p)
    ensures e.1 == TakeProfit ==> TakeProfitHit(prices[i], prices[e.0], p)
    ensures e.1 == StopLoss ==> !TakeProfitHit(prices[i], prices[e.0], p) && StopLossHit(prices[i], prices[e.0], p)
    ensures e.1 == TimeStop ==> e.0 == i + p.holding && !ExitHit(prices[i], prices[e.0], p)
  {
    match FirstHit(prices, prices[i], i + 1, i + p.holding, p)
    case Some(hit) => hit
    case None => (i + p.holding, TimeStop)
  }

  /** The inner `for j in range(i + 1, i + holding + 1)` loop of the backtest. */
  method ScanForExit(prices: seq<real>, i: nat, p: ExitParams) returns (exitIndex: nat, reason: ExitReason, exitPrice: real)
    requires p.holding >= 1 && i + p.holding < |prices|
    ensures (exitIndex, reason) == ExitPoint(prices, i, p)
    ensures i < exitIndex <= i + p.holding < |prices| && exitPrice == prices[exitIndex]
  {
    var entry := prices[i];
    var last := i + p.holding;
    var j := i + 1;
    while j <= last
      invariant i + 1 <= j <= last + 1
      invariant FirstHit(prices, entry, j, last, p) == FirstHit(prices, entry, i + 1, last, p)
    {
      var future := prices[j];
      if TakeProfitHit(entry, future, p) {
        return j, TakeProfit, future;
      } else if StopLossHit(entry, future, p) {
        return j, StopLoss, future;
      }
      j := j + 1;
    }
    return last, TimeStop, prices[last];
  }

  // ---------------------------------------------------------------------------
  // Simulation

  /** The inputs of one simulation run. `scores[i]` is the outcome of the trade scorer
      for the candidate at row `i` (a hybrid score, or the exception it raised);
      `expiries[i]` is the expiry string built from the clock for it; `now` stands for
      every clock reading of the ledger. */
  datatype Inputs = Inputs(
    prices: seq<real>,
    probas: seq<real>,
    scores: seq<Result<real>>,
    expiries: seq<string>,
    threshold: real,
    params: ExitParams,
    now: Timestamp)

  predicate WellFormed(s: Inputs)
  {
    && |s.probas| == |s.prices|
    && |s.scores| == |s.prices|
    && |s.expiries| == |s.prices|
    && s.params.holding >= 1
  }

  /** How many rows are scanned: `range(len(df) - dynamic_holding)`. */
  function CandidateRows(s: Inputs): nat
  {
    if |s.prices| > s.params.holding then |s.prices| - s.params.holding else 0
  }

  /** Row `i` is predicted positive, so the scorer is consulted for it. */
  predicate Signalled(s: Inputs, i: nat)
    requires WellFormed(s) && i < |s.prices|
  {
    s.probas[i] >= s.threshold
  }

  /** A row is signalled exactly where the prediction vector holds 1. */
  lemma SignalledIsPrediction(s: Inputs, i: nat)
    requires WellFormed(s) && i < |s.prices|
    ensures Signalled(s, i) <==> Predictions(s.probas, s.threshold)[i] == 1
  {
  }

  /** The inputs of one run, with the exit parameters derived from the configured
      ones and the measured volatility of the price column. */
  function MakeInputs(prices: seq<real>, probas: seq<real>, scores: seq<Result<real>>, expiries: seq<string>,
                      threshold: real, baseHolding: int, stopLossPct: real, takeProfitPct: real,
                      logReturnStd: real, now: Timestamp): (s: Inputs)
    requires |probas| == |prices| && |scores| == |prices| && |expiries| == |prices|
    requires logReturnStd >= 0.0
    ensures WellFormed(s)
    ensures s.params == DynamicExitParams(baseHolding, stopLossPct, takeProfitPct,
                                          EffectiveVolatility(|prices|, logReturnStd))
    ensures s.prices == prices && s.probas == probas && s.scores == scores && s.expiries == expiries
    ensures s.threshold == threshold && s.now == now
  {
    Inputs(prices, probas, scores, expiries, threshold,
           DynamicExitParams(baseHolding, stopLossPct, takeProfitPct, EffectiveVolatility(|prices|, logReturnStd)),
           now)
  }

  /** A more volatile price series shortens the holding period, so the loop scans at
      least as many rows. */
  lemma VolatilityWidensScan(prices: seq<real>, probas: seq<real>, scores: seq<Result<real>>,
                             expiries: seq<string>, threshold: real, baseHolding: int,
                             stopLossPct: real, takeProfitPct: real, std1: real, std2: real, now: Timestamp)
    requires |probas| == |prices| && |scores| == |prices| && |expiries| == |prices|
    requires 0.0 <= std1 <= std2 && baseHolding >= 0
    ensures CandidateRows(MakeInputs(prices, probas, scores, expiries, threshold, baseHolding,
                                     stopLossPct, takeProfitPct, std1, now))
            <= CandidateRows(MakeInputs(prices, probas, scores, expiries, threshold, baseHolding,
                                        stopLossPct, takeProfitPct, std2, now))
  {
    ExitParamsMonotoneInVolatility(baseHolding, stopLossPct, takeProfitPct,
                                   EffectiveVolatility(|prices|, std1), EffectiveVolatility(|prices|, std2));
  }

  /** The scorer raised for a signalled row, which ends the run with that exception. */
  predicate Fails(s: Inputs, i: nat)
    requires WellFormed(s) && i < |s.prices|
  {
    Signalled(s, i) && s.scores[i].Err?
  }

  /** Row `i` is signalled and its hybrid score clears the gate. */
  predicate Accepted(s: Inputs, i: nat)
    requires WellFormed(s) && i < |s.prices|
  {
    Signalled(s, i) && s.scores[i].Ok? && s.scores[i].value >= EntryGate
  }

  /** The first candidate row at or after `from` whose scoring raised. */
  function FirstFailure(s: Inputs, from: nat): (r: Option<nat>)
    requires WellFormed(s)
    ensures r.Some? ==> from <= r.value < CandidateRows(s) && Fails(s, r.value)
    ensures r.Some? ==> forall k :: from <= k < r.value ==> !Fails(s, k)
    ensures r.None? ==> forall k :: from <= k < CandidateRows(s) ==> !Fails(s, k)
    decreases CandidateRows(s) - from
  {
    if from >= CandidateRows(s) then None
    else if Fails(s, from) then Some(from)
    else FirstFailure(s, from + 1)
  }

  /** The rows below `n` at which a trade is entered, in increasing order. */
  function AcceptedRows(s: Inputs, n: nat): (r: seq<nat>)
    requires WellFormed(s) && n <= CandidateRows(s)
    ensures forall k :: 0 <= k < |r| ==> r[k] < n && Accepted(s, r[k])
    ensures forall i :: 0 <= i < n && Accepted(s, i) ==> i in r
    ensures forall k, l :: 0 <= k < l < |r| ==> r[k] < r[l]
  {
    if n == 0 then []
    else AcceptedRows(s, n - 1) + (if Accepted(s, n - 1) then [n - 1] else [])
  }

  /** The ledger record left by the trade entered at row `i`: a one-contract "LONG"
      position entered at the row's price and exited at its exit point. */
  function SimRecord(s: Inputs, i: nat): (t: TradeRecord)
    requires WellFormed(s) && i < CandidateRows(s)
  {
    var e := ExitPoint(s.prices, i, s.params);
    TradeRecord("SIM", s.prices[i], s.expiries[i], "LONG", 1, s.prices[i], s.now,
                Some(s.prices[e.0]), Some(s.now))
  }

  /** The ledger after scanning the rows below `n`: one record per accepted row, in row order. */
  function SimulatedLedger(s: Inputs, n: nat): (l: Ledger)
    requires WellFormed(s) && n <= CandidateRows(s)
    ensures |l| == |AcceptedRows(s, n)|
    ensures forall k :: 0 <= k < |l| ==> l[k] == SimRecord(s, AcceptedRows(s, n)[k])
  {
    var rows := AcceptedRows(s, n);
    seq(|rows|, k requires 0 <= k < |rows| => SimRecord(s, rows[k]))
  }

  lemma SimulatedLedgerStep(s: Inputs, n: nat)
    requires WellFormed(s) && n < CandidateRows(s)
    ensures SimulatedLedger(s, n + 1) ==
              SimulatedLedger(s, n) + (if Accepted(s, n) then [SimRecord(s, n)] else [])
  {
  }

  /** What a run ends with: the exception of the first candidate row whose scoring
      raised, or else the report of the simulated ledger. */
  function BacktestOutcome(s: Inputs): Result<PnlReport>
    requires WellFormed(s)
  {
    match FirstFailure(s, 0)
    case Some(f) => Err(s.scores[f].error)
    case None => Ok(Report(SimulatedLedger(s, CandidateRows(s))))
  }

  /** A ledger of closed "LONG" records has no open position, counts every record as
      closed, and has realised nothing, since only PUT and CALL records are priced. */
  lemma {:induction false} ClosedLongLedgerReport(l: Ledger)
    requires forall k :: 0 <= k < |l| ==> !l[k].IsOpen() && l[k].side == "LONG"
    ensures Report(l) == PnlReport(0, |l|, 0.0, 0.0)
  {
    if |l| > 0 {
      var init := l[..|l| - 1];
      assert l == init + [l[|l| - 1]];
      ClosedLongLedgerReport(init);
      ReportConcat(init, [l[|l| - 1]]);
      ReportSingle(l[|l| - 1]);
    }
  }

  /** The simulation loop of `run_backtest`, ending with `pnl_tracker.report()`. Every
      accepted row records a trade and immediately closes it, so a run that is not cut
      short by the scorer ends with no open position and one closed record per
      accepted row. */
  method RunBacktest(s: Inputs) returns (ledger: Ledger, outcome: Result<PnlReport>)
    requires WellFormed(s)
    ensures outcome == BacktestOutcome(s)
    ensures FirstFailure(s, 0).Some? ==> ledger == SimulatedLedger(s, FirstFailure(s, 0).value)
    ensures outcome.Ok? ==> ledger == SimulatedLedger(s, CandidateRows(s)) && outcome.value == Report(ledger)
    ensures outcome.Ok? ==> outcome.value == PnlReport(0, |AcceptedRows(s, CandidateRows(s))|, 0.0, 0.0)
  {
    ledger := [];
    var n := CandidateRows(s);
    var i := 0;
    while i < n
      invariant 0 <= i <= n
      invariant ledger == SimulatedLedger(s, i)
      invariant FirstFailure(s, i) == FirstFailure(s, 0)
    {
      var failure;
      ledger, failure := ScanRow(s, i, ledger);
      if failure.Some? {
        FailureEndsRun(s, i);
        outcome := Err(failure.value);
        return;
      }
      RejectedRowStep(s, i);
      i := i + 1;
    }
    CompletedRun(s);
    outcome := Ok(Report(ledger));
  }

  /** One pass of the loop body of `run_backtest` over row `i`: the scorer's exception
      when it raised for a signalled row, and otherwise the ledger with the row's trade
      recorded and closed when it is accepted. */
  method ScanRow(s: Inputs, i: nat, ledger: Ledger) returns (next: Ledger, failure: Option<PyError>)
    requires WellFormed(s) && i < CandidateRows(s)
    requires ledger == SimulatedLedger(s, i)
    ensures failure.Some? <==> Fails(s, i)
    ensures failure.Some? ==> failure.value == s.scores[i].error && next == ledger
    ensures failure.None? ==> next == SimulatedLedger(s, i + 1)
  {
    next, failure := ledger, None;
    if Signalled(s, i) {
      var entry := s.prices[i];
      match s.scores[i]
      case Err(e) =>
        failure := Some(e);
      case Ok(hybridScore) =>
        if hybridScore >= EntryGate {
          var exitIndex, reason, exitPrice := ScanForExit(s.prices, i, s.params);
          var option := Instrument("SIM", entry, s.expiries[i]);
          AcceptedRowStep(s, i, ledger);
          next := RecordTrade(ledger, option, entry, "LONG", 1, s.now);
          next := CloseTrade(next, option, exitPrice, s.now);
        }
    }
    if failure.None? {
      RejectedRowStep(s, i);
    }
  }

  /** A row whose scoring raised, reached with no earlier failure, is the first failure. */
  lemma FailureEndsRun(s: Inputs, i: nat)
    requires WellFormed(s) && i < CandidateRows(s) && Fails(s, i)
    requires FirstFailure(s, i) == FirstFailure(s, 0)
    ensures FirstFailure(s, 0) == Some(i)
    ensures BacktestOutcome(s) == Err(s.scores[i].error)
  {
  }

  /** Recording and at once closing the trade of an accepted row appends its simulated record. */
  lemma AcceptedRowStep(s: Inputs, i: nat, ledger: Ledger)
    requires WellFormed(s) && i < CandidateRows(s) && Accepted(s, i)
    requires ledger == SimulatedLedger(s, i)
    ensures var option := Instrument("SIM", s.prices[i], s.expiries[i]);
            CloseTrade(RecordTrade(ledger, option, s.prices[i], "LONG", 1, s.now),
                       option, s.prices[ExitPoint(s.prices, i, s.params).0], s.now)
            == SimulatedLedger(s, i + 1)
  {
    var option := Instrument("SIM", s.prices[i], s.expiries[i]);
    RecordThenClose(ledger, option, s.prices[i], "LONG", 1, s.now, s.prices[ExitPoint(s.prices, i, s.params).0], s.now);
    SimulatedLedgerStep(s, i);
  }

  /** A row that raised nothing moves the scan on without changing the first failure,
      and leaves the ledger alone unless it was accepted. */
  lemma RejectedRowStep(s: Inputs, i: nat)
    requires WellFormed(s) && i < CandidateRows(s) && !Fails(s, i)
    ensures FirstFailure(s, i + 1) == FirstFailure(s, i)
    ensures !Accepted(s, i) ==> SimulatedLedger(s, i + 1) == SimulatedLedger(s, i)
  {
    SimulatedLedgerStep(s, i);
  }

  /** A run that no scorer failure cuts short reports every accepted row as a closed
      position with nothing realised. */
  lemma CompletedRun(s: Inputs)
    requires WellFormed(s) && FirstFailure(s, 0).None?
    ensures BacktestOutcome(s) == Ok(Report(SimulatedLedger(s, CandidateRows(s))))
    ensures Report(SimulatedLedger(s, CandidateRows(s))) == PnlReport(0, |AcceptedRows(s, CandidateRows(s))|, 0.0, 0.0)
  {
    ClosedLongLedgerReport(SimulatedLedger(s, CandidateRows(s)));
  }

  /** A run fails exactly when some candidate row is signalled and its scoring raised. */
  lemma BacktestFailsIff(s: Inputs)
    requires WellFormed(s)
    ensures BacktestOutcome(s).Err? <==> exists i :: 0 <= i < CandidateRows(s) && Fails(s, i)
  {
  }

  /** With every hybrid score under the gate, a run enters no trade. */
  lemma NothingBelowGate(s: Inputs)
    requires WellFormed(s)
    requires forall i :: 0 <= i < |s.scores| ==> s.scores[i].Ok? && s.scores[i].value < EntryGate
    ensures SimulatedLedger(s, CandidateRows(s)) == []
    ensures BacktestOutcome(s) == Ok(PnlReport(0, 0, 0.0, 0.0))
  {
    forall i | 0 <= i < CandidateRows(s) ensures !Fails(s, i) && !Accepted(s, i) {
      assert s.scores[i].Ok? && s.scores[i].value < EntryGate;
    }
    QuietRun(s);
  }

  /** With no signalled candidate row, the scorer is never consulted and a run ends
      with an empty ledger. */
  lemma NothingSignalled(s: Inputs)
    requires WellFormed(s)
    requires forall i :: 0 <= i < CandidateRows(s) ==> !Signalled(s, i)
    ensures BacktestOutcome(s) == Ok(PnlReport(0, 0, 0.0, 0.0))
  {
    forall i | 0 <= i < CandidateRows(s) ensures !Fails(s, i) && !Accepted(s, i) {
    }
    QuietRun(s);
  }

  /** A run in which no candidate row fails or is accepted ends with an empty ledger
      and an empty report. */
  lemma QuietRun(s: Inputs)
    requires WellFormed(s)
    requires forall i :: 0 <= i < CandidateRows(s) ==> !Fails(s, i) && !Accepted(s, i)
    ensures SimulatedLedger(s, CandidateRows(s)) == []
    ensures BacktestOutcome(s) == Ok(PnlReport(0, 0, 0.0, 0.0))
  {
    NoAcceptedRows(s, CandidateRows(s));
    assert FirstFailure(s, 0).None?;
    CompletedRun(s);
  }

  /** No accepted row below `n` leaves no record below `n`. */
  lemma {:induction false} NoAcceptedRows(s: Inputs, n: nat)
    requires WellFormed(s) && n <= CandidateRows(s)
    requires forall i :: 0 <= i < n ==> !Accepted(s, i)
    ensures AcceptedRows(s, n) == []
  {
    if n > 0 {
      NoAcceptedRows(s, n - 1);
    }
  }
}
