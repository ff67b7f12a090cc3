/** `PnLTracker`: an append-only ledger of trade records. A record is opened by
    `record_trade`, closed at most once by `close_trade` (the most recent open record
    for the instrument), and summarised by `report`. */
module PnlTracker {
  import opened Results
  import opened Numeric

  /** A clock reading (`datetime.utcnow()`); the model never looks inside it. */
  type Timestamp = int

  /** Shares per option contract. */
  const ContractMultiplier: real := 100.0

  /** The attributes `record_trade` and `close_trade` read from the option object. */
  datatype Instrument = Instrument(symbol: string, strike: real, expiry: string)

  /** PnL of a short option position: the premium received less the current price,
      per share, times the quantity and the contract multiplier. */
  function ShortOptionPnl(entryPrice: real, price: real, quantity: int): real
  {
    (entryPrice - price) * quantity as real * ContractMultiplier
  }

  datatype TradeRecord = TradeRecord(
    symbol: string,
    strike: real,
    expiry: string,
    side: string,
    quantity: int,
    entryPrice: real,
    entryTime: Timestamp,
    exitPrice: Option<real>,
    exitTime: Option<Timestamp>)
  {
    predicate IsOpen()
    {
      exitPrice.None?
    }

    /** Only "PUT" and "CALL" records are priced, as short options. */
    predicate IsShortOption()
    {
      side == "PUT" || side == "CALL"
    }

    /** Marked to `currentPrice`: a short option gains what the price fell since entry. */
    function UnrealizedPnl(currentPrice: real): (r: real)
      ensures !IsShortOption() ==> r == 0.0
      ensures IsShortOption() ==> r == ShortOptionPnl(entryPrice, currentPrice, quantity)
      ensures IsShortOption() && currentPrice <= entryPrice && quantity >= 0 ==> r >= 0.0
    {
      if IsShortOption() then ShortOptionPnl(entryPrice, currentPrice, quantity) else 0.0
    }

    /** What a closed short option locked in: the entry premium less the exit price. */
    function RealizedPnl(): (r: real)
      ensures IsOpen() || !IsShortOption() ==> r == 0.0
      ensures !IsOpen() && IsShortOption() ==> r == ShortOptionPnl(entryPrice, exitPrice.value, quantity)
    {
      if !IsOpen() && exitPrice.Some? then
        if IsShortOption() then ShortOptionPnl(entryPrice, exitPrice.value, quantity) else 0.0
      else 0.0
    }

    predicate Matches(instrument: Instrument)
    {
      symbol == instrument.symbol && strike == instrument.strike && expiry == instrument.expiry
    }
  }

  /** A closed record has realised exactly what it showed unrealised at its exit price. */
  lemma RealizedIsUnrealizedAtExit(t: TradeRecord)
    requires !t.IsOpen()
    ensures t.RealizedPnl() == t.UnrealizedPnl(t.exitPrice.value)
  {
  }

  type Ledger = seq<TradeRecord>

  function RealizedTerm(): TradeRecord -> real
  {
    (t: TradeRecord) => t.RealizedPnl()
  }

  /** `record_trade`: appends one open record, with no duplicate check. */
  function RecordTrade(ledger: Ledger, option: Instrument, premium: real, side: string, quantity: int,
                       now: Timestamp): (r: Ledger)
    ensures |r| == |ledger| + 1 && r[..|ledger|] == ledger
    ensures r[|ledger|].IsOpen() && r[|ledger|].Matches(option)
    ensures r[|ledger|].side == side && r[|ledger|].quantity == quantity && r[|ledger|].entryPrice == premium
  {
    ledger + [TradeRecord(option.symbol, option.strike, option.expiry, side, quantity, premium, now, None, None)]
  }

  predicate OpenMatch(t: TradeRecord, option: Instrument)
  {
    t.IsOpen() && t.Matches(option)
  }

  /** The position of the last open record for the instrument (`open_trades[-1]`). */
  function LastOpenMatch(ledger: Ledger, option: Instrument): (r: Option<nat>)
    ensures r.Some? ==> r.value < |ledger| && OpenMatch(ledger[r.value], option)
    ensures r.Some? ==> forall j :: r.value < j < |ledger| ==> !OpenMatch(ledger[j], option)
    ensures r.None? ==> forall j :: 0 <= j < |ledger| ==> !OpenMatch(ledger[j], option)
  {
    if |ledger| == 0 then None
    else if OpenMatch(ledger[|ledger| - 1], option) then Some(|ledger| - 1)
    else LastOpenMatch(ledger[..|ledger| - 1], option)
  }

  /** `close_trade`: sets the exit of the most recently opened matching record and
      touches nothing else; with no open match the ledger is unchanged. */
  function CloseTrade(ledger: Ledger, option: Instrument, exitPrice: real, now: Timestamp): (r: Ledger)
    ensures |r| == |ledger|
    ensures (forall j :: 0 <= j < |ledger| ==> !OpenMatch(ledger[j], option)) ==> r == ledger
    ensures (exists j :: 0 <= j < |ledger| && OpenMatch(ledger[j], option)) ==>
              exists k :: 0 <= k < |ledger| && OpenMatch(ledger[k], option)
                && (forall j :: k < j < |ledger| ==> !OpenMatch(ledger[j], option))
                && r[k] == ledger[k].(exitPrice := Some(exitPrice), exitTime := Some(now))
                && (forall j :: 0 <= j < |ledger| && j != k ==> r[j] == ledger[j])
  {
    match LastOpenMatch(ledger, option)
    case None => ledger
    case Some(k) => ledger[k := ledger[k].(exitPrice := Some(exitPrice), exitTime := Some(now))]
  }

  /** With two open records for the same instrument, closing leaves the earlier one open. */
  lemma CloseTradeIsLifo(ledger: Ledger, option: Instrument, exitPrice: real, now: Timestamp, i: nat, j: nat)
    requires i < j < |ledger|
    requires OpenMatch(ledger[i], option) && OpenMatch(ledger[j], option)
    ensures CloseTrade(ledger, option, exitPrice, now)[i] == ledger[i]
    ensures CloseTrade(ledger, option, exitPrice, now)[i].IsOpen()
  {
  }

  /** Recording a trade and closing it straight away appends one closed record. */
  lemma RecordThenClose(ledger: Ledger, option: Instrument, premium: real, side: string, quantity: int,
                        openedAt: Timestamp, exitPrice: real, closedAt: Timestamp)
    ensures CloseTrade(RecordTrade(ledger, option, premium, side, quantity, openedAt), option, exitPrice, closedAt)
            == ledger + [TradeRecord(option.symbol, option.strike, option.expiry, side, quantity, premium,
                                     openedAt, Some(exitPrice), Some(closedAt))]
  {
    var l := RecordTrade(ledger, option, premium, side, quantity, openedAt);
    assert LastOpenMatch(l, option) == Some(|ledger|);
  }

  function OpenPositions(ledger: Ledger): (r: Ledger)
    ensures forall t :: t in r ==> t in ledger && t.IsOpen()
  {
    if |ledger| == 0 then []
    else (if ledger[0].IsOpen() then [ledger[0]] else []) + OpenPositions(ledger[1..])
  }

  function ClosedPositions(ledger: Ledger): (r: Ledger)
    ensures forall t :: t in r ==> t in ledger && !t.IsOpen()
  {
    if |ledger| == 0 then []
    else (if ledger[0].IsOpen() then [] else [ledger[0]]) + ClosedPositions(ledger[1..])
  }

  lemma {:induction false} PositionsAppend(a: Ledger, b: Ledger)
    ensures OpenPositions(a + b) == OpenPositions(a) + OpenPositions(b)
    ensures ClosedPositions(a + b) == ClosedPositions(a) + ClosedPositions(b)
  {
    OpenPositionsAppend(a, b);
    ClosedPositionsAppend(a, b);
  }

  lemma {:induction false} OpenPositionsAppend(a: Ledger, b: Ledger)
    ensures OpenPositions(a + b) == OpenPositions(a) + OpenPositions(b)
  {
    if |a| == 0 {
      assert a + b == b;
    } else {
      assert (a + b)[0] == a[0];
      assert (a + b)[1..] == a[1..] + b;
      OpenPositionsAppend(a[1..], b);
    }
  }

  lemma {:induction false} ClosedPositionsAppend(a: Ledger, b: Ledger)
    ensures ClosedPositions(a + b) == ClosedPositions(a) + ClosedPositions(b)
  {
    if |a| == 0 {
      assert a + b == b;
    } else {
      assert (a + b)[0] == a[0];
      assert (a + b)[1..] == a[1..] + b;
      ClosedPositionsAppend(a[1..], b);
    }
  }

  /** Every record is open or closed, and open records have realised nothing, so the
      realised total over closed records is the total over the whole ledger. */
  lemma {:induction false} PositionsPartition(ledger: Ledger)
    ensures |OpenPositions(ledger)| + |ClosedPositions(ledger)| == |ledger|
    ensures SumOf(ClosedPositions(ledger), RealizedTerm()) == SumOf(ledger, RealizedTerm())
  {
    if |ledger| > 0 {
      PositionsPartition(ledger[1..]);
      var head := if ledger[0].IsOpen() then [] else [ledger[0]];
      SumOfAppend(head, ClosedPositions(ledger[1..]), RealizedTerm());
    }
  }

  datatype PnlReport = PnlReport(openCount: nat, closedCount: nat, realizedPnl: real, unrealizedPnl: real)

  /** `report`: the open and closed counts, the realised total over closed records,
      and 0.0 as the unrealised placeholder. */
  function Report(ledger: Ledger): (r: PnlReport)
    ensures r.openCount + r.closedCount == |ledger|
    ensures r.realizedPnl == SumOf(ledger, RealizedTerm())
    ensures r.unrealizedPnl == 0.0
  {
    PositionsPartition(ledger);
    PnlReport(|OpenPositions(ledger)|, |ClosedPositions(ledger)|,
              SumOf(ClosedPositions(ledger), RealizedTerm()), 0.0)
  }

  /** The report of two ledgers side by side adds up the reports of each. */
  lemma ReportConcat(a: Ledger, b: Ledger)
    ensures Report(a + b).openCount == Report(a).openCount + Report(b).openCount
    ensures Report(a + b).closedCount == Report(a).closedCount + Report(b).closedCount
    ensures Report(a + b).realizedPnl == Report(a).realizedPnl + Report(b).realizedPnl
  {
    PositionsAppend(a, b);
    SumOfAppend(a, b, RealizedTerm());
  }

  lemma ReportSingle(t: TradeRecord)
    ensures Report([t]).openCount == (if t.IsOpen() then 1 else 0)
    ensures Report([t]).closedCount == (if t.IsOpen() then 0 else 1)
    ensures Report([t]).realizedPnl == t.RealizedPnl()
  {
    assert [t][1..] == [];
    assert RealizedTerm()(t) == t.RealizedPnl();
    assert SumOf([t], RealizedTerm()) == RealizedTerm()(t) + SumOf([t][1..], RealizedTerm());
  }

  /** Recording opens one more position and changes neither the closed count nor the realised total. */
  lemma ReportAfterRecord(ledger: Ledger, option: Instrument, premium: real, side: string, quantity: int,
                          now: Timestamp)
    ensures var before, after := Report(ledger), Report(RecordTrade(ledger, option, premium, side, quantity, now));
            after == before.(openCount := before.openCount + 1)
  {
    var rec := TradeRecord(option.symbol, option.strike, option.expiry, side, quantity, premium, now, None, None);
    ReportConcat(ledger, [rec]);
    ReportSingle(rec);
  }

  /** Closing the record at `k` replaces it in place. */
  lemma CloseTradeSplice(ledger: Ledger, option: Instrument, exitPrice: real, now: Timestamp, k: nat)
    requires LastOpenMatch(ledger, option) == Some(k)
    ensures CloseTrade(ledger, option, exitPrice, now)
            == ledger[..k] + [ledger[k].(exitPrice := Some(exitPrice), exitTime := Some(now))] + ledger[k + 1..]
  {
  }

  /** The report of a ledger with one record singled out. */
  lemma ReportSplice(pre: Ledger, t: TradeRecord, post: Ledger)
    ensures Report(pre + [t] + post).openCount == Report(pre).openCount + Report([t]).openCount + Report(post).openCount
    ensures Report(pre + [t] + post).closedCount == Report(pre).closedCount + Report([t]).closedCount + Report(post).closedCount
    ensures Report(pre + [t] + post).realizedPnl == Report(pre).realizedPnl + Report([t]).realizedPnl + Report(post).realizedPnl
  {
    ReportConcat(pre + [t], post);
    ReportConcat(pre, [t]);
  }

  /** Closing a matched record moves one position from open to closed and adds its
      realised PnL to the total. */
  lemma ReportAfterClose(ledger: Ledger, option: Instrument, exitPrice: real, now: Timestamp, k: nat)
    requires LastOpenMatch(ledger, option) == Some(k)
    ensures var before, after := Report(ledger), Report(CloseTrade(ledger, option, exitPrice, now));
            && before.openCount >= 1
            && after.openCount == before.openCount - 1
            && after.closedCount == before.closedCount + 1
            && after.realizedPnl ==
                 before.realizedPnl + ledger[k].(exitPrice := Some(exitPrice), exitTime := Some(now)).RealizedPnl()
  {
    var x := ledger[k].(exitPrice := Some(exitPrice), exitTime := Some(now));
    var pre, post := ledger[..k], ledger[k + 1..];
    assert ledger == pre + [ledger[k]] + post;
    CloseTradeSplice(ledger, option, exitPrice, now, k);
    ReportSplice(pre, ledger[k], post);
    ReportSplice(pre, x, post);
    ReportSingle(ledger[k]);
    ReportSingle(x);
  }

  /** Appending one closed short-option record adds a closed position and its
      premium difference times quantity and contract multiplier to the realised total. */
  lemma ReportAfterClosedShortOption(ledger: Ledger, rec: TradeRecord)
    requires !rec.IsOpen() && rec.IsShortOption()
    ensures Report(ledger + [rec]).openCount == Report(ledger).openCount
    ensures Report(ledger + [rec]).closedCount == Report(ledger).closedCount + 1
    ensures Report(ledger + [rec]).realizedPnl ==
              Report(ledger).realizedPnl + ShortOptionPnl(rec.entryPrice, rec.exitPrice.value, rec.quantity)
  {
    ReportConcat(ledger, [rec]);
    ReportSingle(rec);
  }

  /** Open a short option at one premium, close it at another: the report realises
      the premium difference per share times the quantity and the contract multiplier. */
  lemma RoundTripRealizesPremiumDifference(ledger: Ledger, option: Instrument, premium: real, side: string,
                                           quantity: int, exitPrice: real, openedAt: Timestamp, closedAt: Timestamp)
    requires side == "PUT" || side == "CALL"
    ensures var after := CloseTrade(RecordTrade(ledger, option, premium, side, quantity, openedAt), option, exitPrice, closedAt);
            && Report(after).openCount == Report(ledger).openCount
            && Report(after).closedCount == Report(ledger).closedCount + 1
            && Report(after).realizedPnl ==
                 Report(ledger).realizedPnl + ShortOptionPnl(premium, exitPrice, quantity)
  {
    var rec := TradeRecord(option.symbol, option.strike, option.expiry, side, quantity, premium,
                           openedAt, Some(exitPrice), Some(closedAt));
    var after := CloseTrade(RecordTrade(ledger, option, premium, side, quantity, openedAt), option, exitPrice, closedAt);
    RecordThenClose(ledger, option, premium, side, quantity, openedAt, exitPrice, closedAt);
    assert after == ledger + [rec];
    assert rec.IsShortOption();
    ReportAfterClosedShortOption(ledger, rec);
    assert Report(after) == Report(ledger + [rec]);
  }

  /** A PUT sold at 2.00 and bought back at 1.50 realises 50.0 on one contract. */
  lemma PutRoundTripExample(option: Instrument, openedAt: Timestamp, closedAt: Timestamp)
    ensures Report(CloseTrade(RecordTrade([], option, 2.00, "PUT", 1, openedAt), option, 1.50, closedAt)).realizedPnl == 50.0
  {
    RoundTripRealizesPremiumDifference([], option, 2.00, "PUT", 1, 1.50, openedAt, closedAt);
    assert ShortOptionPnl(2.00, 1.50, 1) == 50.0;
  }
}
