/** `reconcile_outcomes`: fills the "Actual PnL" of every open "Sell Call" row of the
    trade history whose underlying price at expiry is known. Reading and writing the
    CSV file is the caller's business here: the table comes in as rows and the
    outcome says whether the file would be rewritten. */
module ReconcileOutcomes {
  import opened Results
  import opened Numeric

  const SellCall: string := "Sell Call"

  /** One row of the trade history. A missing cell or column is `None`: pandas reads an
      empty cell as NaN, and `pd.notnull` treats NaN and a missing value alike. */
  datatype LogRow = LogRow(
    kind: string,
    strike: Option<real>,
    premium: Option<real>,
    expiryPrice: Option<real>,
    actualPnl: Option<real>)

  /** Both prices the profit is computed from are present. */
  predicate Priced(row: LogRow)
  {
    row.strike.Some? && row.premium.Some?
  }

  /** The profit of a short call held to expiry: the premium, less the amount by which
      the underlying finished above the strike. */
  function ExpiryPnl(strike: real, premium: real, expiryPrice: real): (pnl: real)
    ensures pnl <= premium
    ensures pnl == premium <==> expiryPrice <= strike
    ensures expiryPrice > strike ==> pnl + (expiryPrice - strike) == premium
  {
    if expiryPrice <= strike then premium else premium - (expiryPrice - strike)
  }

  /** A higher price at expiry never raises the short call's profit. */
  lemma ExpiryPnlAntitone(strike: real, premium: real, e1: real, e2: real)
    requires e1 <= e2
    ensures ExpiryPnl(strike, premium, e2) <= ExpiryPnl(strike, premium, e1)
  {
  }

  /** The row is a short call with no recorded outcome and a known expiry price. */
  predicate NeedsUpdate(row: LogRow)
  {
    row.actualPnl.None? && row.kind == SellCall && row.expiryPrice.Some?
  }

  /** `round(pnl, 2)` as written into the "Actual PnL" cell. With an empty strike or
      premium the arithmetic yields NaN, whichever branch the comparison with NaN takes,
      and NaN is written back as an empty cell. */
  function OutcomeCell(row: LogRow): (cell: Option<real>)
    requires row.expiryPrice.Some?
    ensures cell.Some? <==> Priced(row)
    ensures cell.Some? ==>
              -0.005 <= cell.value - ExpiryPnl(row.strike.value, row.premium.value, row.expiryPrice.value) <= 0.005
  {
    if Priced(row) then
      assert 0.5 / 100 as real == 0.005;
      Some(RoundTo(ExpiryPnl(row.strike.value, row.premium.value, row.expiryPrice.value), 100))
    else None
  }

  /** The row with its outcome cell written, when it needs one. */
  function ReconcileRow(row: LogRow): (r: LogRow)
    ensures !NeedsUpdate(row) ==> r == row
    ensures NeedsUpdate(row) ==> r == row.(actualPnl := r.actualPnl)
    ensures NeedsUpdate(row) ==> (r.actualPnl.Some? <==> Priced(row))
    ensures NeedsUpdate(row) && Priced(row) ==>
              -0.005 <= r.actualPnl.value - ExpiryPnl(row.strike.value, row.premium.value, row.expiryPrice.value) <= 0.005
    ensures NeedsUpdate(row) && Priced(row) ==>
              r.actualPnl == Some(RoundTo(ExpiryPnl(row.strike.value, row.premium.value, row.expiryPrice.value), 100))
    ensures NeedsUpdate(r) <==> NeedsUpdate(row) && !Priced(row)
  {
    if NeedsUpdate(row) then row.(actualPnl := OutcomeCell(row)) else row
  }

  function ReconcileRows(rows: seq<LogRow>): (r: seq<LogRow>)
    ensures |r| == |rows|
    ensures forall i :: 0 <= i < |rows| ==> r[i] == ReconcileRow(rows[i])
  {
    seq(|rows|, i requires 0 <= i < |rows| => ReconcileRow(rows[i]))
  }

  /** What a call leaves behind: no log file, a rewritten file, or an untouched one. */
  datatype Outcome = NoLog | Rewritten(rows: seq<LogRow>) | NotUpdated

  /** The file is rewritten exactly when some row gained an outcome. */
  function Reconcile(log: Option<seq<LogRow>>): (out: Outcome)
    ensures log.None? <==> out == NoLog
    ensures log.Some? ==> (out.Rewritten? <==> exists i :: 0 <= i < |log.value| && NeedsUpdate(log.value[i]))
    ensures out.Rewritten? ==> out.rows == ReconcileRows(log.value)
  {
    match log
    case None => NoLog
    case Some(rows) =>
      if exists i :: 0 <= i < |rows| && NeedsUpdate(rows[i]) then Rewritten(ReconcileRows(rows))
      else NotUpdated
  }

  /** A table with no row needing an outcome is what reconciling it would produce. */
  lemma NotUpdatedIsFixedPoint(rows: seq<LogRow>)
    requires Reconcile(Some(rows)) == NotUpdated
    ensures ReconcileRows(rows) == rows
  {
  }

  /** Reconciling the reconciled table again changes no cell. It writes nothing
      exactly when every row that needed an outcome had both its strike and premium. */
  lemma ReconcileIdempotent(rows: seq<LogRow>)
    ensures ReconcileRows(ReconcileRows(rows)) == ReconcileRows(rows)
    ensures Reconcile(Some(ReconcileRows(rows))) == NotUpdated <==>
              forall i :: 0 <= i < |rows| && NeedsUpdate(rows[i]) ==> Priced(rows[i])
  {
    var once := ReconcileRows(rows);
    assert forall i :: 0 <= i < |once| ==> (NeedsUpdate(once[i]) <==> NeedsUpdate(rows[i]) && !Priced(rows[i]));
  }

  /** A short call with an expiry price but an empty strike or premium cell keeps an
      empty outcome, yet the file is rewritten, and rewritten again on every later run. */
  lemma BlankPriceRewrittenEveryRun(rows: seq<LogRow>, i: nat)
    requires i < |rows| && NeedsUpdate(rows[i]) && !Priced(rows[i])
    ensures Reconcile(Some(rows)).Rewritten?
    ensures ReconcileRows(rows)[i] == rows[i]
    ensures Reconcile(Some(ReconcileRows(rows))).Rewritten?
  {
    assert NeedsUpdate(ReconcileRows(rows)[i]);
  }

  /** Rows already carrying an outcome, rows of other kinds, and rows without an
      expiry price keep every cell. */
  lemma RecordedOutcomesKept(rows: seq<LogRow>, i: nat)
    requires i < |rows|
    requires rows[i].actualPnl.Some? || rows[i].kind != SellCall || rows[i].expiryPrice.None?
    ensures ReconcileRows(rows)[i] == rows[i]
  {
  }

  /** A short call that expired at or below its strike keeps its whole premium. */
  lemma OutOfTheMoneyKeepsPremium(row: LogRow)
    requires NeedsUpdate(row) && Priced(row) && row.expiryPrice.value <= row.strike.value
    ensures ReconcileRow(row).actualPnl == Some(RoundTo(row.premium.value, 100))
  {
  }
}
