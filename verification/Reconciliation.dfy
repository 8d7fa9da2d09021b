/** Independent replay of a backtest result (backend/application/backtest/reconciliation.py). */
module Reconciliation {
  import opened Common
  import opened Domain

  // ----- Replay of the trade log -----

  /** Replayed cash, and replayed quantity of every asset that traded. */
  datatype Ledger = Ledger(cash: real, quantities: map<AssetId, real>) {
    function Quantity(id: AssetId): real {
      GetOr(quantities, id, 0.0)
    }
  }

  /** The only records that ever moved cash or positions. */
  predicate Moves(t: TradeRecord) {
    t.status.Filled? && t.tradeDate.Some?
  }

  /** What the source asserts of its input: a dated fill has a price. */
  predicate FillsPriced(trades: seq<TradeRecord>) {
    forall i :: 0 <= i < |trades| && Moves(trades[i]) ==> trades[i].fillPrice.Some?
  }

  function Post(num: Decimals, l: Ledger, t: TradeRecord): Ledger {
    if !Moves(t) || t.fillPrice.None? then l
    else
      var notional := num.mul(t.quantity, t.fillPrice.value);
      if t.side.Buy? then
        Ledger(num.Sub(l.cash, num.add(notional, t.commission)),
               l.quantities[t.assetId := num.add(l.Quantity(t.assetId), t.quantity)])
      else
        Ledger(num.add(l.cash, num.Sub(notional, t.commission)),
               l.quantities[t.assetId := num.Sub(l.Quantity(t.assetId), t.quantity)])
  }

  function Replay(num: Decimals, l: Ledger, trades: seq<TradeRecord>): Ledger {
    if trades == [] then l else Post(num, Replay(num, l, trades[..|trades| - 1]), trades[|trades| - 1])
  }

  /** The fills dated `date`, in log order. */
  function FilledOn(trades: seq<TradeRecord>, date: int): seq<TradeRecord> {
    if trades == [] then []
    else
      var before := FilledOn(trades[..|trades| - 1], date);
      var t := trades[|trades| - 1];
      if Moves(t) && t.tradeDate.value == date then before + [t] else before
  }

  function ByDate(s: Snapshot): int {
    s.valuationDate
  }

  function Snapshots(r: BacktestResult): seq<Snapshot> {
    SortedByKey(ByDate, r.equityCurve)
  }

  /** The ledger after the fills of the first n snapshot dates. */
  function LedgerAfter(num: Decimals, r: BacktestResult, n: nat): Ledger
    requires n <= |Snapshots(r)|
  {
    if n == 0 then Ledger(r.initialCash, map[])
    else Replay(num, LedgerAfter(num, r, n - 1), FilledOn(r.trades, Snapshots(r)[n - 1].valuationDate))
  }

  /** The recorded detail of a date; a later entry for the same date wins. */
  function DetailFor(details: seq<DailyDetail>, date: int): Option<DailyDetail> {
    if details == [] then None
    else if details[|details| - 1].valuationDate == date then Some(details[|details| - 1])
    else DetailFor(details[..|details| - 1], date)
  }

  // ----- The checks -----

  datatype Field =
    | CashValue
    | NetAssetValue
    | Breakdown
    | ZeroConsistency(id: AssetId)
    | WeightBounds(id: AssetId)
    | WeightSum
    | FxPositivity(currency: Currency)
    | FinalPosition(id: AssetId)
    | FinalCash

  datatype Discrepancy = Discrepancy(date: int, field: Field, expected: real, actual: real)

  predicate WeightInBounds(w: real) {
    0.0 <= w <= 1.0
  }

  /** Checks 5 to 8 of one day. */
  ghost predicate DetailIssue(num: Decimals, s: Snapshot, d: DailyDetail, l: Ledger, x: Discrepancy) {
    x.date == s.valuationDate &&
    match x.field
    case Breakdown =>
      && x.expected == s.positionsValue && x.actual == SumItems(num, d.positionValues) && x.actual != x.expected
    case ZeroConsistency(id) =>
      && (id in l.quantities || HasKey(d.positionValues, id))
      && x.expected == l.Quantity(id) && x.actual == ItemOr(d.positionValues, id, 0.0)
      && (x.expected == 0.0) != (x.actual == 0.0)
    case WeightBounds(id) =>
      && (exists i :: 0 <= i < |d.targetWeights| && d.targetWeights[i] == (id, x.actual))
      && x.expected == 1.0 && !WeightInBounds(x.actual)
    case WeightSum =>
      && d.targetWeights != []
      && x.expected == 1.0 && x.actual == SumItems(num, d.targetWeights) && x.actual != 1.0
    case FxPositivity(currency) =>
      && currency in d.fxRates && x.actual == d.fxRates[currency] && x.expected == 0.0 && x.actual <= 0.0
    case _ => false
  }

  /** Checks 1 and 2, and the day's detail checks when a detail is recorded. */
  ghost predicate DayIssue(num: Decimals, s: Snapshot, d: Option<DailyDetail>, l: Ledger, x: Discrepancy) {
    || (x == Discrepancy(s.valuationDate, CashValue, l.cash, s.cashValue) && l.cash != s.cashValue)
    || (x == Discrepancy(s.valuationDate, NetAssetValue, num.add(s.positionsValue, s.cashValue), s.nav)
        && num.add(s.positionsValue, s.cashValue) != s.nav)
    || (d.Some? && DetailIssue(num, s, d.value, l, x))
  }

  /** Checks 3 and 4, once, on the fully replayed ledger. */
  ghost predicate FinalIssue(r: BacktestResult, l: Ledger, x: Discrepancy) {
    x.date == r.endDate &&
    match x.field
    case FinalPosition(id) =>
      && (id in l.quantities || id in r.finalPositions)
      && x.expected == l.Quantity(id) && x.actual == GetOr(r.finalPositions, id, 0.0) && x.expected != x.actual
    case FinalCash => x.expected == l.cash && x.actual == r.finalCash && x.expected != x.actual
    case _ => false
  }

  /** Everything there is to report about a result. */
  ghost predicate IsDiscrepancy(num: Decimals, r: BacktestResult, x: Discrepancy) {
    var snaps := Snapshots(r);
    || (exists i :: 0 <= i < |snaps| && IssueOn(num, r, i, x))
    || FinalIssue(r, LedgerAfter(num, r, |snaps|), x)
  }

  ghost predicate IssueOn(num: Decimals, r: BacktestResult, i: nat, x: Discrepancy)
    requires i < |Snapshots(r)|
  {
    var s := Snapshots(r)[i];
    DayIssue(num, s, DetailFor(r.dailyDetail, s.valuationDate), LedgerAfter(num, r, i + 1), x)
  }

  /** The target weights of a day pass check 7. */
  ghost predicate WeightsSound(num: Decimals, weights: Items<real>) {
    weights != [] ==>
      && (forall i :: 0 <= i < |weights| ==> WeightInBounds(weights[i].1))
      && SumItems(num, weights) == 1.0
  }

  // ----- The reconciler -----

  method CheckDailyDetail(num: Decimals, s: Snapshot, d: DailyDetail, l: Ledger) returns (found: seq<Discrepancy>)
    ensures forall x :: x in found <==> DetailIssue(num, s, d, l, x)
  {
    found := [];
    var total := SumItems(num, d.positionValues);
    if total != s.positionsValue {
      found := found + [Discrepancy(s.valuationDate, Breakdown, s.positionsValue, total)];
    }
    var keys := set i | 0 <= i < |d.positionValues| :: d.positionValues[i].0;
    var ids := l.quantities.Keys + keys;
    assert forall id :: id in ids <==> id in l.quantities || HasKey(d.positionValues, id);
    var todo := ids;
    ghost var base := found;
    while todo != {}
      invariant todo <= ids
      invariant forall x :: x in found <==> (
                    x in base ||
                    (x.field.ZeroConsistency? && x.field.id !in todo && DetailIssue(num, s, d, l, x)))
      decreases todo
    {
      var id :| id in todo;
      todo := todo - {id};
      var replayed := l.Quantity(id);
      var recorded := ItemOr(d.positionValues, id, 0.0);
      if (replayed == 0.0) != (recorded == 0.0) {
        found := found + [Discrepancy(s.valuationDate, ZeroConsistency(id), replayed, recorded)];
      }
    }
    if d.targetWeights != [] {
      base := found;
      for i := 0 to |d.targetWeights|
        invariant forall x :: x in found <==> (
                    x in base ||
                    (x.date == s.valuationDate && x.field.WeightBounds? && x.expected == 1.0
                     && !WeightInBounds(x.actual)
                     && exists k :: 0 <= k < i && d.targetWeights[k] == (x.field.id, x.actual)))
      {
        var (id, weight) := d.targetWeights[i];
        if weight < 0.0 || weight > 1.0 {
          found := found + [Discrepancy(s.valuationDate, WeightBounds(id), 1.0, weight)];
        }
      }
      var weightTotal := SumItems(num, d.targetWeights);
      if weightTotal != 1.0 {
        found := found + [Discrepancy(s.valuationDate, WeightSum, 1.0, weightTotal)];
      }
    }
    base := found;
    var currencies := d.fxRates.Keys;
    while currencies != {}
      invariant currencies <= d.fxRates.Keys
      invariant forall x :: x in found <==> (
                    x in base ||
                    (x.field.FxPositivity? && x.field.currency !in currencies && DetailIssue(num, s, d, l, x)))
      decreases currencies
    {
      var currency :| currency in currencies;
      currencies := currencies - {currency};
      var rate := d.fxRates[currency];
      if rate <= 0.0 {
        found := found + [Discrepancy(s.valuationDate, FxPositivity(currency), 0.0, rate)];
      }
    }
  }

  /** `trades_by_date`: the dated fills, bucketed. */
  method BucketByDate(trades: seq<TradeRecord>) returns (byDate: map<int, seq<TradeRecord>>)
    ensures forall date :: GetOr(byDate, date, []) == FilledOn(trades, date)
  {
    byDate := map[];
    for i := 0 to |trades|
      invariant forall date :: GetOr(byDate, date, []) == FilledOn(trades[..i], date)
    {
      assert trades[..i + 1][..i] == trades[..i];
      var trade := trades[i];
      if !trade.status.Filled? || trade.tradeDate.None? {
        continue;
      }
      var date := trade.tradeDate.value;
      byDate := byDate[date := GetOr(byDate, date, []) + [trade]];
    }
    assert trades[..|trades|] == trades;
  }

  /** Post one day's fills to the running ledger. */
  method ReplayDay(num: Decimals, start: Ledger, fills: seq<TradeRecord>) returns (l: Ledger)
    requires forall t :: t in fills ==> Moves(t) && t.fillPrice.Some?
    ensures l == Replay(num, start, fills)
  {
    var cash, quantities := start.cash, start.quantities;
    for i := 0 to |fills|
      invariant Ledger(cash, quantities) == Replay(num, start, fills[..i])
    {
      assert fills[..i + 1][..i] == fills[..i];
      var trade := fills[i];
      var notional := num.mul(trade.quantity, trade.fillPrice.value);
      if trade.side.Buy? {
        cash := num.Sub(cash, num.add(notional, trade.commission));
        quantities := quantities[trade.assetId := num.add(GetOr(quantities, trade.assetId, 0.0), trade.quantity)];
      } else {
        cash := num.add(cash, num.Sub(notional, trade.commission));
        quantities := quantities[trade.assetId := num.Sub(GetOr(quantities, trade.assetId, 0.0), trade.quantity)];
      }
    }
    assert fills[..|fills|] == fills;
    l := Ledger(cash, quantities);
  }

  lemma {:induction false} FilledOnMoves(trades: seq<TradeRecord>, date: int)
    requires FillsPriced(trades)
    ensures forall t :: t in FilledOn(trades, date) ==> Moves(t) && t.fillPrice.Some? && t.tradeDate == Some(date)
  {
    if trades != [] {
      var n := |trades| - 1;
      assert Moves(trades[n]) ==> trades[n].fillPrice.Some?;
      FilledOnMoves(trades[..n], date);
    }
  }

  lemma {:induction false} DetailForStep(details: seq<DailyDetail>, i: nat, date: int)
    requires i < |details|
    ensures DetailFor(details[..i + 1], date)
         == if details[i].valuationDate == date then Some(details[i]) else DetailFor(details[..i], date)
  {
    assert details[..i + 1][..i] == details[..i];
  }

  /** The detail of each date, the last one if there were several. */
  method IndexDetails(details: seq<DailyDetail>) returns (byDate: map<int, DailyDetail>)
    ensures forall date :: DetailFor(details, date) == if date in byDate then Some(byDate[date]) else None
  {
    byDate := map[];
    for i := 0 to |details|
      invariant forall date :: DetailFor(details[..i], date) == if date in byDate then Some(byDate[date]) else None
    {
      forall date {
        DetailForStep(details, i, date);
      }
      byDate := byDate[details[i].valuationDate := details[i]];
    }
    assert details[..|details|] == details;
  }

  /** The checks of the final positions and the final cash. */
  method CheckFinals(r: BacktestResult, ledger: Ledger) returns (found: seq<Discrepancy>)
    ensures forall x :: x in found <==> FinalIssue(r, ledger, x)
  {
    found := [];
    var todo := ledger.quantities.Keys + r.finalPositions.Keys;
    ghost var ids := todo;
    while todo != {}
      invariant todo <= ids
      invariant forall x :: x in found <==> x.field.FinalPosition? && x.field.id !in todo && FinalIssue(r, ledger, x)
      decreases todo
    {
      var id :| id in todo;
      todo := todo - {id};
      var expected := ledger.Quantity(id);
      var actual := GetOr(r.finalPositions, id, 0.0);
      if expected != actual {
        found := found + [Discrepancy(r.endDate, FinalPosition(id), expected, actual)];
      }
    }
    if ledger.cash != r.finalCash {
      found := found + [Discrepancy(r.endDate, FinalCash, ledger.cash, r.finalCash)];
    }
  }

  /** `reconcile_backtest_result`: reports exactly the discrepancies there are. */
  method Reconcile(num: Decimals, r: BacktestResult) returns (passed: bool, found: seq<Discrepancy>)
    requires FillsPriced(r.trades)
    ensures forall x :: x in found <==> IsDiscrepancy(num, r, x)
    ensures passed <==> forall x :: !IsDiscrepancy(num, r, x)
  {
    found := [];
    var byDate := BucketByDate(r.trades);
    var detailByDate := IndexDetails(r.dailyDetail);
    var ledger := Ledger(r.initialCash, map[]);
    var snaps := Snapshots(r);
    for i := 0 to |snaps|
      invariant ledger == LedgerAfter(num, r, i)
      invariant forall x :: x in found <==> exists k :: 0 <= k < i && IssueOn(num, r, k, x)
    {
      var s := snaps[i];
      FilledOnMoves(r.trades, s.valuationDate);
      ledger := ReplayDay(num, ledger, GetOr(byDate, s.valuationDate, []));
      var today: seq<Discrepancy> := [];
      if ledger.cash != s.cashValue {
        today := today + [Discrepancy(s.valuationDate, CashValue, ledger.cash, s.cashValue)];
      }
      var recomputed := num.add(s.positionsValue, s.cashValue);
      if recomputed != s.nav {
        today := today + [Discrepancy(s.valuationDate, NetAssetValue, recomputed, s.nav)];
      }
      if s.valuationDate in detailByDate {
        var more := CheckDailyDetail(num, s, detailByDate[s.valuationDate], ledger);
        today := today + more;
      }
      assert forall x :: x in today <==> IssueOn(num, r, i, x);
      found := found + today;
    }

    var finals := CheckFinals(r, ledger);
    found := found + finals;
    passed := found == [];
    assert found != [] ==> found[0] in found;
  }
}
