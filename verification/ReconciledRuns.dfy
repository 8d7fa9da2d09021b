/** When the reconciler accepts what the engine produced: for any arithmetic, strategy and risk policy, the only
    discrepancies a completed run can show are unsound target weights, held positions worth zero, and FX rates that
    are not positive. */
module ReconciledRuns {
  import opened Common
  import opened Domain
  import opened Engine
  import opened Matching
  import opened RunFacts
  import opened Reconciliation

  /** No product of nonzero numbers is rounded to zero. */
  ghost predicate NoUnderflow(num: Decimals) {
    forall x, y :: x != 0.0 && y != 0.0 ==> num.mul(x, y) != 0.0
  }

  predicate PositiveBars(bars: seq<AlignedBar>) {
    forall i :: 0 <= i < |bars| ==> bars[i].open > 0.0 && bars[i].close > 0.0
  }

  /** Strictly positive prices and FX rates. */
  ghost predicate PositiveMarket(b: Backtest) {
    && (forall id :: id in b.series ==> PositiveBars(b.series[id]))
    && (forall c :: c in b.fx ==> PositiveBars(b.fx[c]))
  }

  // ----- Cash and positions -----

  /** The replayed ledger agrees with the engine's books. */
  ghost predicate Agrees(s: State, l: Ledger) {
    && l.cash == s.cash
    && l.quantities.Keys <= s.positions.Keys
    && forall id :: id in s.positions ==> s.positions[id] == l.Quantity(id)
  }

  ghost function LogLedger(b: Backtest, trades: seq<TradeRecord>): Ledger {
    Replay(b.cfg.num, Ledger(b.cfg.initialCash, map[]), trades)
  }

  lemma FillAgrees(b: Backtest, s: State, p: PlannedOrder, day: nat, l: Ledger)
    requires FillOne(b, s, p, day).Success? && Agrees(s, l)
    ensures var s' := FillOne(b, s, p, day).value;
            s'.trades != [] && Agrees(s', Post(b.cfg.num, l, s'.trades[|s'.trades| - 1]))
  {
    hide RoundToLot, ApplySlippage, ComputeCommission, PriceAt, SizeFill;
    FillOneEffect(b, s, p, day);
    var num := b.cfg.num;
    var c := s.context[p.assetId];
    var quote := PriceAt(b, p.assetId, day, Open).value;
    var f := SimulateFill(b, p, quote.price, b.cfg.startDate + day, s.seqNo + 1, c).value;
    var s' := FillOne(b, s, p, day).value;
    if f.record.status.Filled? {
      assert s'.cash == num.add(s.cash, f.cashDelta);
      assert s'.positions == s.positions[p.assetId := num.add(s.positions[p.assetId], f.positionDelta)];
    }
  }

  lemma LastPosted(b: Backtest, trades: seq<TradeRecord>, n: nat)
    requires |trades| == n + 1
    ensures LogLedger(b, trades) == Post(b.cfg.num, LogLedger(b, trades[..n]), trades[n])
  {
  }

  lemma {:induction false} FillsAgree(b: Backtest, s: State, day: nat, n: nat)
    requires n <= |s.pending| && FillUpTo(b, s, day, n).Success? && Agrees(s, LogLedger(b, s.trades))
    ensures Agrees(FillUpTo(b, s, day, n).value, LogLedger(b, FillUpTo(b, s, day, n).value.trades))
  {
    hide FillOne, LogLedger, Agrees;
    if n > 0 {
      FillsAgree(b, s, day, n - 1);
      var before, after := FillUpTo(b, s, day, n - 1).value, FillUpTo(b, s, day, n).value;
      FillOneEffect(b, before, s.pending[n - 1], day);
      FillAgrees(b, before, s.pending[n - 1], day, LogLedger(b, before.trades));
      LastPosted(b, after.trades, |after.trades| - 1);
    }
  }

  lemma {:induction false} ReplayAppend(num: Decimals, l: Ledger, xs: seq<TradeRecord>, ys: seq<TradeRecord>)
    ensures Replay(num, l, xs + ys) == Replay(num, Replay(num, l, xs), ys)
  {
    if ys == [] {
      assert xs + ys == xs;
    } else {
      var n := |ys| - 1;
      ReplayAppend(num, l, xs, ys[..n]);
      assert (xs + ys)[..|xs + ys| - 1] == xs + ys[..n];
    }
  }

  lemma {:induction false} ReplayIdle(num: Decimals, l: Ledger, ts: seq<TradeRecord>)
    requires forall t :: t in ts ==> !Moves(t)
    ensures Replay(num, l, ts) == l
  {
    if ts != [] {
      ReplayIdle(num, l, ts[..|ts| - 1]);
    }
  }

  /** Refusals logged after the fills of a day do not change the ledger. */
  lemma RefusalsAreIdle(b: Backtest, n: nat)
    requires Ran(b, n + 1)
    ensures LogLedger(b, After(b, n + 1).trades) == LogLedger(b, FilledAt(b, n).trades)
  {
    hide Ran, After, FilledAt, DecisionOn, Replay;
    DayEffect(b, n);
    var f, s' := FilledAt(b, n).trades, After(b, n + 1).trades;
    var tail := s'[|f|..];
    assert s' == f + tail;
    forall t | t in tail
      ensures !Moves(t)
    {
      var i :| 0 <= i < |tail| && tail[i] == t;
      assert s'[|f| + i] == t;
    }
    ReplayAppend(b.cfg.num, Ledger(b.cfg.initialCash, map[]), f, tail);
    ReplayIdle(b.cfg.num, LogLedger(b, f), tail);
  }

  lemma EmptyReplay(b: Backtest)
    ensures LogLedger(b, []) == Ledger(b.cfg.initialCash, map[]) && Agrees(Initial(b), LogLedger(b, []))
  {
  }

  /** On every day, replaying the log so far gives exactly the engine's cash and positions. */
  lemma {:induction false} BooksMatchLog(b: Backtest, n: nat)
    requires Ran(b, n)
    ensures Agrees(After(b, n), LogLedger(b, After(b, n).trades))
    ensures n > 0 ==> Ran(b, n) && Agrees(FilledAt(b, n - 1), LogLedger(b, FilledAt(b, n - 1).trades))
  {
    hide Ran, After, FilledAt, DecisionOn, FillUpTo, Replay;
    if n == 0 {
      Start(b);
      EmptyReplay(b);
    } else {
      DayEffect(b, n - 1);
      DayFills(b, n - 1);
      BooksMatchLog(b, n - 1);
      FillsAgree(b, After(b, n - 1), n - 1, |After(b, n - 1).pending|);
      RefusalsAreIdle(b, n - 1);
    }
  }

  // ----- The day-by-day replay sees the log in log order -----

  lemma {:induction false} FilledOnAppend(xs: seq<TradeRecord>, ys: seq<TradeRecord>, date: int)
    ensures FilledOn(xs + ys, date) == FilledOn(xs, date) + FilledOn(ys, date)
  {
    if ys == [] {
      assert xs + ys == xs;
    } else {
      var n := |ys| - 1;
      FilledOnAppend(xs, ys[..n], date);
      assert (xs + ys)[..|xs + ys| - 1] == xs + ys[..n];
    }
  }

  lemma {:induction false} FilledOnElsewhere(ts: seq<TradeRecord>, date: int)
    requires forall t :: t in ts && t.tradeDate.Some? ==> t.tradeDate.value != date
    ensures FilledOn(ts, date) == []
  {
    if ts != [] {
      FilledOnElsewhere(ts[..|ts| - 1], date);
    }
  }

  lemma {:induction false} ReplayOneDate(num: Decimals, l: Ledger, ts: seq<TradeRecord>, date: int)
    requires forall t :: t in ts && t.tradeDate.Some? ==> t.tradeDate.value == date
    ensures Replay(num, l, FilledOn(ts, date)) == Replay(num, l, ts)
  {
    if ts != [] {
      var n := |ts| - 1;
      assert ts[n] in ts;
      ReplayOneDate(num, l, ts[..n], date);
      var before := FilledOn(ts[..n], date);
      assert (before + [ts[n]])[..|before|] == before;
    }
  }

  /** Picking the fills of a date out of a log replays exactly the stretch of that date. */
  lemma CutLog(num: Decimals, l: Ledger, before: seq<TradeRecord>, today: seq<TradeRecord>, later: seq<TradeRecord>,
               date: int)
    requires forall t :: t in before && t.tradeDate.Some? ==> t.tradeDate.value < date
    requires forall t :: t in today && t.tradeDate.Some? ==> t.tradeDate.value == date
    requires forall t :: t in later && t.tradeDate.Some? ==> t.tradeDate.value > date
    ensures Replay(num, l, FilledOn(before + today + later, date)) == Replay(num, l, today)
  {
    FilledOnAppend(before + today, later, date);
    FilledOnAppend(before, today, date);
    FilledOnElsewhere(before, date);
    FilledOnElsewhere(later, date);
    ReplayOneDate(num, l, today, date);
    assert [] + FilledOn(today, date) + [] == FilledOn(today, date);
  }

  /** `logs[i]` is the log after i days, from the first day `start` to the full log `trades`. */
  ghost predicate DailyLogs(start: int, trades: seq<TradeRecord>, logs: seq<seq<TradeRecord>>) {
    && logs != [] && logs[0] == []
    && forall i :: 0 <= i < |logs| - 1 ==> DayOfLog(start + i, trades, logs[i], logs[i + 1])
  }

  /** A day's stretch of the log: what came before is dated before, what comes later, later. */
  ghost predicate DayOfLog(date: int, trades: seq<TradeRecord>, before: seq<TradeRecord>, after: seq<TradeRecord>) {
    && before <= after <= trades
    && (forall t :: t in before && t.tradeDate.Some? ==> t.tradeDate.value < date)
    && (forall t :: t in after[|before|..] && t.tradeDate.Some? ==> t.tradeDate.value == date)
    && (forall t :: t in trades[|after|..] && t.tradeDate.Some? ==> t.tradeDate.value > date)
  }

  lemma ReplayDayOfLog(num: Decimals, l: Ledger, trades: seq<TradeRecord>, before: seq<TradeRecord>,
                       after: seq<TradeRecord>, date: int)
    requires DayOfLog(date, trades, before, after)
    ensures Replay(num, Replay(num, l, before), FilledOn(trades, date)) == Replay(num, l, after)
  {
    var today, later := after[|before|..], trades[|after|..];
    assert trades == before + today + later;
    CutLog(num, Replay(num, l, before), before, today, later, date);
    assert after == before + today;
    ReplayAppend(num, l, before, today);
  }

  /** Replaying day by day is replaying the log. */
  lemma {:induction false} ReplayIsLogReplay(num: Decimals, r: BacktestResult, start: int,
                                             logs: seq<seq<TradeRecord>>, i: nat)
    requires DailyLogs(start, r.trades, logs) && i < |logs| && i <= |Snapshots(r)|
    requires forall k :: 0 <= k < |Snapshots(r)| ==> Snapshots(r)[k].valuationDate == start + k
    ensures LedgerAfter(num, r, i) == Replay(num, Ledger(r.initialCash, map[]), logs[i])
  {
    if i > 0 {
      ReplayIsLogReplay(num, r, start, logs, i - 1);
      var k := i - 1;
      assert DayOfLog(start + k, r.trades, logs[k], logs[k + 1]);
      ReplayDayOfLog(num, Ledger(r.initialCash, map[]), r.trades, logs[k], logs[k + 1], start + k);
    }
  }

  /** What one day appends to the log: executions dated today, then undated refusals. */
  lemma DayLog(b: Backtest, n: nat) returns (filled: seq<TradeRecord>, after: seq<TradeRecord>)
    requires Ran(b, n + 1)
    ensures Ran(b, n) && after == After(b, n + 1).trades && After(b, n).trades <= filled <= after
    ensures forall i :: |After(b, n).trades| <= i < |filled| ==> filled[i].tradeDate == Some(b.cfg.startDate + n)
    ensures forall i :: |filled| <= i < |after| ==> after[i].tradeDate.None?
  {
    DayEffect(b, n);
    filled, after := FilledAt(b, n).trades, After(b, n + 1).trades;
  }

  lemma RunDayOfLog(b: Backtest, i: nat, n: nat)
    requires i < n && Ran(b, n)
    ensures Ran(b, i) && Ran(b, i + 1)
    ensures DayOfLog(b.cfg.startDate + i, After(b, n).trades, After(b, i).trades, After(b, i + 1).trades)
  {
    hide *;
    RanEarlier(b, i + 1, n);
    var filled, _ := DayLog(b, i);
    LaterLogDates(b, i + 1, n);
    LogDates(b, i);
    StretchDates(b.cfg.startDate + i, After(b, n).trades, After(b, i).trades, filled, After(b, i + 1).trades);
  }

  lemma StretchDates(date: int, trades: seq<TradeRecord>, before: seq<TradeRecord>, filled: seq<TradeRecord>,
                     after: seq<TradeRecord>)
    requires before <= filled <= after <= trades
    requires forall i :: 0 <= i < |before| && before[i].tradeDate.Some? ==> before[i].tradeDate.value < date
    requires forall i :: |before| <= i < |filled| ==> filled[i].tradeDate == Some(date)
    requires forall i :: |filled| <= i < |after| ==> after[i].tradeDate.None?
    requires forall i :: |after| <= i < |trades| && trades[i].tradeDate.Some? ==> trades[i].tradeDate.value > date
    ensures DayOfLog(date, trades, before, after)
  {
    forall t | t in after[|before|..] && t.tradeDate.Some?
      ensures t.tradeDate.value == date
    {
      var k :| 0 <= k < |after| - |before| && after[|before|..][k] == t;
      assert after[|before| + k] == t;
      assert |before| + k < |filled| ==> filled[|before| + k] == t;
    }
  }

  /** The run's logs after 0, 1, ... n days. */
  ghost function LogsOf(b: Backtest, n: nat): (logs: seq<seq<TradeRecord>>)
    requires Ran(b, n)
    ensures |logs| == n + 1
    ensures forall i :: 0 <= i <= n ==> Ran(b, i) && logs[i] == After(b, i).trades
  {
    forall i | 0 <= i <= n
      ensures Ran(b, i)
    {
      RanEarlier(b, i, n);
    }
    seq(n + 1, i requires 0 <= i <= n => After(b, i).trades)
  }

  lemma RunHasDailyLogs(b: Backtest, n: nat)
    requires Ran(b, n)
    ensures DailyLogs(b.cfg.startDate, After(b, n).trades, LogsOf(b, n))
  {
    var logs := LogsOf(b, n);
    forall i | 0 <= i < n
      ensures DayOfLog(b.cfg.startDate + i, After(b, n).trades, logs[i], logs[i + 1])
    {
      RunDayOfLog(b, i, n);
    }
  }

  lemma SnapshotsInOrder(b: Backtest, r: BacktestResult)
    requires Run(b) == Success(r)
    ensures Snapshots(r) == r.equityCurve && |r.equityCurve| == |r.dailyDetail| == b.cfg.days
    ensures forall i :: 0 <= i < b.cfg.days ==>
              r.equityCurve[i].valuationDate == r.dailyDetail[i].valuationDate == b.cfg.startDate + i
  {
    Gapless(b, b.cfg.days);
    SortingSortedList(ByDate, r.equityCurve);
  }

  lemma RunReplay(b: Backtest, r: BacktestResult, i: nat)
    requires Run(b) == Success(r) && i <= b.cfg.days
    ensures Ran(b, i) && |Snapshots(r)| == b.cfg.days
    ensures LedgerAfter(b.cfg.num, r, i) == LogLedger(b, After(b, i).trades)
  {
    SnapshotsInOrder(b, r);
    RunHasDailyLogs(b, b.cfg.days);
    ReplayIsLogReplay(b.cfg.num, r, b.cfg.startDate, LogsOf(b, b.cfg.days), i);
  }

  // ----- The breakdown -----

  lemma {:induction false} DetailFound(details: seq<DailyDetail>, i: nat, start: int)
    requires i < |details|
    requires forall k :: 0 <= k < |details| ==> details[k].valuationDate == start + k
    ensures DetailFor(details, start + i) == Some(details[i])
  {
    if i < |details| - 1 {
      DetailFound(details[..|details| - 1], i, start);
    }
  }

  /** Every member was priced at today's close. */
  lemma {:induction false} ValuationPrices(b: Backtest, positions: map<AssetId, real>, day: nat, n: nat)
    requires n <= |b.members| && DistinctMembers(b.members) && ValueUpTo(b, positions, day, n).Success?
    ensures var v := ValueUpTo(b, positions, day, n).value;
            && (forall id :: id in v.prices <==> exists k :: 0 <= k < n && b.members[k].assetId == id)
            && forall k :: 0 <= k < n ==>
                 && b.members[k].assetId in v.prices && b.members[k].assetId in positions
                 && PriceAt(b, b.members[k].assetId, day, Close).Success?
                 && v.prices[b.members[k].assetId] == PriceAt(b, b.members[k].assetId, day, Close).value.price
  {
    if n > 0 {
      ValuationPrices(b, positions, day, n - 1);
    }
  }

  lemma {:induction false} PositionValuesKeys(num: Decimals, members: seq<Member>, positions: map<AssetId, real>,
                                              prices: map<AssetId, real>, n: nat)
    requires n <= |members| && DistinctMembers(members)
    ensures var d := PositionValues(num, members, positions, prices, n);
            && DistinctKeys(d)
            && (forall i :: 0 <= i < |d| ==> exists k :: 0 <= k < n && members[k].assetId == d[i].0)
            && (forall i :: 0 <= i < |d| ==>
                  GetOr(positions, d[i].0, 0.0) != 0.0
                  && d[i].1 == num.mul(GetOr(positions, d[i].0, 0.0), GetOr(prices, d[i].0, 0.0)))
  {
    if n > 0 {
      PositionValuesKeys(num, members, positions, prices, n - 1);
      var before := PositionValues(num, members, positions, prices, n - 1);
      var id := members[n - 1].assetId;
      assert !HasKey(before, id);
      PutFresh(before, id, num.mul(GetOr(positions, id, 0.0), GetOr(prices, id, 0.0)));
      var d := PositionValues(num, members, positions, prices, n);
      assert d == before || d == before + [(id, num.mul(GetOr(positions, id, 0.0), GetOr(prices, id, 0.0)))];
    }
  }

  /** The next member adds its own row at the end, if it is held. */
  lemma NewRow(num: Decimals, members: seq<Member>, positions: map<AssetId, real>, prices: map<AssetId, real>, n: nat)
    requires n < |members| && DistinctMembers(members)
    ensures var before, id := PositionValues(num, members, positions, prices, n), members[n].assetId;
            PositionValues(num, members, positions, prices, n + 1)
            == if GetOr(positions, id, 0.0) == 0.0 then before
               else before + [(id, num.mul(GetOr(positions, id, 0.0), GetOr(prices, id, 0.0)))]
  {
    var before, id := PositionValues(num, members, positions, prices, n), members[n].assetId;
    PositionValuesKeys(num, members, positions, prices, n);
    assert !HasKey(before, id);
    PutFresh(before, id, num.mul(GetOr(positions, id, 0.0), GetOr(prices, id, 0.0)));
  }

  /** Every member that is held has its row in the breakdown. */
  lemma {:induction false} HeldHaveRows(num: Decimals, members: seq<Member>, positions: map<AssetId, real>,
                                        prices: map<AssetId, real>, n: nat, k: nat)
    requires k < n <= |members| && DistinctMembers(members) && GetOr(positions, members[k].assetId, 0.0) != 0.0
    ensures HasKey(PositionValues(num, members, positions, prices, n), members[k].assetId)
    decreases n
  {
    hide PositionValues, DistinctMembers, HasKey, GetOr;
    var before, id := PositionValues(num, members, positions, prices, n - 1), members[n - 1].assetId;
    NewRow(num, members, positions, prices, n - 1);
    KeysOfAppended(before, (id, num.mul(GetOr(positions, id, 0.0), GetOr(prices, id, 0.0))), members[k].assetId);
    if k < n - 1 {
      HeldHaveRows(num, members, positions, prices, n - 1, k);
    }
  }

  /** Check 5: the breakdown adds up to the aggregate, operation by operation. */
  lemma {:induction false} BreakdownAddsUp(b: Backtest, positions: map<AssetId, real>, day: nat,
                                           prices: map<AssetId, real>, n: nat)
    requires n <= |b.members| && DistinctMembers(b.members) && ValueUpTo(b, positions, day, n).Success?
    requires forall k :: 0 <= k < n ==>
               b.members[k].assetId in prices && PriceAt(b, b.members[k].assetId, day, Close).Success?
               && prices[b.members[k].assetId] == PriceAt(b, b.members[k].assetId, day, Close).value.price
    ensures SumItems(b.cfg.num, PositionValues(b.cfg.num, b.members, positions, prices, n))
         == ValueUpTo(b, positions, day, n).value.positionsValue
  {
    if n > 0 {
      BreakdownAddsUp(b, positions, day, prices, n - 1);
      NewRow(b.cfg.num, b.members, positions, prices, n - 1);
      var before := PositionValues(b.cfg.num, b.members, positions, prices, n - 1);
      var id := b.members[n - 1].assetId;
      var value := b.cfg.num.mul(GetOr(positions, id, 0.0), prices[id]);
      assert (before + [(id, value)])[..|before|] == before;
    }
  }

  /** The FX rates recorded for a day are the closes of exactly the foreign currencies that members quote in. */
  lemma {:induction false} RecordedFxRates(b: Backtest, positions: map<AssetId, real>, day: nat, n: nat)
    requires n <= |b.members| && ValueUpTo(b, positions, day, n).Success?
    ensures var rates := ValueUpTo(b, positions, day, n).value.fxRates;
            && (forall c :: c in rates <==>
                              c != b.cfg.baseCurrency && exists k :: 0 <= k < n && QuotesIn(b, b.members[k], c))
            && forall c :: c in rates ==> At(b.fx, c, day).Success? && rates[c] == At(b.fx, c, day).value.close
  {
    if n > 0 {
      RecordedFxRates(b, positions, day, n - 1);
    }
  }

  predicate QuotesIn(b: Backtest, m: Member, c: Currency) {
    m.assetId in b.assets && b.assets[m.assetId].quoteCurrency == c
  }

  lemma {:induction false} PositionKeys(b: Backtest, n: nat)
    requires Ran(b, n)
    ensures After(b, n).positions.Keys == After(b, n).averageCost.Keys == ZeroPerMember(b.members).Keys
    ensures n > 0 ==> FilledAt(b, n - 1).positions.Keys == ZeroPerMember(b.members).Keys
  {
    hide Ran, After, FilledAt, DecisionOn, FillUpTo;
    if n == 0 {
      Start(b);
    } else {
      DayEffect(b, n - 1);
      DayFills(b, n - 1);
      PositionKeys(b, n - 1);
      FillKeys(b, After(b, n - 1), n - 1, |After(b, n - 1).pending|);
    }
  }

  lemma BookKeys(b: Backtest, s: State, p: PlannedOrder, day: nat)
    requires FillOne(b, s, p, day).Success?
    ensures var s' := FillOne(b, s, p, day).value;
            s'.positions.Keys == s.positions.Keys && s'.averageCost.Keys == s.averageCost.Keys
  {
    hide SimulateFill, PriceAt;
  }

  lemma {:induction false} FillKeys(b: Backtest, s: State, day: nat, n: nat)
    requires n <= |s.pending| && FillUpTo(b, s, day, n).Success?
    ensures var s' := FillUpTo(b, s, day, n).value;
            s'.positions.Keys == s.positions.Keys && s'.averageCost.Keys == s.averageCost.Keys
  {
    if n > 0 {
      FillKeys(b, s, day, n - 1);
      BookKeys(b, FillUpTo(b, s, day, n - 1).value, s.pending[n - 1], day);
      hide FillOne;
    }
  }

  // ----- The verdict -----

  /** A day's snapshot and detail agree with the ledger on cash, NAV and breakdown. */
  ghost predicate Balanced(num: Decimals, s: Snapshot, d: DailyDetail, l: Ledger) {
    && l.cash == s.cashValue
    && num.add(s.positionsValue, s.cashValue) == s.nav
    && SumItems(num, d.positionValues) == s.positionsValue
  }

  /** A position is held whose value at the close is zero. */
  predicate Worthless(num: Decimals, positions: map<AssetId, real>, prices: map<AssetId, real>, id: AssetId) {
    id in positions && positions[id] != 0.0 && num.mul(positions[id], GetOr(prices, id, 0.0)) == 0.0
  }

  /** Check 6 fails on a worthless position. */
  ghost predicate ZeroIssue(num: Decimals, s: Snapshot, positions: map<AssetId, real>, prices: map<AssetId, real>,
                            x: Discrepancy) {
    && x.date == s.valuationDate && x.field.ZeroConsistency? && Worthless(num, positions, prices, x.field.id)
    && x.expected == positions[x.field.id] && x.actual == 0.0
  }

  /** Check 7 fails. */
  ghost predicate WeightIssue(num: Decimals, s: Snapshot, d: DailyDetail, x: Discrepancy) {
    (x.field.WeightBounds? || x.field.WeightSum?) && DetailIssue(num, s, d, Ledger(0.0, map[]), x)
  }

  /** Check 8 fails. */
  ghost predicate FxIssue(num: Decimals, s: Snapshot, d: DailyDetail, x: Discrepancy) {
    x.field.FxPositivity? && DetailIssue(num, s, d, Ledger(0.0, map[]), x)
  }

  /** What the reconciler can find in a day of a run. */
  ghost predicate DayReport(num: Decimals, s: Snapshot, d: DailyDetail, positions: map<AssetId, real>,
                            prices: map<AssetId, real>, x: Discrepancy) {
    ZeroIssue(num, s, positions, prices, x) || WeightIssue(num, s, d, x) || FxIssue(num, s, d, x)
  }

  /** Check 6 compares zeroes wrongly exactly on worthless positions. */
  lemma ZeroesDifferOnWorthless(num: Decimals, members: seq<Member>, positions: map<AssetId, real>,
                                prices: map<AssetId, real>, l: Ledger, id: AssetId)
    requires DistinctMembers(members)
    requires l.quantities.Keys <= positions.Keys
             && forall other :: other in positions ==> positions[other] == l.Quantity(other)
    requires forall other :: other in positions <==> exists k :: 0 <= k < |members| && members[k].assetId == other
    ensures var d := PositionValues(num, members, positions, prices, |members|);
            && ((l.Quantity(id) == 0.0) != (ItemOr(d, id, 0.0) == 0.0) <==> Worthless(num, positions, prices, id))
            && (Worthless(num, positions, prices, id) ==>
                  id in l.quantities && l.Quantity(id) == positions[id] && ItemOr(d, id, 0.0) == 0.0)
  {
    var d := PositionValues(num, members, positions, prices, |members|);
    PositionValuesKeys(num, members, positions, prices, |members|);
    if HasKey(d, id) {
      var i :| 0 <= i < |d| && d[i].0 == id;
      ItemAt(d, i, 0.0);
    } else {
      ItemAbsent(d, id, 0.0);
      if id in positions {
        var k :| 0 <= k < |members| && members[k].assetId == id;
        if GetOr(positions, members[k].assetId, 0.0) != 0.0 {
          HeldHaveRows(num, members, positions, prices, |members|, k);
        }
      }
    }
  }

  lemma MemberKeys(members: seq<Member>)
    ensures forall id :: id in ZeroPerMember(members) <==> exists k :: 0 <= k < |members| && members[k].assetId == id
  {
  }

  /** Whatever is decided on a state whose books agree with a ledger is recorded in balance with it, and its
      breakdown disagrees with the ledger's zeroes exactly on worthless positions. */
  lemma DecisionBalanced(b: Backtest, f: State, day: nat, l: Ledger, id: AssetId)
    requires DistinctMembers(b.members)
    requires Agrees(f, l) && f.positions.Keys == ZeroPerMember(b.members).Keys && Decide(b, f, day).Success?
    ensures var d := Decide(b, f, day).value;
            var detail := DetailOf(b, f, d);
            && Balanced(b.cfg.num, d.portfolio.snapshot, detail, l)
            && ((l.Quantity(id) == 0.0) != (ItemOr(detail.positionValues, id, 0.0) == 0.0)
                <==> Worthless(b.cfg.num, f.positions, d.valuation.prices, id))
            && (Worthless(b.cfg.num, f.positions, d.valuation.prices, id) ==>
                  id in l.quantities && l.Quantity(id) == f.positions[id]
                    && ItemOr(detail.positionValues, id, 0.0) == 0.0)
  {
    var d := Decide(b, f, day).value;
    DecisionSnapshot(b, f, day);
    MemberKeys(b.members);
    hide Decide, Worthless, ValueUpTo, PriceAt, PositionValues, ZeroPerMember;
    ValuationPrices(b, f.positions, day, |b.members|);
    BreakdownAddsUp(b, f.positions, day, d.valuation.prices, |b.members|);
    ZeroesDifferOnWorthless(b.cfg.num, b.members, f.positions, d.valuation.prices, l, id);
  }

  /** What a decision records of the valuation. */
  lemma DecisionSnapshot(b: Backtest, s: State, day: nat)
    requires Decide(b, s, day).Success?
    ensures var d := Decide(b, s, day).value;
            ValueUpTo(b, s.positions, day, |b.members|) == Success(d.valuation)
              && d.portfolio.snapshot == SnapshotAt(b, s, d.valuation, day)
  {
  }

  /** What a balanced day's report comes to. */
  lemma BalancedReport(num: Decimals, s: Snapshot, d: DailyDetail, l: Ledger, positions: map<AssetId, real>,
                       prices: map<AssetId, real>, x: Discrepancy)
    requires Balanced(num, s, d, l)
    requires x.field.ZeroConsistency? ==>
               var id := x.field.id;
               && ((l.Quantity(id) == 0.0) != (ItemOr(d.positionValues, id, 0.0) == 0.0) <==>
                   Worthless(num, positions, prices, id))
               && (Worthless(num, positions, prices, id) ==>
                     id in l.quantities && l.Quantity(id) == positions[id] && ItemOr(d.positionValues, id, 0.0) == 0.0)
    ensures DayIssue(num, s, Some(d), l, x) <==> DayReport(num, s, d, positions, prices, x)
  {
    hide Worthless;
  }

  /** What the reconciler reports of day i of a run. */
  ghost predicate ReportOn(b: Backtest, r: BacktestResult, i: nat, x: Discrepancy) {
    && Ran(b, i + 1) && i < |r.equityCurve| && i < |r.dailyDetail|
    && DayReport(b.cfg.num, r.equityCurve[i], r.dailyDetail[i], FilledAt(b, i).positions,
                 DecisionOn(b, i).valuation.prices, x)
  }

  lemma RunDayReport(b: Backtest, r: BacktestResult, i: nat, x: Discrepancy)
    requires Run(b) == Success(r) && i < b.cfg.days && DistinctMembers(b.members)
    ensures |r.equityCurve| == |r.dailyDetail| == |Snapshots(r)| == b.cfg.days && Ran(b, i + 1)
    ensures DayIssue(b.cfg.num, r.equityCurve[i], Some(r.dailyDetail[i]), LedgerAfter(b.cfg.num, r, i + 1), x) <==>
              ReportOn(b, r, i, x)
  {
    hide Run, Ran, After, FilledAt, DecisionOn, Decide, Balanced, Agrees, LedgerAfter, LogLedger, Snapshots,
         DetailOf, DistinctMembers, Worthless, DayReport, DayIssue;
    RunIsAfter(b, r);
    SnapshotsInOrder(b, r);
    RunReplay(b, r, i + 1);
    DayInRun(b, i, b.cfg.days);
    BooksMatchLog(b, i + 1);
    RefusalsAreIdle(b, i);
    PositionKeys(b, i + 1);
    DayDecision(b, i);
    var l := LogLedger(b, FilledAt(b, i).trades);
    DecisionBalanced(b, FilledAt(b, i), i, l, if x.field.ZeroConsistency? then x.field.id else "");
    BalancedReport(b.cfg.num, r.equityCurve[i], r.dailyDetail[i], l, FilledAt(b, i).positions,
                   DecisionOn(b, i).valuation.prices, x);
  }

  lemma FinalsReconcile(b: Backtest, r: BacktestResult, x: Discrepancy)
    requires Run(b) == Success(r)
    ensures |Snapshots(r)| == b.cfg.days && !FinalIssue(r, LedgerAfter(b.cfg.num, r, b.cfg.days), x)
  {
    RunReplay(b, r, b.cfg.days);
    BooksMatchLog(b, b.cfg.days);
  }

  lemma RunIssueOn(b: Backtest, r: BacktestResult, i: nat, x: Discrepancy)
    requires Run(b) == Success(r) && i < b.cfg.days && DistinctMembers(b.members)
    ensures |r.equityCurve| == |r.dailyDetail| == |Snapshots(r)| == b.cfg.days && Ran(b, i + 1)
    ensures IssueOn(b.cfg.num, r, i, x) <==> ReportOn(b, r, i, x)
  {
    hide Run, RunTo, DayIssue, ReportOn, Ran;
    SnapshotsInOrder(b, r);
    RunDayReport(b, r, i, x);
    DetailFound(r.dailyDetail, i, b.cfg.startDate);
  }

  /** Some day of the run has something to report. */
  ghost predicate Reported(b: Backtest, r: BacktestResult, x: Discrepancy) {
    exists i :: 0 <= i < b.cfg.days && ReportOn(b, r, i, x)
  }

  lemma ReportedFields(b: Backtest, r: BacktestResult, x: Discrepancy)
    requires Reported(b, r, x)
    ensures x.field.ZeroConsistency? || x.field.WeightBounds? || x.field.WeightSum? || x.field.FxPositivity?
  {
    hide Ran, FilledAt, DecisionOn, Worthless;
  }

  /** The only issues of a completed run are worthless positions, unsound weights and non-positive FX rates of its
      days: cash, NAV, breakdown and both final checks never fail. */
  lemma RunIssues(b: Backtest, r: BacktestResult, x: Discrepancy)
    requires Run(b) == Success(r) && DistinctMembers(b.members)
    ensures |r.equityCurve| == |r.dailyDetail| == |Snapshots(r)| == b.cfg.days
    ensures IsDiscrepancy(b.cfg.num, r, x) <==> Reported(b, r, x)
    ensures IsDiscrepancy(b.cfg.num, r, x) ==>
              x.field.ZeroConsistency? || x.field.WeightBounds? || x.field.WeightSum? || x.field.FxPositivity?
  {
    FinalsReconcile(b, r, x);
    SnapshotsInOrder(b, r);
    hide Run, Ran, IssueOn, FinalIssue, ReportOn, Snapshots, DistinctMembers;
    forall i | 0 <= i < b.cfg.days
      ensures IssueOn(b.cfg.num, r, i, x) <==> ReportOn(b, r, i, x)
    {
      RunIssueOn(b, r, i, x);
    }
    if Reported(b, r, x) {
      ReportedFields(b, r, x);
    }
  }

  /** Every held position has a nonzero value. */
  predicate HeldHaveValue(num: Decimals, positions: map<AssetId, real>, prices: map<AssetId, real>) {
    forall id :: id in positions ==> !Worthless(num, positions, prices, id)
  }

  predicate RatesPositive(rates: map<Currency, real>) {
    forall c :: c in rates ==> rates[c] > 0.0
  }

  /** Nothing of day i is reported: its weights are sound, no held position is worth zero at the close, and every
      recorded FX rate is positive. */
  ghost predicate SoundOn(b: Backtest, r: BacktestResult, i: nat) {
    && Ran(b, i + 1) && i < |r.dailyDetail|
    && WeightsSound(b.cfg.num, r.dailyDetail[i].targetWeights)
    && HeldHaveValue(b.cfg.num, FilledAt(b, i).positions, DecisionOn(b, i).valuation.prices)
    && RatesPositive(r.dailyDetail[i].fxRates)
  }

  lemma SoundWeightsNoIssue(num: Decimals, s: Snapshot, d: DailyDetail, x: Discrepancy)
    requires WeightsSound(num, d.targetWeights)
    ensures !WeightIssue(num, s, d, x)
  {
  }

  lemma UnsoundWeightsIssue(num: Decimals, s: Snapshot, d: DailyDetail) returns (x: Discrepancy)
    requires !WeightsSound(num, d.targetWeights)
    ensures WeightIssue(num, s, d, x)
  {
    var w := d.targetWeights;
    if SumItems(num, w) != 1.0 {
      x := Discrepancy(s.valuationDate, WeightSum, 1.0, SumItems(num, w));
    } else {
      var i :| 0 <= i < |w| && !WeightInBounds(w[i].1);
      assert w[i] == (w[i].0, w[i].1);
      x := Discrepancy(s.valuationDate, WeightBounds(w[i].0), 1.0, w[i].1);
    }
  }

  lemma SoundMeansNoReport(num: Decimals, s: Snapshot, d: DailyDetail, positions: map<AssetId, real>,
                           prices: map<AssetId, real>)
    ensures WeightsSound(num, d.targetWeights) && HeldHaveValue(num, positions, prices) && RatesPositive(d.fxRates)
            <==> forall x :: !DayReport(num, s, d, positions, prices, x)
  {
    hide WeightsSound, Worthless;
    if !WeightsSound(num, d.targetWeights) {
      var x := UnsoundWeightsIssue(num, s, d);
      assert DayReport(num, s, d, positions, prices, x);
    } else if !HeldHaveValue(num, positions, prices) {
      var id :| id in positions && Worthless(num, positions, prices, id);
      assert DayReport(num, s, d, positions, prices,
                       Discrepancy(s.valuationDate, ZeroConsistency(id), positions[id], 0.0));
    } else if !RatesPositive(d.fxRates) {
      var c :| c in d.fxRates && d.fxRates[c] <= 0.0;
      assert DayReport(num, s, d, positions, prices, Discrepancy(s.valuationDate, FxPositivity(c), 0.0, d.fxRates[c]));
    } else {
      forall x
        ensures !DayReport(num, s, d, positions, prices, x)
      {
        SoundWeightsNoIssue(num, s, d, x);
        hide WeightIssue;
        if x.field.ZeroConsistency? {
          OnlyHeldAreWorthless(num, positions, prices, x.field.id);
        }
      }
    }
  }

  lemma OnlyHeldAreWorthless(num: Decimals, positions: map<AssetId, real>, prices: map<AssetId, real>, id: AssetId)
    requires HeldHaveValue(num, positions, prices)
    ensures !Worthless(num, positions, prices, id)
  {
  }

  lemma DayOfRun(b: Backtest, r: BacktestResult, i: nat)
    requires Run(b) == Success(r) && i < b.cfg.days
    ensures Ran(b, i + 1) && i < |r.equityCurve| && i < |r.dailyDetail|
  {
    hide Run, Ran, Snapshots;
    RunIsAfter(b, r);
    SnapshotsInOrder(b, r);
    RanEarlier(b, i + 1, b.cfg.days);
  }

  lemma SoundDay(b: Backtest, r: BacktestResult, i: nat)
    requires Run(b) == Success(r) && i < b.cfg.days
    ensures SoundOn(b, r, i) <==> forall x :: !ReportOn(b, r, i, x)
  {
    hide Run, Ran, FilledAt, DecisionOn, WeightsSound, HeldHaveValue, RatesPositive, DayReport, Snapshots;
    DayOfRun(b, r, i);
    var positions, prices := FilledAt(b, i).positions, DecisionOn(b, i).valuation.prices;
    SoundMeansNoReport(b.cfg.num, r.equityCurve[i], r.dailyDetail[i], positions, prices);
    assert forall x :: ReportOn(b, r, i, x) <==>
             DayReport(b.cfg.num, r.equityCurve[i], r.dailyDetail[i], positions, prices, x);
  }

  /** Main result: for any arithmetic, any strategy and any risk policy, the reconciler passes a completed run of
      distinct members exactly when on every day the weights are sound, no held position is worth zero at the close,
      and every recorded FX rate is positive. */
  lemma ReconciliationVerdict(b: Backtest, r: BacktestResult)
    requires Run(b) == Success(r) && DistinctMembers(b.members)
    ensures (forall x :: !IsDiscrepancy(b.cfg.num, r, x)) <==> (forall i :: 0 <= i < b.cfg.days ==> SoundOn(b, r, i))
  {
    hide Run, SoundOn, ReportOn, IsDiscrepancy, DistinctMembers;
    forall i | 0 <= i < b.cfg.days
      ensures SoundOn(b, r, i) <==> forall x :: !ReportOn(b, r, i, x)
    {
      SoundDay(b, r, i);
    }
    forall x
      ensures IsDiscrepancy(b.cfg.num, r, x) <==> Reported(b, r, x)
    {
      RunIssues(b, r, x);
    }
    forall i, x | 0 <= i < b.cfg.days && ReportOn(b, r, i, x)
      ensures !SoundOn(b, r, i)
    {
      SoundDay(b, r, i);
    }
    if i: nat :| i < b.cfg.days && !SoundOn(b, r, i) {
      var x :| ReportOn(b, r, i, x);
      assert Reported(b, r, x);
    }
  }

  // ----- Positive markets -----

  lemma PricesNonzero(b: Backtest, id: AssetId, day: nat)
    requires NoUnderflow(b.cfg.num) && PositiveMarket(b) && PriceAt(b, id, day, Close).Success?
    ensures PriceAt(b, id, day, Close).value.price != 0.0
  {
    var bar := At(b.series, id, day).value;
    assert bar == b.series[id][day];
  }

  /** With strictly positive prices and rates and no product rounded to zero, positions and rates never fail. */
  lemma PositiveMarketHasValue(b: Backtest, i: nat)
    requires Ran(b, i + 1) && DistinctMembers(b.members) && NoUnderflow(b.cfg.num) && PositiveMarket(b)
    ensures HeldHaveValue(b.cfg.num, FilledAt(b, i).positions, DecisionOn(b, i).valuation.prices)
    ensures RatesPositive(DecisionOn(b, i).valuation.fxRates)
  {
    hide Ran, After, FilledAt, DecisionOn, Decide, ValueUpTo, DistinctMembers, PositiveMarket, NoUnderflow;
    PositionKeys(b, i + 1);
    DayDecision(b, i);
    var f, v := FilledAt(b, i), DecisionOn(b, i).valuation;
    DecisionSnapshot(b, f, i);
    ValuationPrices(b, f.positions, i, |b.members|);
    RecordedFxRates(b, f.positions, i, |b.members|);
    forall id | id in f.positions
      ensures !Worthless(b.cfg.num, f.positions, v.prices, id)
    {
      var k :| 0 <= k < |b.members| && b.members[k].assetId == id;
      PricesNonzero(b, id, i);
      ProductsNonzero(b.cfg.num, f.positions[id], v.prices[id]);
    }
    forall c | c in v.fxRates
      ensures v.fxRates[c] > 0.0
    {
      RatePositive(b, c, i);
    }
  }

  lemma ProductsNonzero(num: Decimals, x: real, y: real)
    requires NoUnderflow(num) && y != 0.0
    ensures x != 0.0 ==> num.mul(x, y) != 0.0
  {
  }

  lemma RatePositive(b: Backtest, c: Currency, day: nat)
    requires PositiveMarket(b) && At(b.fx, c, day).Success?
    ensures At(b.fx, c, day).value.close > 0.0
  {
    assert At(b.fx, c, day).value == b.fx[c][day];
  }

  /** In a positive market a completed run passes exactly when its weights are sound on every day. */
  lemma PositiveMarketVerdict(b: Backtest, r: BacktestResult)
    requires Run(b) == Success(r) && DistinctMembers(b.members) && NoUnderflow(b.cfg.num) && PositiveMarket(b)
    ensures (forall x :: !IsDiscrepancy(b.cfg.num, r, x)) <==>
            (forall i :: 0 <= i < |r.dailyDetail| ==> WeightsSound(b.cfg.num, r.dailyDetail[i].targetWeights))
  {
    hide Run, Ran, After, FilledAt, DecisionOn, DistinctMembers, PositiveMarket, NoUnderflow, IsDiscrepancy,
         WeightsSound, HeldHaveValue, RatesPositive;
    ReconciliationVerdict(b, r);
    RunIsAfter(b, r);
    SnapshotsInOrder(b, r);
    forall i | 0 <= i < b.cfg.days
      ensures SoundOn(b, r, i) <==> WeightsSound(b.cfg.num, r.dailyDetail[i].targetWeights)
    {
      DayInRun(b, i, b.cfg.days);
      PositiveMarketHasValue(b, i);
    }
  }
}
