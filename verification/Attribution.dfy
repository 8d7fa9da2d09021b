/** Profit attribution: where the NAV of an exact long-only run comes from. The day loop's cash and
    positions on one side, the FIFO matcher's realized gains and open lots on the other. */
module Attribution {
  import opened Common
  import opened Domain
  import opened Engine
  import opened Matching
  import opened RunFacts
  import opened LongOnly
  import opened Fifo
  import AverageCost
  import Reconciliation
  import ReconciledRuns

  /** The trades that the metrics look at. */
  function FilledOnly(trades: seq<TradeRecord>): seq<TradeRecord> {
    if trades == [] then []
    else if trades[|trades| - 1].status.Filled? then FilledOnly(trades[..|trades| - 1]) + [trades[|trades| - 1]]
    else FilledOnly(trades[..|trades| - 1])
  }

  function Commissions(trades: seq<TradeRecord>): real {
    if trades == [] then 0.0
    else Commissions(trades[..|trades| - 1])
         + if IsFill(trades[|trades| - 1]) then trades[|trades| - 1].commission else 0.0
  }

  function Ids(members: seq<Member>): seq<AssetId> {
    seq(|members|, i requires 0 <= i < |members| => members[i].assetId)
  }

  // ----- The matcher sees the log in log order -----

  /** Filled records are dated and priced, in date order. */
  predicate DatedLog(trades: seq<TradeRecord>) {
    && (forall i :: 0 <= i < |trades| && trades[i].status.Filled? ==> IsFill(trades[i]))
    && forall i, j :: 0 <= i < j < |trades| && trades[i].status.Filled? && trades[j].status.Filled? ==>
         DateKey(trades[i]) <= DateKey(trades[j])
  }

  lemma {:induction false} FilledOnlyMatches(trades: seq<TradeRecord>)
    requires DatedLog(trades)
    ensures MatchAll(FilledOnly(trades)) == MatchAll(trades)
    ensures Dated(FilledOnly(trades)) == FilledOnly(trades)
    ensures forall t :: t in FilledOnly(trades) ==> t in trades && IsFill(t)
  {
    hide PostTrade;
    if trades != [] {
      var n := |trades| - 1;
      FilledOnlyMatches(trades[..n]);
      var before, t := FilledOnly(trades[..n]), trades[n];
      if t.status.Filled? {
        assert (before + [t])[..|before|] == before;
      } else {
        PostNothing(MatchAll(trades[..n]), t);
      }
    }
  }

  lemma {:induction false} FilledOnlySorted(trades: seq<TradeRecord>)
    requires DatedLog(trades)
    ensures IsSortedByKey(DateKey, FilledOnly(trades))
  {
    hide DateKey;
    if trades != [] {
      var n := |trades| - 1;
      FilledOnlySorted(trades[..n]);
      FilledOnlyMatches(trades[..n]);
      var before, t := FilledOnly(trades[..n]), trades[n];
      if t.status.Filled? {
        forall i | 0 <= i < |before|
          ensures DateKey(before[i]) <= DateKey(t)
        {
          assert before[i] in trades[..n];
          var k :| 0 <= k < n && trades[k] == before[i];
        }
      }
    }
  }

  lemma MatchingOrderIsLogOrder(trades: seq<TradeRecord>)
    requires DatedLog(trades)
    ensures MatchAll(Ordered(FilledOnly(trades))) == MatchAll(trades)
  {
    FilledOnlyMatches(trades);
    FilledOnlySorted(trades);
    SortingSortedList(DateKey, FilledOnly(trades));
  }

  lemma {:induction false} RunLogIsDated(b: Backtest, n: nat)
    requires Ran(b, n)
    ensures DatedLog(After(b, n).trades)
  {
    hide Ran, After;
    if n == 0 {
      Start(b);
    } else {
      var filled, after := ReconciledRuns.DayLog(b, n - 1);
      RunLogIsDated(b, n - 1);
      LogDates(b, n - 1);
      LogDates(b, n);
      LongerLogIsDated(After(b, n - 1).trades, filled, after, b.cfg.startDate + n - 1);
    }
  }

  /** A day's stretch keeps the log in date order. */
  lemma LongerLogIsDated(before: seq<TradeRecord>, filled: seq<TradeRecord>, after: seq<TradeRecord>, date: int)
    requires before <= filled <= after && DatedLog(before)
    requires forall i :: 0 <= i < |before| && before[i].tradeDate.Some? ==> before[i].tradeDate.value < date
    requires forall i :: |before| <= i < |filled| ==> filled[i].tradeDate == Some(date)
    requires forall i :: |filled| <= i < |after| ==> after[i].tradeDate.None?
    requires forall i :: 0 <= i < |after| && after[i].status.Filled? ==>
               after[i].tradeDate.Some? && after[i].fillPrice.Some?
    ensures DatedLog(after)
  {
    forall i | 0 <= i < |after| && after[i].status.Filled?
      ensures IsFill(after[i]) && i < |filled| && after[i] == filled[i]
      ensures i < |before| ==> after[i] == before[i] && DateKey(after[i]) < date
      ensures i >= |before| ==> DateKey(after[i]) == date
    {
      assert i < |filled| ==> after[i] == filled[i];
      assert i < |before| ==> filled[i] == before[i];
    }
  }

  // ----- The matcher's lots are the engine's positions -----

  /** The log is covered, and each position is what was bought less what was sold. */
  ghost predicate Booked(ids: seq<AssetId>, s: State) {
    && CoveredFills(ids, s.trades)
    && (forall id :: id in s.positions ==> id in ids)
    && forall id :: id in s.positions ==> s.positions[id] == Bought(s.trades, id) - Sold(s.trades, id)
  }

  lemma CoveredStep(ids: seq<AssetId>, trades: seq<TradeRecord>, t: TradeRecord)
    requires CoveredFills(ids, trades)
    requires IsFill(t) ==>
               && t.quantity > 0.0 && t.assetId in ids
               && (t.side.Sell? ==> t.quantity <= Bought(trades, t.assetId) - Sold(trades, t.assetId))
    ensures CoveredFills(ids, trades + [t])
  {
    OpenIsBoughtLessSold(ids, trades, t.assetId);
    assert (trades + [t])[..|trades|] == trades;
  }

  lemma TradedStep(trades: seq<TradeRecord>, t: TradeRecord, id: AssetId)
    ensures Bought(trades + [t], id) == Bought(trades, id)
              + if IsFill(t) && t.side.Buy? && t.assetId == id then t.quantity else 0.0
    ensures Sold(trades + [t], id) == Sold(trades, id)
              + if IsFill(t) && t.side.Sell? && t.assetId == id then t.quantity else 0.0
  {
    assert (trades + [t])[..|trades|] == trades;
  }

  lemma FillKeepsBooked(b: Backtest, ids: seq<AssetId>, s: State, p: PlannedOrder, day: nat)
    requires b.cfg.num.Exact() && FillOne(b, s, p, day).Success?
    requires NoShorts(s.positions) && Covered(s.positions, p) && Booked(ids, s)
    ensures Booked(ids, FillOne(b, s, p, day).value)
  {
    FillOneEffect(b, s, p, day);
    var t := AverageCost.FillBooks(b, s, p, day);
    hide FillOne, AverageCost.Average, Decimals.Exact, CoveredFills, Bought, Sold;
    var s' := FillOne(b, s, p, day).value;
    CoveredStep(ids, s.trades, t);
    forall id | id in s'.positions
      ensures s'.positions[id] == Bought(s'.trades, id) - Sold(s'.trades, id)
    {
      TradedStep(s.trades, t, id);
    }
  }

  lemma {:induction false} FillsKeepBooked(b: Backtest, ids: seq<AssetId>, s: State, day: nat, n: nat)
    requires b.cfg.num.Exact() && n <= |s.pending| && FillUpTo(b, s, day, n).Success? && Long(s) && Booked(ids, s)
    ensures Booked(ids, FillUpTo(b, s, day, n).value)
  {
    hide FillOne, Booked, FillsFit, SellsFit;
    if n > 0 {
      FillsKeepBooked(b, ids, s, day, n - 1);
      ExactFits(b);
      FillUpToLong(b, s, day, n - 1);
      var before, p := FillUpTo(b, s, day, n - 1).value, s.pending[n - 1];
      assert p in s.pending;
      assert Covered(before.positions, p);
      FillKeepsBooked(b, ids, before, p, day);
    }
  }

  /** Records that are no fills change none of the sums. */
  lemma {:induction false} RefusalsAddNothing(ids: seq<AssetId>, before: seq<TradeRecord>, after: seq<TradeRecord>,
                                              id: AssetId)
    requires before <= after && forall i :: |before| <= i < |after| ==> !after[i].status.Filled?
    requires CoveredFills(ids, before)
    ensures CoveredFills(ids, after)
    ensures Bought(after, id) == Bought(before, id) && Sold(after, id) == Sold(before, id)
    ensures MatchAll(after) == MatchAll(before) && Commissions(after) == Commissions(before)
    ensures BuyTotal(after) == BuyTotal(before) && SellTotal(after) == SellTotal(before)
    decreases |after|
  {
    if before != after {
      RefusalsAddNothing(ids, before, after[..|after| - 1], id);
    }
  }

  lemma DayKeepsBooked(b: Backtest, n: nat)
    requires ExactLongOnly(b) && Ran(b, n + 1) && Ran(b, n) && Long(After(b, n)) && Booked(Ids(b.members), After(b, n))
    ensures Booked(Ids(b.members), FilledAt(b, n)) && Booked(Ids(b.members), After(b, n + 1))
  {
    hide RunTo, DayStep, Decide, FillUpTo, ReviewUpTo, LongOnlyStrategy, Decimals.Exact, FillOne, CoveredFills, Ids;
    DayParts(b, n);
    DayEffect(b, n);
    var ids := Ids(b.members);
    FillsKeepBooked(b, ids, After(b, n), n, |After(b, n).pending|);
    var f, s' := FilledAt(b, n), After(b, n + 1);
    RefusalsAddNothing(ids, f.trades, s'.trades, "");
    forall id | id in s'.positions
      ensures s'.positions[id] == Bought(s'.trades, id) - Sold(s'.trades, id)
    {
      RefusalsAddNothing(ids, f.trades, s'.trades, id);
    }
  }

  lemma {:induction false} RunIsBooked(b: Backtest, n: nat)
    requires ExactLongOnly(b) && Ran(b, n)
    ensures Booked(Ids(b.members), After(b, n))
    ensures n > 0 ==> Booked(Ids(b.members), FilledAt(b, n - 1))
  {
    hide ExactLongOnly, LongOnlySetup, Ran, After, FilledAt, Booked, Long, NoShorts;
    if n > 0 {
      RanEarlier(b, n - 1, n);
      ExactIsLongOnly(b);
      NeverShort(b, n - 1);
      RunIsBooked(b, n - 1);
      DayKeepsBooked(b, n - 1);
    } else {
      StartsBooked(b);
    }
  }

  lemma StartsBooked(b: Backtest)
    ensures Ran(b, 0) && Booked(Ids(b.members), After(b, 0))
  {
    var ids := Ids(b.members);
    forall id | id in Initial(b).positions
      ensures id in ids
    {
      var i :| 0 <= i < |b.members| && b.members[i].assetId == id;
      assert ids[i] == id;
    }
  }

  /** Main result: on every day the matcher's open lots of each asset add up to the engine's position. */
  lemma OpenLotsArePositions(b: Backtest, n: nat, id: AssetId)
    requires ExactLongOnly(b) && Ran(b, n) && id in After(b, n).positions
    ensures var books := MatchAll(Ordered(FilledOnly(After(b, n).trades)));
            Quantity(books.Lots(id)) == After(b, n).positions[id] && Positive(books.Lots(id))
  {
    hide *;
    RunIsBooked(b, n);
    RunLogIsDated(b, n);
    MatchingOrderIsLogOrder(After(b, n).trades);
    LotsOfBooked(Ids(b.members), After(b, n), id);
  }

  lemma LotsOfBooked(ids: seq<AssetId>, s: State, id: AssetId)
    requires Booked(ids, s) && id in s.positions
    ensures Quantity(MatchAll(s.trades).Lots(id)) == s.positions[id] && Positive(MatchAll(s.trades).Lots(id))
  {
    OpenIsBoughtLessSold(ids, s.trades, id);
  }

  // ----- Cash -----

  /** The replayed cash is the initial cash less purchases and commissions, plus sales. */
  lemma {:induction false} CashOfLog(num: Decimals, l: Reconciliation.Ledger, trades: seq<TradeRecord>)
    requires num.Exact()
    ensures Reconciliation.Replay(num, l, trades).cash
            == l.cash - BuyTotal(trades) + SellTotal(trades) - Commissions(trades)
  {
    if trades != [] {
      var n := |trades| - 1;
      CashOfLog(num, l, trades[..n]);
      CashStep(num, Reconciliation.Replay(num, l, trades[..n]), trades[n]);
    }
  }

  lemma CashStep(num: Decimals, l: Reconciliation.Ledger, t: TradeRecord)
    requires num.Exact()
    ensures Reconciliation.Post(num, l, t).cash ==
            if !IsFill(t) then l.cash
            else if t.side.Buy? then l.cash - (Worth(t.quantity, t.fillPrice.value) + t.commission)
            else l.cash + (Worth(t.quantity, t.fillPrice.value) - t.commission)
  {
    if IsFill(t) {
      ExactOperations(num, l.cash, t.quantity, t.fillPrice.value, t.commission);
    }
  }

  lemma ExactOperations(num: Decimals, cash: real, quantity: real, price: real, commission: real)
    requires num.Exact()
    ensures num.mul(quantity, price) == Worth(quantity, price)
    ensures num.Sub(cash, num.add(Worth(quantity, price), commission)) == cash - (Worth(quantity, price) + commission)
    ensures num.add(cash, num.Sub(Worth(quantity, price), commission)) == cash + (Worth(quantity, price) - commission)
  {
    assert num.add(Worth(quantity, price), commission) == Worth(quantity, price) + commission;
    assert num.add(Worth(quantity, price), -commission) == Worth(quantity, price) - commission;
  }

  lemma GapWorth(quantity: real, fillPrice: real, price: real)
    ensures Worth(quantity, fillPrice) - Worth(quantity, price) == (fillPrice - price) * quantity
    ensures Worth(-quantity, price) == -Worth(quantity, price)
  {
  }

  /** What one simulated fill costs is what its record says: valued at the execution price, cash and position
      together lose exactly the recorded slippage and commission, for buys, sells and skipped orders alike. */
  lemma FillCostIsRecorded(b: Backtest, p: PlannedOrder, price: real, date: int, seqNo: nat, c: Context)
    requires b.cfg.num.Exact() && SimulateFill(b, p, price, date, seqNo, c).Success?
    ensures var f := SimulateFill(b, p, price, date, seqNo, c).value;
            f.cashDelta + Worth(f.positionDelta, price) == -(f.record.slippage + f.record.commission)
  {
    var f := SimulateFill(b, p, price, date, seqNo, c).value;
    var sized := SizeFill(b, p).value;
    if sized.Sized? {
      var fillPrice, quantity := ApplySlippage(b.cfg.num, price, p.side, b.cfg.slippagePct).value, sized.quantity;
      SlippageIsAdverse(b.cfg.num, price, p.side, b.cfg.slippagePct);
      hide SizeFill, ApplySlippage, ComputeCommission, Decimals.Exact, Worth, Abs;
      ExactFill(b.cfg.num, quantity, fillPrice, price, f.record.commission);
      GapWorth(quantity, fillPrice, price);
      GapSize(fillPrice, price, quantity);
    } else {
      assert Worth(0.0, price) == 0.0;
    }
  }

  lemma GapSize(fillPrice: real, price: real, quantity: real)
    ensures fillPrice >= price ==> Abs(fillPrice - price) * quantity == (fillPrice - price) * quantity
    ensures fillPrice <= price ==> Abs(fillPrice - price) * quantity == -((fillPrice - price) * quantity)
  {
  }

  lemma ExactFill(num: Decimals, quantity: real, fillPrice: real, price: real, commission: real)
    requires num.Exact()
    ensures num.mul(quantity, fillPrice) == Worth(quantity, fillPrice)
    ensures num.mul(Abs(num.Sub(fillPrice, price)), quantity) == Abs(fillPrice - price) * quantity
    ensures num.add(Worth(quantity, fillPrice), commission) == Worth(quantity, fillPrice) + commission
    ensures num.Sub(Worth(quantity, fillPrice), commission) == Worth(quantity, fillPrice) - commission
  {
    assert num.add(fillPrice, -price) == fillPrice - price;
    assert num.add(Worth(quantity, fillPrice), -commission) == Worth(quantity, fillPrice) - commission;
  }

  // ----- Positions value -----

  /** The gain of an open lot at a closing price. */
  function PaperGain(l: Lot, close: real): real {
    l.quantity * (close - l.price)
  }

  function PaperGains(lots: seq<Lot>, close: real): real {
    if lots == [] then 0.0 else PaperGains(lots[..|lots| - 1], close) + PaperGain(lots[|lots| - 1], close)
  }

  /** The open lots' gains over the first n ids. */
  function Unrealized(ids: seq<AssetId>, books: Books, prices: map<AssetId, real>, n: nat): real
    requires n <= |ids|
  {
    if n == 0 then 0.0
    else Unrealized(ids, books, prices, n - 1) + PaperGains(books.Lots(ids[n - 1]), GetOr(prices, ids[n - 1], 0.0))
  }

  lemma PaperGainIsDifference(l: Lot, rest: real, close: real)
    ensures PaperGain(l, close) == Worth(l.quantity, close) - Worth(l.quantity, l.price)
    ensures Worth(rest + l.quantity, close) == Worth(rest, close) + Worth(l.quantity, close)
  {
  }

  lemma {:induction false} PaperGainsOfLots(lots: seq<Lot>, close: real)
    ensures PaperGains(lots, close) == Worth(Quantity(lots), close) - Cost(lots)
  {
    if lots == [] {
      assert Worth(0.0, close) == 0.0;
    } else {
      var n := |lots| - 1;
      PaperGainsOfLots(lots[..n], close);
      hide Worth, PaperGain;
      PaperGainIsDifference(lots[n], Quantity(lots[..n]), close);
    }
  }

  lemma ExactValueStep(num: Decimals, total: real, quantity: real, price: real)
    requires num.Exact()
    ensures num.add(total, num.mul(quantity, price)) == total + Worth(quantity, price)
    ensures Worth(0.0, price) == 0.0
  {
  }

  /** The positions value is the open lots' cost plus their gains at today's closes. */
  lemma {:induction false} ValueIsCostPlusGains(b: Backtest, books: Books, positions: map<AssetId, real>, day: nat,
                                                n: nat)
    requires n <= |b.members| && b.cfg.num.Exact() && DistinctMembers(b.members)
             && ValueUpTo(b, positions, day, n).Success?
    requires forall id :: id in positions ==> Quantity(books.Lots(id)) == positions[id]
    ensures var v := ValueUpTo(b, positions, day, n).value;
            v.positionsValue == OpenCost(Ids(b.members), books, n) + Unrealized(Ids(b.members), books, v.prices, n)
  {
    if n > 0 {
      ValueIsCostPlusGains(b, books, positions, day, n - 1);
      var before, after := ValueUpTo(b, positions, day, n - 1).value, ValueUpTo(b, positions, day, n).value;
      var id := b.members[n - 1].assetId;
      ValueStep(b, positions, day, before, id);
      PaperGainsOfLots(books.Lots(id), after.prices[id]);
      hide ValueOne, Decimals.Exact, Worth;
      UnrealizedFrame(Ids(b.members), books, before.prices, after.prices, n - 1);
    }
  }

  lemma ValueStep(b: Backtest, positions: map<AssetId, real>, day: nat, before: Valuation, id: AssetId)
    requires b.cfg.num.Exact() && ValueOne(b, positions, day, before, id).Success?
    ensures var after := ValueOne(b, positions, day, before, id).value;
            && id in positions && id in after.prices && after.prices == before.prices[id := after.prices[id]]
            && after.positionsValue == before.positionsValue + Worth(positions[id], after.prices[id])
  {
    hide PriceAt;
    ExactValueStep(b.cfg.num, before.positionsValue, positions[id],
                   ValueOne(b, positions, day, before, id).value.prices[id]);
  }

  lemma {:induction false} UnrealizedFrame(ids: seq<AssetId>, books: Books, prices: map<AssetId, real>,
                                           prices': map<AssetId, real>, n: nat)
    requires n <= |ids| && forall k :: 0 <= k < n ==> GetOr(prices, ids[k], 0.0) == GetOr(prices', ids[k], 0.0)
    ensures Unrealized(ids, books, prices, n) == Unrealized(ids, books, prices', n)
  {
    if n > 0 {
      UnrealizedFrame(ids, books, prices, prices', n - 1);
    }
  }

  // ----- The main result -----

  lemma DistinctIds(members: seq<Member>)
    requires DistinctMembers(members)
    ensures NoRepeats(Ids(members)) && |Ids(members)| == |members|
  {
  }

  /** The pieces of day n's NAV, all taken after its fills. */
  lemma NavParts(b: Backtest, n: nat)
    requires b.cfg.num.Exact() && Ran(b, n + 1)
    ensures var f, d := FilledAt(b, n), DecisionOn(b, n);
            && ValueUpTo(b, f.positions, n, |b.members|) == Success(d.valuation)
            && d.portfolio.snapshot.nav == d.valuation.positionsValue + f.cash
            && f.positions == After(b, n + 1).positions && f.cash == After(b, n + 1).cash
  {
    DayEffect(b, n);
    DecisionParts(b, FilledAt(b, n), n);
    hide Decide, RunTo, DayStep, ValueUpTo;
    var f, d := FilledAt(b, n), DecisionOn(b, n);
    assert b.cfg.num.add(d.valuation.positionsValue, f.cash) == d.valuation.positionsValue + f.cash;
  }

  /** Main result: on every day of an exact long-only run, NAV less initial cash is the matcher's realized
      gains, plus its open lots' gains at the day's closes, less every commission paid. */
  lemma ProfitAttribution(b: Backtest, n: nat)
    requires ExactLongOnly(b) && Ran(b, n + 1)
    ensures var books := MatchAll(Ordered(FilledOnly(After(b, n + 1).trades)));
            && n < |After(b, n + 1).equity|
            && After(b, n + 1).equity[n].nav - b.cfg.initialCash
               == Realized(books.matches)
                  + Unrealized(Ids(b.members), books, DecisionOn(b, n).valuation.prices, |b.members|)
                  - Commissions(After(b, n + 1).trades)
  {
    hide RunTo, DayStep, Decide, FillUpTo, ReviewUpTo, ValueUpTo, LongOnlyStrategy, Booked, CoveredFills, Unrealized,
         OpenCost, MatchAll, Ids, Realized, Quantity, Commissions, BuyTotal, SellTotal, Reconciliation.Replay,
           DatedLog, Ordered, FilledOnly, DistinctMembers, NoRepeats, Decimals.Exact, FilledAt;
    var s, ids := After(b, n + 1), Ids(b.members);
    DayInRun(b, n, n + 1);
    NavParts(b, n);
    RunIsBooked(b, n + 1);
    RunLogIsDated(b, n + 1);
    MatchingOrderIsLogOrder(s.trades);
    var books := MatchAll(s.trades);
    forall id | id in s.positions
      ensures Quantity(books.Lots(id)) == s.positions[id]
    {
      LotsOfBooked(ids, s, id);
    }
    ValueIsCostPlusGains(b, books, s.positions, n, |b.members|);
    DistinctIds(b.members);
    BookedIsCovered(ids, s);
    MoneyConserved(ids, s.trades);
    ReconciledRuns.BooksMatchLog(b, n + 1);
    CashOfLog(b.cfg.num, Reconciliation.Ledger(b.cfg.initialCash, map[]), s.trades);
  }

  lemma BookedIsCovered(ids: seq<AssetId>, s: State)
    requires Booked(ids, s)
    ensures CoveredFills(ids, s.trades)
  {
  }
}
