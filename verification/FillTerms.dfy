/** What a queued order is executed at, stated on the bars' own fields: only the opens of its day decide it. */
module FillTerms {
  import opened Common
  import opened Domain
  import opened Matching
  import opened Engine
  import opened RunFacts
  import NoLookAhead
  import ShortSales

  // ----- Only the opens of the day -----

  /** The k-th bars of both exist and open alike, or neither exists. */
  ghost predicate SameOpen(x: map<string, seq<AlignedBar>>, y: map<string, seq<AlignedBar>>, key: string, k: nat) {
    && (key in x && k < |x[key]| <==> key in y && k < |y[key]|)
    && (key in x && k < |x[key]| && key in y && k < |y[key]| ==> x[key][k].open == y[key][k].open)
  }

  ghost predicate SameOpens(x: map<string, seq<AlignedBar>>, y: map<string, seq<AlignedBar>>, k: nat) {
    forall key :: SameOpen(x, y, key, k)
  }

  /** The same backtest on two data sets that agree before day n, and on day n in the opens of assets and FX rates. */
  ghost predicate AgreeToOpen(b: Backtest, c: Backtest, n: nat) {
    NoLookAhead.AgreeBefore(b, c, n) && SameOpens(b.series, c.series, n) && SameOpens(b.fx, c.fx, n)
  }

  lemma SameOpeningPrice(b: Backtest, c: Backtest, n: nat, id: AssetId)
    requires AgreeToOpen(b, c, n)
    ensures PriceAt(b, id, n, Open).Success? <==> PriceAt(c, id, n, Open).Success?
    ensures PriceAt(b, id, n, Open).Failure? ==> PriceAt(b, id, n, Open) == PriceAt(c, id, n, Open)
    ensures PriceAt(b, id, n, Open).Success? ==>
              PriceAt(b, id, n, Open).value.price == PriceAt(c, id, n, Open).value.price
  {
    assert SameOpen(b.series, c.series, id, n);
    if id in b.assets {
      assert SameOpen(b.fx, c.fx, b.assets[id].quoteCurrency, n);
    }
  }

  lemma SameOpeningFill(b: Backtest, c: Backtest, n: nat, s: State, p: PlannedOrder)
    requires AgreeToOpen(b, c, n)
    ensures FillOne(b, s, p, n) == FillOne(c, s, p, n)
  {
    hide NoLookAhead.AgreeBefore, SameOpens, PriceAt, SimulateFill, Book;
    SameOpeningPrice(b, c, n, p.assetId);
    NoLookAhead.SameBook(b, c, n, s, p);
  }

  lemma {:induction false} SameOpeningFills(b: Backtest, c: Backtest, n: nat, s: State, k: nat)
    requires AgreeToOpen(b, c, n) && k <= |s.pending|
    ensures FillUpTo(b, s, n, k) == FillUpTo(c, s, n, k)
  {
    hide FillOne, AgreeToOpen;
    if k > 0 {
      SameOpeningFills(b, c, n, s, k - 1);
      if FillUpTo(b, s, n, k - 1).Success? {
        SameOpeningFill(b, c, n, FillUpTo(b, s, n, k - 1).value, s.pending[k - 1]);
      }
    }
  }

  /** Main result: nothing of day n but its opens can influence its fills. Two runs on data that agree before day n,
      and on day n in the opens, are in the same state after n days, and then after day n's fills: same cash,
      positions, cost and log, or the same error. */
  lemma FillsSeeOnlyOpens(b: Backtest, c: Backtest, n: nat)
    requires AgreeToOpen(b, c, n) && NoLookAhead.SameEnd(b, c, n)
    ensures RunTo(b, n) == RunTo(c, n)
    ensures Ran(b, n) ==> ApplyPending(b, After(b, n), n) == ApplyPending(c, After(c, n), n)
  {
    hide NoLookAhead.AgreeBefore, SameOpens, FillUpTo;
    NoLookAhead.NoLookAhead(b, c, n, n);
    if Ran(b, n) {
      SameOpeningFills(b, c, n, After(b, n), |After(b, n).pending|);
    }
  }

  // ----- The terms of a fill -----

  /** The day has a bar of the asset and, when it is foreign, of its currency. */
  predicate HasBars(b: Backtest, id: AssetId, day: nat) {
    && id in b.assets && id in b.series && day < |b.series[id]|
    && var currency := b.assets[id].quoteCurrency;
       currency != b.cfg.baseCurrency ==> currency in b.fx && day < |b.fx[currency]|
  }

  /** The asset's open in the base currency. */
  function OpeningPrice(b: Backtest, id: AssetId, day: nat): real
    requires HasBars(b, id, day)
  {
    var currency := b.assets[id].quoteCurrency;
    if currency == b.cfg.baseCurrency then b.series[id][day].open else b.series[id][day].open * b.fx[currency][day].open
  }

  /** The asset's close in the base currency. */
  function ClosingPrice(b: Backtest, id: AssetId, day: nat): real
    requires HasBars(b, id, day)
  {
    var currency := b.assets[id].quoteCurrency;
    if currency == b.cfg.baseCurrency then b.series[id][day].close
    else b.series[id][day].close * b.fx[currency][day].close
  }

  /** The size of a fill: as planned, or in restricted mode the greatest whole number of lots in it. */
  ghost predicate FillsSize(b: Backtest, t: TradeRecord) {
    if !b.cfg.restrictedPrecision then t.quantity == t.plannedQuantity
    else
      && t.assetId in b.precision && b.precision[t.assetId].Some?
      && var precision := b.precision[t.assetId].value;
         && IsLotMultiple(t.quantity, precision.lotSize)
         && 0.0 < t.quantity <= t.plannedQuantity < t.quantity + precision.lotSize
         && t.quantity >= precision.minQuantity
  }

  /** The open moved by slippage against the trader. */
  predicate Slipped(price: real, open: real, side: Side, slippagePct: real) {
    price == if side.Buy? then open * (1.0 + slippagePct) else open * (1.0 - slippagePct)
  }

  /** The greater of a share of the worth and the minimum. */
  predicate Charged(commission: real, quantity: real, price: real, pct: real, minimum: real) {
    var share := quantity * price * pct;
    commission >= share && commission >= minimum && (commission == share || commission == minimum)
  }

  ghost predicate FillsAt(b: Backtest, t: TradeRecord, open: real) {
    && t.fillPrice.Some? && Slipped(t.fillPrice.value, open, t.side, b.cfg.slippagePct)
    && Charged(t.commission, t.quantity, t.fillPrice.value, b.cfg.commissionPct, b.cfg.minCommission)
  }

  /** Why an order was skipped: the asset's precision is not known, or no fillable number of lots is in it. */
  ghost predicate SkippedRightly(b: Backtest, t: TradeRecord) {
    && b.cfg.restrictedPrecision
    && var known := t.assetId in b.precision && b.precision[t.assetId].Some?;
       && (t.status.SkippedPrecisionUnavailable? <==> !known)
       && (known ==>
             var precision := b.precision[t.assetId].value;
             exists n: int ::
               && 0 <= n && Lots(n, precision.lotSize) <= t.plannedQuantity < Lots(n, precision.lotSize)
                  + precision.lotSize
               && (n == 0 || Lots(n, precision.lotSize) < precision.minQuantity))
  }

  ghost predicate Terms(b: Backtest, day: nat, t: TradeRecord) {
    if t.status.Filled? then
      FillsSize(b, t) && HasBars(b, t.assetId, day) && FillsAt(b, t, OpeningPrice(b, t.assetId, day))
    else (t.status.SkippedMinQuantity? || t.status.SkippedPrecisionUnavailable?) && SkippedRightly(b, t)
  }

  lemma ExactOpen(b: Backtest, id: AssetId, day: nat)
    requires b.cfg.num.Exact() && PriceAt(b, id, day, Open).Success?
    ensures HasBars(b, id, day) && PriceAt(b, id, day, Open).value.price == OpeningPrice(b, id, day)
  {
  }

  lemma ExactClose(b: Backtest, id: AssetId, day: nat)
    requires b.cfg.num.Exact() && PriceAt(b, id, day, Close).Success?
    ensures HasBars(b, id, day) && PriceAt(b, id, day, Close).value.price == ClosingPrice(b, id, day)
  {
  }

  lemma ExactSlippage(num: Decimals, open: real, side: Side, slippagePct: real)
    requires num.Exact() && ApplySlippage(num, open, side, slippagePct).Success?
    ensures Slipped(ApplySlippage(num, open, side, slippagePct).value, open, side, slippagePct)
  {
    assert num.add(1.0, slippagePct) == 1.0 + slippagePct && num.Sub(1.0, slippagePct) == 1.0 - slippagePct;
  }

  lemma ExactCommission(num: Decimals, quantity: real, price: real, pct: real, minimum: real)
    requires num.Exact() && ComputeCommission(num, num.mul(quantity, price), pct, minimum).Success?
    ensures Charged(ComputeCommission(num, num.mul(quantity, price), pct, minimum).value, quantity, price, pct, minimum)
  {
    assert num.mul(quantity, price) == quantity * price;
    var notional := quantity * price;
    assert num.mul(notional, pct) == notional * pct;
  }

  lemma ExactSize(b: Backtest, p: PlannedOrder)
    requires b.cfg.num.Exact() && SizeFill(b, p).Success? && p.quantity > 0.0
    ensures SizeFill(b, p).value.Sized? ==>
              var t := DraftRecord(p, SizeFill(b, p).value.quantity);
              FillsSize(b, t)
    ensures SizeFill(b, p).value.NotSized? ==>
              var status := SizeFill(b, p).value.status;
              && (status.SkippedMinQuantity? || status.SkippedPrecisionUnavailable?)
              && SkippedRightly(b, Skipped(p, status, 0, Context(None, 0), None))
  {
    if b.cfg.restrictedPrecision && GetOr(b.precision, p.assetId, None).Some? {
      var precision := GetOr(b.precision, p.assetId, None).value;
      RoundToLotIsFloor(b.cfg.num, p.quantity, precision.lotSize, precision.minQuantity);
      ExactRounding(b.cfg.num, p.quantity, precision.lotSize, precision.minQuantity);
      WholeLots(p.quantity, precision.lotSize);
      hide RoundToLot, Lots, Decimals.Exact;
      NoLots(precision.lotSize, (p.quantity / precision.lotSize).Floor);
    }
  }

  lemma NoLots(lotSize: real, n: int)
    requires lotSize > 0.0
    ensures Lots(n, lotSize) <= 0.0 <==> n <= 0
    ensures Lots(n, lotSize) >= 0.0 <==> n >= 0
  {
    if n > 0 {
      PositiveProduct(n as real, lotSize);
    } else if n < 0 {
      PositiveProduct(-n as real, lotSize);
    }
  }

  /** A record that says no more than what is filled. */
  function DraftRecord(p: PlannedOrder, quantity: real): TradeRecord {
    TradeRecord(0, p.assetId, p.side, Filled, p.quantity, quantity, None, 0.0, 0.0, None, [], 0, None)
  }

  /** Terms are about the asset, the sizes and the charges of a record. */
  lemma SameSizeTerms(b: Backtest, t: TradeRecord, u: TradeRecord)
    requires t.assetId == u.assetId && t.plannedQuantity == u.plannedQuantity && t.quantity == u.quantity
    requires t.status == u.status
    ensures FillsSize(b, t) == FillsSize(b, u) && SkippedRightly(b, t) == SkippedRightly(b, u)
  {
  }

  lemma SimulatedTerms(b: Backtest, p: PlannedOrder, open: real, date: int, seqNo: nat, c: Context)
    requires b.cfg.num.Exact() && p.quantity > 0.0 && SimulateFill(b, p, open, date, seqNo, c).Success?
    ensures SimulateFill(b, p, open, date, seqNo, c).value.record.assetId == p.assetId
    ensures var t := SimulateFill(b, p, open, date, seqNo, c).value.record;
            if t.status.Filled? then FillsSize(b, t) && FillsAt(b, t, open)
            else (t.status.SkippedMinQuantity? || t.status.SkippedPrecisionUnavailable?) && SkippedRightly(b, t)
  {
    ExactSize(b, p);
    var t := SimulateFill(b, p, open, date, seqNo, c).value.record;
    hide SizeFill, FillsSize, SkippedRightly, Decimals.Exact, Slipped, Charged;
    if SizeFill(b, p).value.Sized? {
      var quantity := SizeFill(b, p).value.quantity;
      var price := ApplySlippage(b.cfg.num, open, p.side, b.cfg.slippagePct).value;
      ExactSlippage(b.cfg.num, open, p.side, b.cfg.slippagePct);
      ExactCommission(b.cfg.num, quantity, price, b.cfg.commissionPct, b.cfg.minCommission);
      hide ApplySlippage, ComputeCommission;
      SameSizeTerms(b, DraftRecord(p, quantity), t);
    } else {
      SameSizeTerms(b, Skipped(p, SizeFill(b, p).value.status, 0, Context(None, 0), None), t);
    }
  }

  lemma FillHasTerms(b: Backtest, s: State, p: PlannedOrder, day: nat)
    requires b.cfg.num.Exact() && p.quantity > 0.0 && FillOne(b, s, p, day).Success?
    ensures var s' := FillOne(b, s, p, day).value;
            s'.trades != [] && s'.trades[..|s'.trades| - 1] == s.trades && Terms(b, day, s'.trades[|s'.trades| - 1])
  {
    hide PriceAt, SimulateFill, Book, HasBars, OpeningPrice, FillsSize, FillsAt, SkippedRightly, Decimals.Exact;
    ExactOpen(b, p.assetId, day);
    var open, c := PriceAt(b, p.assetId, day, Open).value.price, s.context[p.assetId];
    SimulatedTerms(b, p, open, b.cfg.startDate + day, s.seqNo + 1, c);
    var f := SimulateFill(b, p, open, b.cfg.startDate + day, s.seqNo + 1, c).value;
    assert FillOne(b, s, p, day) == Book(b, s, p, f);
    BookEffect(b, s, p, f);
    assert (s.trades + [f.record])[..|s.trades|] == s.trades;
  }

  // ----- Runs -----

  /** Every record from the m-th on was executed on the day, on the day's terms. */
  ghost predicate TermsFrom(b: Backtest, day: nat, trades: seq<TradeRecord>, m: nat) {
    forall i :: m <= i < |trades| ==> Terms(b, day, trades[i])
  }

  lemma {:induction false} FillsHaveTerms(b: Backtest, s: State, day: nat, n: nat)
    requires b.cfg.num.Exact() && n <= |s.pending| && FillUpTo(b, s, day, n).Success?
    requires forall p :: p in s.pending ==> p.quantity > 0.0
    ensures TermsFrom(b, day, FillUpTo(b, s, day, n).value.trades, |s.trades|)
  {
    hide FillOne, Terms;
    if n > 0 {
      FillsHaveTerms(b, s, day, n - 1);
      FillUpToEffect(b, s, day, n - 1);
      assert s.pending[n - 1] in s.pending;
      var before, after := FillUpTo(b, s, day, n - 1).value.trades, FillUpTo(b, s, day, n).value.trades;
      FillHasTerms(b, FillUpTo(b, s, day, n - 1).value, s.pending[n - 1], day);
      assert forall i :: 0 <= i < |before| ==> after[i] == before[i];
    }
  }

  /** A record of an executed or skipped order has the terms of the day it is dated. */
  ghost predicate HasTerms(b: Backtest, t: TradeRecord) {
    t.tradeDate.Some? ==> t.tradeDate.value >= b.cfg.startDate && Terms(b, t.tradeDate.value - b.cfg.startDate, t)
  }

  lemma DayHasTerms(b: Backtest, n: nat)
    requires b.cfg.num.Exact() && DistinctMembers(b.members) && Ran(b, n + 1) && Ran(b, n)
    requires forall t :: t in After(b, n).trades ==> HasTerms(b, t)
    ensures forall t :: t in After(b, n + 1).trades ==> HasTerms(b, t)
  {
    hide Ran, After, FilledAt, DecisionOn, DistinctMembers, Decimals.Exact, Terms, FillUpTo;
    DayEffect(b, n);
    DayFills(b, n);
    ShortSales.RunIsTidy(b, n);
    var s, f, s' := After(b, n), FilledAt(b, n), After(b, n + 1);
    FillsHaveTerms(b, s, n, |s.pending|);
    forall t | t in s'.trades
      ensures HasTerms(b, t)
    {
      var i :| 0 <= i < |s'.trades| && s'.trades[i] == t;
      if i < |s.trades| {
        assert t == f.trades[i] == s.trades[i];
        assert s.trades[i] in s.trades;
      } else if i < |f.trades| {
        assert t == f.trades[i];
      } else {
        assert LogsRefusal(b, n, s'.trades[i]);
      }
    }
  }

  lemma NothingLogged(b: Backtest)
    ensures Ran(b, 0) && After(b, 0).trades == []
  {
  }

  /** Main result: in an exact run every record dated as executed has the terms of its day. A fill is priced at the
      asset's open of that day, times the open of its currency when it is foreign, moved by slippage against the
      trader, at the planned size or the whole lots in it, and charged the greater of its share and the minimum; an
      order is skipped exactly for missing precision or for too few lots. */
  lemma {:induction false} RecordsHaveTerms(b: Backtest, n: nat, t: TradeRecord)
    requires b.cfg.num.Exact() && DistinctMembers(b.members) && Ran(b, n) && t in After(b, n).trades
    ensures HasTerms(b, t)
  {
    hide DistinctMembers, Decimals.Exact, HasTerms, Ran, After;
    if n == 0 {
      NothingLogged(b);
    } else {
      RanEarlier(b, n - 1, n);
      forall u | u in After(b, n - 1).trades
        ensures HasTerms(b, u)
      {
        RecordsHaveTerms(b, n - 1, u);
      }
      DayHasTerms(b, n - 1);
    }
  }
}
