/** What every step of the day loop keeps: the phases of a completed day, what each phase
    leaves alone, and the dates in the trade log. */
module RunFacts {
  import opened Common
  import opened Domain
  import opened Engine
  import opened Matching

  /** The first n days completed. */
  ghost predicate Ran(b: Backtest, n: nat) {
    RunTo(b, n).Success?
  }

  ghost function After(b: Backtest, n: nat): State
    requires Ran(b, n)
  {
    RunTo(b, n).value
  }

  /** Day n in its three phases. */
  lemma DayParts(b: Backtest, n: nat)
    requires Ran(b, n + 1)
    ensures Ran(b, n)
    ensures ApplyPending(b, After(b, n), n).Success?
    ensures Decide(b, ApplyPending(b, After(b, n), n).value, n).Success?
    ensures var s := ApplyPending(b, After(b, n), n).value;
            var d := Decide(b, s, n).value;
            After(b, n + 1) == ReviewUpTo(b, Record(b, s, d), d, n, |d.orders|)
  {
  }

  lemma {:induction false} RanEarlier(b: Backtest, m: nat, n: nat)
    requires m <= n && Ran(b, n)
    ensures Ran(b, m)
    decreases n
  {
    hide *;
    if m < n {
      DayParts(b, n - 1);
      RanEarlier(b, m, n - 1);
    }
  }

  /** The state of day n after its fills. */
  ghost function FilledAt(b: Backtest, n: nat): State
    requires Ran(b, n + 1)
  {
    DayParts(b, n);
    ApplyPending(b, After(b, n), n).value
  }

  ghost function DecisionOn(b: Backtest, n: nat): Decision
    requires Ran(b, n + 1)
  {
    DayParts(b, n);
    Decide(b, FilledAt(b, n), n).value
  }

  ghost function RecordedAt(b: Backtest, n: nat): State
    requires Ran(b, n + 1)
  {
    Record(b, FilledAt(b, n), DecisionOn(b, n))
  }

  // ----- Fills -----

  /** The log entry that executing a queued order leaves. */
  ghost predicate LogsFill(b: Backtest, s: State, p: PlannedOrder, day: nat, t: TradeRecord) {
    && t.seqNo == s.seqNo + 1
    && t.assetId == p.assetId && t.side == p.side && t.plannedQuantity == p.quantity
    && t.tradeDate == Some(b.cfg.startDate + day)
    && p.assetId in s.context
    && t.decisionDate == s.context[p.assetId].decisionDate
    && t.signalScore == s.context[p.assetId].score
    && (t.status.Filled? || t.status.SkippedMinQuantity? || t.status.SkippedPrecisionUnavailable?)
    && (t.status.Filled? <==> t.fillPrice.Some?)
    && (!t.status.Filled? ==> t.quantity == t.commission == t.slippage == 0.0)
  }

  /** The same account except for the log. */
  predicate SameHoldings(s: State, s': State) {
    s'.positions == s.positions && s'.averageCost == s.averageCost && s'.cash == s.cash
  }

  lemma SimulatedRecord(b: Backtest, p: PlannedOrder, price: real, date: int, seqNo: nat, c: Context)
    requires SimulateFill(b, p, price, date, seqNo, c).Success?
    ensures var t := SimulateFill(b, p, price, date, seqNo, c).value.record;
            && t.seqNo == seqNo && t.assetId == p.assetId && t.side == p.side && t.plannedQuantity == p.quantity
            && t.tradeDate == Some(date) && t.decisionDate == c.decisionDate && t.signalScore == c.score
            && (t.status.Filled? || t.status.SkippedMinQuantity? || t.status.SkippedPrecisionUnavailable?)
            && (t.status.Filled? <==> t.fillPrice.Some?)
            && (!t.status.Filled? ==> t.quantity == t.commission == t.slippage == 0.0)
  {
    hide RoundToLot, ApplySlippage, ComputeCommission;
  }

  lemma BookEffect(b: Backtest, s: State, p: PlannedOrder, f: Fill)
    requires Book(b, s, p, f).Success?
    ensures var s' := Book(b, s, p, f).value;
            && s'.trades == s.trades + [f.record] && s'.seqNo == f.record.seqNo
            && s'.pending == s.pending && s'.context == s.context && s'.equity == s.equity && s'.detail == s.detail
            && (!f.record.status.Filled? ==> SameHoldings(s, s'))
  {
  }

  lemma FillOneEffect(b: Backtest, s: State, p: PlannedOrder, day: nat)
    requires FillOne(b, s, p, day).Success?
    ensures var s' := FillOne(b, s, p, day).value;
            && s'.trades != [] && s'.trades[..|s'.trades| - 1] == s.trades
            && LogsFill(b, s, p, day, s'.trades[|s'.trades| - 1])
            && s'.seqNo == s.seqNo + 1
            && s'.pending == s.pending && s'.context == s.context
            && s'.equity == s.equity && s'.detail == s.detail
            && (!s'.trades[|s'.trades| - 1].status.Filled? ==> SameHoldings(s, s'))
  {
    var c := s.context[p.assetId];
    var quote := PriceAt(b, p.assetId, day, Open).value;
    SimulatedRecord(b, p, quote.price, b.cfg.startDate + day, s.seqNo + 1, c);
    var f := SimulateFill(b, p, quote.price, b.cfg.startDate + day, s.seqNo + 1, c).value;
    assert FillOne(b, s, p, day) == Book(b, s, p, f);
    hide SimulateFill, PriceAt, FillOne;
    BookEffect(b, s, p, f);
  }

  /** Filling leaves the queue, the curve and the detail alone and only appends to the log. */
  lemma {:induction false} FillUpToEffect(b: Backtest, s: State, day: nat, n: nat)
    requires n <= |s.pending| && FillUpTo(b, s, day, n).Success?
    ensures var s' := FillUpTo(b, s, day, n).value;
            && s'.pending == s.pending && s'.context == s.context
            && s'.equity == s.equity && s'.detail == s.detail
            && s.trades <= s'.trades && |s'.trades| == |s.trades| + n && s'.seqNo == s.seqNo + n
            && forall i :: |s.trades| <= i < |s'.trades| ==>
                 s'.trades[i].tradeDate == Some(b.cfg.startDate + day)
                 && (s'.trades[i].status.Filled? ==> s'.trades[i].fillPrice.Some?)
  {
    hide FillOne;
    if n > 0 {
      FillUpToEffect(b, s, day, n - 1);
      FillOneEffect(b, FillUpTo(b, s, day, n - 1).value, s.pending[n - 1], day);
    }
  }

  // ----- Review -----

  /** An order that was not executed the day it was decided. */
  ghost predicate LogsRefusal(b: Backtest, day: nat, t: TradeRecord) {
    && (t.status.Rejected? || t.status.SkippedNoNextDay?)
    && t.tradeDate.None? && t.fillPrice.None? && t.quantity == t.commission == t.slippage == 0.0
    && t.decisionDate == b.cfg.startDate + day
  }

  lemma ReviewOneEffect(b: Backtest, s: State, d: Decision, p: PlannedOrder, day: nat)
    ensures var s' := ReviewOne(b, s, d, p, day);
            && SameHoldings(s, s') && s'.equity == s.equity && s'.detail == s.detail && s'.seqNo == s.seqNo + 1
            && (s'.trades == s.trades
                || (|s'.trades| == |s.trades| + 1 && s'.trades[..|s.trades|] == s.trades
                    && LogsRefusal(b, day, s'.trades[|s.trades|])))
  {
    hide Review;
  }

  /** Reviewing moves no money: it only logs refusals and queues orders. */
  lemma {:induction false} ReviewEffect(b: Backtest, s: State, d: Decision, day: nat, n: nat)
    requires n <= |d.orders|
    ensures var s' := ReviewUpTo(b, s, d, day, n);
            && SameHoldings(s, s') && s'.equity == s.equity && s'.detail == s.detail
            && s.trades <= s'.trades && s'.seqNo == s.seqNo + n
            && forall i :: |s.trades| <= i < |s'.trades| ==> LogsRefusal(b, day, s'.trades[i])
  {
    if n > 0 {
      ReviewEffect(b, s, d, day, n - 1);
      var before := ReviewUpTo(b, s, d, day, n - 1);
      ReviewOneEffect(b, before, d, d.orders[n - 1], day);
      hide ReviewOne;
    }
  }

  // ----- Days -----

  /** What day n adds to the state it starts from. */
  lemma DayEffect(b: Backtest, n: nat)
    requires Ran(b, n + 1)
    ensures Ran(b, n)
    ensures var s, f, d, s' := After(b, n), FilledAt(b, n), DecisionOn(b, n), After(b, n + 1);
            && s'.equity == s.equity + [d.portfolio.snapshot]
            && s'.detail == s.detail + [DetailOf(b, f, d)]
            && SameHoldings(f, s')
            && s.trades <= f.trades <= s'.trades
            && f.pending == [] && f.context == map[]
            && f.equity == s.equity && f.detail == s.detail
            && (forall i :: |s.trades| <= i < |f.trades| ==>
                  f.trades[i].tradeDate == Some(b.cfg.startDate + n)
                  && (f.trades[i].status.Filled? ==> f.trades[i].fillPrice.Some?))
            && (forall i :: |f.trades| <= i < |s'.trades| ==> LogsRefusal(b, n, s'.trades[i]))
  {
    DayParts(b, n);
    var s, f, d := After(b, n), FilledAt(b, n), DecisionOn(b, n);
    FillUpToEffect(b, s, n, |s.pending|);
    ReviewEffect(b, Record(b, f, d), d, n, |d.orders|);
  }

  /** The fills of day n, on the state it starts from. */
  lemma DayFills(b: Backtest, n: nat)
    requires Ran(b, n + 1)
    ensures Ran(b, n)
    ensures var s := After(b, n);
            FillUpTo(b, s, n, |s.pending|).Success?
            && FilledAt(b, n) == FillUpTo(b, s, n, |s.pending|).value.(pending := [], context := map[])
  {
    hide RunTo, Decide, FillUpTo;
    DayParts(b, n);
  }

  /** The review of day n, on the recorded state. */
  lemma DayReview(b: Backtest, n: nat)
    requires Ran(b, n + 1)
    ensures var f, d := FilledAt(b, n), DecisionOn(b, n);
            After(b, n + 1) == ReviewUpTo(b, Record(b, f, d), d, n, |d.orders|)
  {
    hide RunTo, Decide, ApplyPending, ReviewUpTo;
    DayParts(b, n);
  }

  lemma DayDecision(b: Backtest, n: nat)
    requires Ran(b, n + 1)
    ensures Decide(b, FilledAt(b, n), n) == Success(DecisionOn(b, n))
  {
    hide RunTo, Decide, ApplyPending;
    DayParts(b, n);
  }

  lemma RunIsAfter(b: Backtest, r: BacktestResult)
    requires Run(b) == Success(r)
    ensures Ran(b, b.cfg.days) && r == ResultOf(b, After(b, b.cfg.days))
  {
    hide RunTo;
  }

  lemma DecisionDate(b: Backtest, n: nat)
    requires Ran(b, n + 1)
    ensures DecisionOn(b, n).portfolio.snapshot.valuationDate == b.cfg.startDate + n
    ensures DetailOf(b, FilledAt(b, n), DecisionOn(b, n)).valuationDate == b.cfg.startDate + n
  {
    hide RunTo, ApplyPending;
    DayParts(b, n);
  }

  lemma Start(b: Backtest)
    ensures Ran(b, 0) && After(b, 0) == Initial(b)
  {
  }

  /** One snapshot and one detail a day, dated consecutively. */
  lemma {:induction false} Gapless(b: Backtest, n: nat)
    requires Ran(b, n)
    ensures var s := After(b, n);
            && |s.equity| == |s.detail| == n
            && (forall i :: 0 <= i < n ==> s.equity[i].valuationDate == b.cfg.startDate + i)
            && (forall i :: 0 <= i < n ==> s.detail[i].valuationDate == b.cfg.startDate + i)
  {
    hide Ran, After, FilledAt, DecisionOn;
    if n > 0 {
      DayEffect(b, n - 1);
      DecisionDate(b, n - 1);
      hide DetailOf;
      Gapless(b, n - 1);
    } else {
      Start(b);
    }
  }

  /** Later days only append: curve, detail and log of the first m days never change. */
  lemma {:induction false} HistoryIsFinal(b: Backtest, m: nat, n: nat)
    requires m <= n && Ran(b, n)
    ensures Ran(b, m)
    ensures var s, s' := After(b, m), After(b, n);
            s.equity <= s'.equity && s.detail <= s'.detail && s.trades <= s'.trades
    decreases n
  {
    hide Ran, After, FilledAt, DecisionOn, DetailOf;
    if m < n {
      DayEffect(b, n - 1);
      HistoryIsFinal(b, m, n - 1);
    }
  }

  /** Day i's entries of a longer run. */
  lemma DayInRun(b: Backtest, i: nat, n: nat)
    requires i < n && Ran(b, n)
    ensures Ran(b, i + 1)
    ensures var s := After(b, n);
            && i < |s.equity| && i < |s.detail|
            && s.equity[i] == DecisionOn(b, i).portfolio.snapshot
            && s.detail[i] == DetailOf(b, FilledAt(b, i), DecisionOn(b, i))
  {
    HistoryIsFinal(b, i + 1, n);
    DayEffect(b, i);
    Gapless(b, i);
    Gapless(b, n);
  }

  /** Everything executed is dated before today; everything executed has a price. */
  lemma {:induction false} LogDates(b: Backtest, n: nat)
    requires Ran(b, n)
    ensures var ts := After(b, n).trades;
            forall i :: 0 <= i < |ts| ==>
              && (ts[i].tradeDate.Some? ==> ts[i].tradeDate.value < b.cfg.startDate + n)
              && (ts[i].status.Filled? ==> ts[i].tradeDate.Some? && ts[i].fillPrice.Some?)
  {
    hide Ran, After, FilledAt, DecisionOn, DetailOf;
    if n > 0 {
      DayEffect(b, n - 1);
      LogDates(b, n - 1);
    } else {
      Start(b);
    }
  }

  /** Everything executed on later days is dated on later days. */
  lemma {:induction false} LaterLogDates(b: Backtest, m: nat, n: nat)
    requires m <= n && Ran(b, n)
    ensures Ran(b, m)
    ensures var s, s' := After(b, m), After(b, n);
            s.trades <= s'.trades
            && forall i :: |s.trades| <= i < |s'.trades| && s'.trades[i].tradeDate.Some? ==>
                 s'.trades[i].tradeDate.value >= b.cfg.startDate + m
    decreases n
  {
    hide Ran, After, FilledAt, DecisionOn, DetailOf;
    if m < n {
      DayEffect(b, n - 1);
      LaterLogDates(b, m, n - 1);
    }
  }
}
