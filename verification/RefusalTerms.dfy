/** Why an order was never executed: every undated record of a run, traced to the review that refused it. */
module RefusalTerms {
  import opened Common
  import opened Domain
  import opened Engine
  import opened RunFacts
  import opened OrderFlow

  /** The record of a planned order that was rejected for these rules, or that the last day had no next one for. */
  ghost predicate Refuses(b: Backtest, d: Decision, day: nat, o: PlannedOrder, t: TradeRecord) {
    && t.decisionDate == b.cfg.startDate + day && t.tradeDate == None && t.fillPrice == None
    && t.assetId == o.assetId && t.side == o.side && IsScore(t.signalScore, d, o.assetId)
    && var (verdict, size) := Review(b, d.portfolio, o);
       if verdict.approved then
         t.status == SkippedNoNextDay && day + 1 == b.cfg.days && t.plannedQuantity == size && t.rejections == []
       else
         t.status == Rejected && t.plannedQuantity == o.quantity && t.rejections == verdict.rejections
  }

  /** The record refuses one of the day's planned orders. */
  ghost predicate RefusalOf(b: Backtest, d: Decision, day: nat, t: TradeRecord) {
    exists i :: 0 <= i < |d.orders| && Refuses(b, d, day, d.orders[i], t)
  }

  lemma ReviewOneRefuses(b: Backtest, s: State, d: Decision, o: PlannedOrder, day: nat)
    ensures var s' := ReviewOne(b, s, d, o, day);
            s'.trades == s.trades
            || (|s'.trades| == |s.trades| + 1 && s'.trades[..|s.trades|] == s.trades
                && Refuses(b, d, day, o, s'.trades[|s.trades|]))
  {
    hide Review;
  }

  lemma {:induction false} ReviewRefuses(b: Backtest, s: State, d: Decision, day: nat, n: nat)
    requires n <= |d.orders|
    ensures var s' := ReviewUpTo(b, s, d, day, n);
            s.trades <= s'.trades && forall i :: |s.trades| <= i < |s'.trades| ==> RefusalOf(b, d, day, s'.trades[i])
  {
    if n > 0 {
      ReviewRefuses(b, s, d, day, n - 1);
      ReviewOneRefuses(b, ReviewUpTo(b, s, d, day, n - 1), d, d.orders[n - 1], day);
      hide ReviewOne, Refuses;
    }
  }

  /** The record was refused by the review of day `day`. */
  ghost predicate RefusedOn(b: Backtest, t: TradeRecord, day: nat) {
    Ran(b, day + 1) && RefusalOf(b, DecisionOn(b, day), day, t)
  }

  /** An undated record of a day was there before, or is one of its refusals. */
  lemma DayRefuses(b: Backtest, n: nat, t: TradeRecord)
    requires Ran(b, n + 1) && t in After(b, n + 1).trades && t.tradeDate.None?
    ensures Ran(b, n) && (t in After(b, n).trades || RefusedOn(b, t, n))
  {
    hide Ran, After, FilledAt, DecisionOn, RefusalOf;
    DayEffect(b, n);
    DayReview(b, n);
    var s, f, d, s' := After(b, n), FilledAt(b, n), DecisionOn(b, n), After(b, n + 1);
    ReviewRefuses(b, Record(b, f, d), d, n, |d.orders|);
    hide ReviewUpTo;
    var i :| 0 <= i < |s'.trades| && s'.trades[i] == t;
    if i < |s.trades| {
      assert t == f.trades[i] == s.trades[i];
    } else if i < |f.trades| {
      assert false;
    }
  }

  /** Main result: every undated record of a run is the refusal of a planned order of its decision day: rejected at its
      planned size for exactly the verdict's rules, or approved on the last day. */
  lemma {:induction false} RefusalsAreTraced(b: Backtest, n: nat, t: TradeRecord) returns (day: nat)
    requires Ran(b, n) && t in After(b, n).trades && t.tradeDate.None?
    ensures day < n && RefusedOn(b, t, day)
  {
    hide Ran, After, RefusedOn;
    if n == 0 {
      NothingAtStart(b);
      assert false;
    } else {
      DayRefuses(b, n - 1, t);
      if t in After(b, n - 1).trades {
        day := RefusalsAreTraced(b, n - 1, t);
      } else {
        day := n - 1;
      }
    }
  }
}
