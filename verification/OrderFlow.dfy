/** The way of an order through the day loop: sized by halving, logged exactly once, filled
    only as approved. */
module OrderFlow {
  import opened Common
  import opened Domain
  import opened Engine
  import opened RunFacts
  import RiskPolicy

  // ----- Halving -----

  function Pow2(k: nat): real {
    if k == 0 then 1.0 else 2.0 * Pow2(k - 1)
  }

  predicate Approves(b: Backtest, portfolio: PortfolioState, p: PlannedOrder, quantity: real) {
    b.risk(IntentOf(p, quantity), portfolio).approved
  }

  /** Whatever size is approved, every smaller one is. */
  ghost predicate DownwardClosed(b: Backtest, portfolio: PortfolioState, p: PlannedOrder) {
    forall small, big :: 0.0 < small <= big && Approves(b, portfolio, p, big) ==> Approves(b, portfolio, p, small)
  }

  lemma {:induction false} ShrinkIsTwoOptimal(b: Backtest, portfolio: PortfolioState, p: PlannedOrder,
                                              quantity: real, attempts: nat)
    returns (k: nat)
    requires b.cfg.num.Exact() && quantity > 0.0 && DownwardClosed(b, portfolio, p)
    ensures var (verdict, size) :=
            Shrink(b, portfolio, p, quantity, b.risk(IntentOf(p, quantity), portfolio), attempts);
            && k <= attempts && size > 0.0 && size * Pow2(k) == quantity
            && verdict == b.risk(IntentOf(p, size), portfolio)
            && (verdict.approved && k > 0 ==> forall s :: s >= 2.0 * size ==> !Approves(b, portfolio, p, s))
            && (!verdict.approved ==> k == attempts && forall s :: s >= size ==> !Approves(b, portfolio, p, s))
    decreases attempts
  {
    if attempts == 0 || Approves(b, portfolio, p, quantity) {
      k := 0;
      if !Approves(b, portfolio, p, quantity) {
        forall s | s >= quantity
          ensures !Approves(b, portfolio, p, s)
        {
          assert 0.0 < quantity <= s;
        }
      }
    } else {
      var half := b.cfg.num.div(quantity, 2.0);
      assert half == quantity / 2.0;
      var j := ShrinkIsTwoOptimal(b, portfolio, p, half, attempts - 1);
      k := j + 1;
      var (verdict, size) := Shrink(b, portfolio, p, half, b.risk(IntentOf(p, half), portfolio), attempts - 1);
      assert size * Pow2(k) == 2.0 * (size * Pow2(j));
    }
  }

  /** For a downward-closed policy, a buy approved after shrinking could not have been twice as
      large, and a buy given up on is refused at every size from 1/256 of the plan upwards. */
  lemma HalvingIsTwoOptimal(b: Backtest, portfolio: PortfolioState, p: PlannedOrder) returns (k: nat)
    requires b.cfg.num.Exact() && p.side.Buy? && p.quantity > 0.0 && DownwardClosed(b, portfolio, p)
    ensures var (verdict, size) := Review(b, portfolio, p);
            && k <= 8 && size > 0.0 && size * Pow2(k) == p.quantity
            && verdict == b.risk(IntentOf(p, size), portfolio)
            && (verdict.approved && k > 0 ==> forall s :: s >= 2.0 * size ==> !Approves(b, portfolio, p, s))
            && (!verdict.approved ==> k == 8 && forall s :: s >= size ==> !Approves(b, portfolio, p, s))
  {
    hide Shrink, DownwardClosed, Decimals.Exact;
    if Approves(b, portfolio, p, p.quantity) {
      k := 0;
      assert p.quantity * Pow2(0) == p.quantity;
    } else {
      k := ShrinkIsTwoOptimal(b, portfolio, p, p.quantity, SHRINK_ATTEMPTS);
      hide Pow2;
    }
  }

  /** The concrete policy as the engine's gate. */
  ghost predicate GatedBy(b: Backtest, r: RiskPolicy.Policy) {
    r.Valid() && forall i, p :: b.risk(i, p) == RiskPolicy.CheckOrder(r, i, p)
  }

  lemma PolicyIsDownwardClosed(b: Backtest, r: RiskPolicy.Policy, portfolio: PortfolioState, p: PlannedOrder)
    requires GatedBy(b, r) && r.num.Exact() && p.side.Buy?
    ensures DownwardClosed(b, portfolio, p)
  {
    hide RiskPolicy.CheckOrder;
    forall small, big | 0.0 < small <= big && Approves(b, portfolio, p, big)
      ensures Approves(b, portfolio, p, small)
    {
      RiskPolicy.BuyApprovalDownwardClosed(r, IntentOf(p, big), portfolio, small);
    }
  }

  /** Any approved verdict of a review is the policy's own verdict on the reviewed size. */
  lemma {:induction false} ShrinkVerdict(b: Backtest, portfolio: PortfolioState, p: PlannedOrder, quantity: real,
                                         result: RiskCheckResult, attempts: nat)
    requires result == b.risk(IntentOf(p, quantity), portfolio)
    ensures var (verdict, size) := Shrink(b, portfolio, p, quantity, result, attempts);
            verdict == b.risk(IntentOf(p, size), portfolio)
    decreases attempts
  {
    if attempts > 0 && !result.approved {
      var candidate := b.cfg.num.div(quantity, 2.0);
      if candidate > 0.0 {
        ShrinkVerdict(b, portfolio, p, candidate, b.risk(IntentOf(p, candidate), portfolio), attempts - 1);
      }
    }
  }

  lemma ReviewVerdict(b: Backtest, portfolio: PortfolioState, p: PlannedOrder)
    ensures var (verdict, size) := Review(b, portfolio, p);
            && verdict == b.risk(IntentOf(p, size), portfolio)
            && (p.side.Sell? ==> size == p.quantity)
  {
    ShrinkVerdict(b, portfolio, p, p.quantity, b.risk(IntentOf(p, p.quantity), portfolio), SHRINK_ATTEMPTS);
  }

  // ----- Queue -----

  /** A queued order is a planned one, possibly smaller, at a size the policy approved. */
  ghost predicate Authorized(b: Backtest, d: Decision, p: PlannedOrder) {
    && Approves(b, d.portfolio, p, p.quantity)
    && exists i :: 0 <= i < |d.orders| && ReviewedAs(b, d, d.orders[i], p)
  }

  predicate ReviewedAs(b: Backtest, d: Decision, planned: PlannedOrder, p: PlannedOrder) {
    p == planned.(quantity := Review(b, d.portfolio, planned).1)
  }

  /** The strategy's score of the asset, if it gave one. */
  predicate IsScore(score: Option<real>, d: Decision, id: AssetId) {
    if id in d.output.scores then score == Some(d.output.scores[id]) else score == None
  }

  /** The queue of a day: authorized orders only, each with the date and score of its decision. */
  ghost predicate SoundQueue(b: Backtest, d: Decision, day: nat, s: State) {
    forall p :: p in s.pending ==>
      && Authorized(b, d, p)
      && p.assetId in s.context && s.context[p.assetId].decisionDate == b.cfg.startDate + day
      && IsScore(s.context[p.assetId].score, d, p.assetId)
  }

  lemma {:induction false} ReviewQueues(b: Backtest, s: State, d: Decision, day: nat, n: nat)
    requires n <= |d.orders| && s.pending == []
    ensures SoundQueue(b, d, day, ReviewUpTo(b, s, d, day, n))
    ensures day + 1 == b.cfg.days ==> ReviewUpTo(b, s, d, day, n).pending == []
  {
    hide ReviewOne, SoundQueue;
    if n > 0 {
      ReviewQueues(b, s, d, day, n - 1);
      ReviewOneSound(b, ReviewUpTo(b, s, d, day, n - 1), d, day, n - 1);
    } else {
      EmptyIsSound(b, s, d, day);
    }
  }

  lemma EmptyIsSound(b: Backtest, s: State, d: Decision, day: nat)
    requires s.pending == []
    ensures SoundQueue(b, d, day, s)
  {
  }

  lemma ReviewOneSound(b: Backtest, s: State, d: Decision, day: nat, i: nat)
    requires i < |d.orders| && SoundQueue(b, d, day, s)
    ensures SoundQueue(b, d, day, ReviewOne(b, s, d, d.orders[i], day))
    ensures day + 1 == b.cfg.days ==> ReviewOne(b, s, d, d.orders[i], day).pending == s.pending
  {
    var planned := d.orders[i];
    ReviewVerdict(b, d.portfolio, planned);
    hide Review;
    var (verdict, size) := Review(b, d.portfolio, planned);
    var queued := planned.(quantity := size);
    assert ReviewedAs(b, d, planned, queued);
    assert IntentOf(planned, size) == IntentOf(queued, size);
    if verdict.approved {
      assert Authorized(b, d, queued);
    }
    hide Authorized;
  }

  /** Every queue between two days is sound; the last day queues nothing. */
  lemma QueueIsSound(b: Backtest, n: nat)
    requires Ran(b, n + 1)
    ensures SoundQueue(b, DecisionOn(b, n), n, After(b, n + 1))
    ensures n + 1 == b.cfg.days ==> After(b, n + 1).pending == []
  {
    DayParts(b, n);
    ReviewQueues(b, RecordedAt(b, n), DecisionOn(b, n), n, |DecisionOn(b, n).orders|);
  }

  // ----- Nothing is bypassed -----

  /** An execution of an order that was authorized on day `day` at the planned quantity, one day later. */
  ghost predicate FillOf(b: Backtest, d: Decision, day: nat, t: TradeRecord) {
    && t.decisionDate == b.cfg.startDate + day
    && t.tradeDate == Some(b.cfg.startDate + day + 1) && IsScore(t.signalScore, d, t.assetId)
    && exists p: PlannedOrder ::
         p.assetId == t.assetId && p.side == t.side && p.quantity == t.plannedQuantity && Authorized(b, d, p)
  }

  /** The record traces back to the decision of day `day`. */
  ghost predicate Traced(b: Backtest, t: TradeRecord, day: nat) {
    Ran(b, day + 1) && FillOf(b, DecisionOn(b, day), day, t)
  }

  lemma TraceOne(b: Backtest, s: State, p: PlannedOrder, day: nat, d: Decision, before: State, t: TradeRecord)
    requires SoundQueue(b, d, day, s) && p in s.pending && before.context == s.context
    requires LogsFill(b, before, p, day + 1, t)
    ensures FillOf(b, d, day, t)
  {
  }

  lemma {:induction false} FillsTraceable(b: Backtest, s: State, day: nat, n: nat, d: Decision)
    requires n <= |s.pending| && FillUpTo(b, s, day + 1, n).Success? && SoundQueue(b, d, day, s)
    ensures var s' := FillUpTo(b, s, day + 1, n).value;
            && s.trades <= s'.trades
            && forall t :: t in s'.trades[|s.trades|..] ==> FillOf(b, d, day, t)
  {
    hide FillOne, LogsFill, FillOf, SoundQueue;
    if n > 0 {
      FillsTraceable(b, s, day, n - 1, d);
      var before := FillUpTo(b, s, day + 1, n - 1).value;
      FillUpToEffect(b, s, day + 1, n - 1);
      FillOneEffect(b, before, s.pending[n - 1], day + 1);
      var s' := FillUpTo(b, s, day + 1, n).value;
      TraceOne(b, s, s.pending[n - 1], day, d, before, s'.trades[|s'.trades| - 1]);
      assert s'.trades[|s.trades|..] == before.trades[|s.trades|..] + [s'.trades[|s'.trades| - 1]];
    }
  }

  lemma NothingAtStart(b: Backtest)
    ensures Ran(b, 0) && After(b, 0).trades == [] && After(b, 0).pending == []
  {
  }

  lemma FirstQueueEmpty(b: Backtest)
    requires Ran(b, 1)
    ensures Ran(b, 0) && After(b, 0).trades == FilledAt(b, 0).trades == []
  {
  }

  lemma NewFillTraced(b: Backtest, n: nat, t: TradeRecord)
    requires n > 0 && Ran(b, n + 1) && Ran(b, n)
    requires After(b, n).trades <= FilledAt(b, n).trades && t in FilledAt(b, n).trades[|After(b, n).trades|..]
    ensures Traced(b, t, n - 1)
  {
    hide RunTo, DayStep, Decide, SoundQueue, FillOf, ReviewUpTo, FillUpTo, Record;
    DayParts(b, n);
    QueueIsSound(b, n - 1);
    FillsTraceable(b, After(b, n), n - 1, |After(b, n).pending|, DecisionOn(b, n - 1));
  }

  lemma RefusalUndated(b: Backtest, n: nat, t: TradeRecord)
    requires LogsRefusal(b, n, t)
    ensures t.tradeDate.None?
  {
  }

  /** What day n executes was authorized on day n - 1; on the first day nothing is. */
  lemma DayIsTraced(b: Backtest, n: nat, t: TradeRecord)
    requires Ran(b, n + 1) && t in After(b, n + 1).trades && t.tradeDate.Some?
    ensures Ran(b, n) && (t in After(b, n).trades || (n > 0 && Traced(b, t, n - 1)))
  {
    hide *;
    DayEffect(b, n);
    var before, filled, after := After(b, n).trades, FilledAt(b, n).trades, After(b, n + 1).trades;
    var i :| 0 <= i < |after| && after[i] == t;
    if i >= |filled| {
      RefusalUndated(b, n, after[i]);
      assert false;
    }
    if |before| <= i {
      assert filled[i] == t;
      assert filled[|before|..][i - |before|] == t;
      if n == 0 {
        FirstQueueEmpty(b);
      } else {
        NewFillTraced(b, n, t);
      }
    }
  }

  /** Every executed record of a run was decided exactly one day earlier and traces to an approval
      of the quantity it planned. */
  lemma {:induction false} FillsAreTraced(b: Backtest, n: nat, t: TradeRecord) returns (day: nat)
    requires Ran(b, n) && t in After(b, n).trades && t.tradeDate.Some?
    ensures day + 1 < n && Traced(b, t, day)
  {
    hide *;
    NothingAtStart(b);
    assert n > 0;
    DayIsTraced(b, n - 1, t);
    if t in After(b, n - 1).trades {
      day := FillsAreTraced(b, n - 1, t);
    } else {
      day := n - 2;
    }
  }
}
