/** What the rule-based gate guarantees of a run's queue, on the run's own account and closes. */
module GatedRuns {
  import opened Common
  import opened Domain
  import opened Engine
  import opened RunFacts
  import opened OrderFlow
  import opened FillTerms
  import opened DecisionTerms
  import opened RiskLimits
  import RiskPolicy

  /** The planned order behind a queued one. */
  lemma QueuedFromPlan(b: Backtest, d: Decision, day: nat, s: State, p: PlannedOrder) returns (planned: PlannedOrder)
    requires SoundQueue(b, d, day, s) && p in s.pending
    ensures planned in d.orders && p == planned.(quantity := p.quantity) && Approves(b, d.portfolio, p, p.quantity)
  {
    hide Approves, Review;
    assert Authorized(b, d, p);
    var i :| 0 <= i < |d.orders| && ReviewedAs(b, d, d.orders[i], p);
    planned := d.orders[i];
  }

  lemma GateApproves(b: Backtest, r: RiskPolicy.Policy, portfolio: PortfolioState, p: PlannedOrder)
    requires GatedBy(b, r) && Approves(b, portfolio, p, p.quantity)
    ensures RiskPolicy.CheckOrder(r, OrderIntent(p.assetId, p.side, p.quantity, p.estimatedPrice), portfolio).approved
  {
    hide RiskPolicy.CheckOrder;
  }

  lemma PricedAtClose(b: Backtest, f: State, day: nat, o: PlannedOrder)
    requires b.cfg.num.Exact() && DistinctMembers(b.members) && Decide(b, f, day).Success?
    requires o in Decide(b, f, day).value.orders
    ensures HasBars(b, o.assetId, day) && o.estimatedPrice == ClosingPrice(b, o.assetId, day)
  {
    OrdersCloseGaps(b, f, day, o);
    hide Decide, HasBars, ClosingPrice;
    var d := Decide(b, f, day).value;
    var k :| 0 <= k < |b.members| && ClosesGap(b, f, d, day, b.members[k].assetId, o);
  }

  /** Main result: in an exact run behind the rule-based gate, every queued buy was within the limits of the account
      it was decided on, at the asset's close of that day: a non-restricted member, its cap, the cash floor, the risk
      budget, the number of positions and the stop line. */
  lemma QueuedBuysWithinLimits(b: Backtest, r: RiskPolicy.Policy, n: nat, p: PlannedOrder)
    requires b.cfg.num.Exact() && r.num.Exact() && GatedBy(b, r) && DistinctMembers(b.members) && Ran(b, n + 1)
    requires p in After(b, n + 1).pending && p.side.Buy?
    ensures HasBars(b, p.assetId, n) && p.quantity > 0.0 && ClosingPrice(b, p.assetId, n) > 0.0
    ensures var account, price := DecisionOn(b, n).portfolio, ClosingPrice(b, p.assetId, n);
            && account.snapshot.nav > 0.0 && account.snapshot.cashValue == FilledAt(b, n).cash
            && WithinLimits(r, OrderIntent(p.assetId, Buy, p.quantity, price), account)
            && FilledAt(b, n).cash - p.quantity * price >= r.minCashWeight * account.snapshot.nav
  {
    hide Ran, After, FilledAt, DecisionOn, Decide, SoundQueue, GatedBy, HasBars, ClosingPrice, RiskPolicy.CheckOrder;
    DayDecision(b, n);
    QueueIsSound(b, n);
    var d := DecisionOn(b, n);
    var planned := QueuedFromPlan(b, d, n, After(b, n + 1), p);
    PricedAtClose(b, FilledAt(b, n), n, planned);
    GateApproves(b, r, d.portfolio, p);
    hide Approves;
    BuyApprovedExactly(r, OrderIntent(p.assetId, Buy, p.quantity, p.estimatedPrice), d.portfolio);
    NavIsWorth(b, n);
    hide CapFits, RiskFits, Stopped, OthersFit, IsMember;
  }
}
