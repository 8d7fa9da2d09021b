/** What can stop a run on well-formed inputs: a fill whose price slippage or commission refuses, or the
    strategy. No lookup, rounding or average-cost division ever fails. */
module RunCompletes {
  import opened Common
  import opened Domain
  import opened Matching
  import opened Engine
  import opened RunFacts
  import opened OrderFlow
  import opened OrderLog
  import opened LongOnly
  import Rebalance
  import ReconciledRuns

  predicate Covers<T>(m: map<string, seq<T>>, key: string, days: nat) {
    key in m && |m[key]| >= days
  }

  /** What setup provides for each member. */
  predicate Supplied(b: Backtest, m: Member) {
    && m.assetId in b.assets
    && Covers(b.series, m.assetId, b.cfg.days)
    && Covers(b.indicators, m.assetId, b.cfg.days)
    && (b.assets[m.assetId].quoteCurrency != b.cfg.baseCurrency ==>
        Covers(b.fx, b.assets[m.assetId].quoteCurrency, b.cfg.days))
  }

  predicate ValidPrecision(p: Option<Precision>) {
    p.Some? ==> p.value.lotSize > 0.0 && p.value.minQuantity >= 0.0
  }

  ghost predicate WellFormed(b: Backtest) {
    && ExactLongOnly(b)
    && b.cfg.commissionPct >= 0.0 && b.cfg.minCommission >= 0.0 && b.cfg.slippagePct >= 0.0
    && b.cfg.rebalanceThreshold >= 0.0
    && (forall k :: 0 <= k < |b.members| ==> Supplied(b, b.members[k]))
    && (forall id :: id in b.precision ==> ValidPrecision(b.precision[id]))
  }

  predicate IsMember(b: Backtest, id: AssetId) {
    exists k :: 0 <= k < |b.members| && b.members[k].assetId == id
  }

  // ----- Fills -----

  lemma PriceAvailable(b: Backtest, id: AssetId, day: nat, field: Field)
    requires WellFormed(b) && IsMember(b, id) && day < b.cfg.days
    ensures PriceAt(b, id, day, field).Success?
  {
    var k :| 0 <= k < |b.members| && b.members[k].assetId == id;
    assert Supplied(b, b.members[k]);
  }

  /** The price of a fill that slippage accepts: positive. The notional that commission accepts: not negative. */
  predicate Acceptable(price: real, side: Side, slippagePct: real) {
    price > 0.0 && (side.Sell? ==> slippagePct <= 1.0)
  }

  lemma SlippedPrice(num: Decimals, price: real, side: Side, slippagePct: real)
    requires num.Exact() && price > 0.0 && slippagePct >= 0.0
    ensures ApplySlippage(num, price, side, slippagePct).Success?
    ensures ApplySlippage(num, price, side, slippagePct).value >= 0.0 <==> Acceptable(price, side, slippagePct)
  {
    var factor := if side.Buy? then 1.0 + slippagePct else 1.0 - slippagePct;
    assert num.Sub(1.0, slippagePct) == 1.0 - slippagePct;
    assert ApplySlippage(num, price, side, slippagePct).value == price * factor;
    hide ApplySlippage, Decimals.Exact;
    SignOfScaled(price, factor);
  }

  lemma SignOfScaled(x: real, y: real)
    requires x > 0.0
    ensures x * y >= 0.0 <==> y >= 0.0
  {
    if y < 0.0 {
      assert x * -y > 0.0;
    }
  }

  lemma FillArithmetic(num: Decimals, price: real, side: Side, slippagePct: real, quantity: real,
                       commissionPct: real, minCommission: real)
    requires num.Exact() && slippagePct >= 0.0 && quantity > 0.0 && commissionPct >= 0.0 && minCommission >= 0.0
    ensures var slipped := ApplySlippage(num, price, side, slippagePct);
            if slipped.Failure? then slipped.error == ValueError && !Acceptable(price, side, slippagePct)
            else
              var commission := ComputeCommission(num, num.mul(quantity, slipped.value), commissionPct, minCommission);
              && (commission.Success? <==> Acceptable(price, side, slippagePct))
              && (commission.Failure? ==> commission.error == ValueError)
  {
    if price > 0.0 {
      SlippedPrice(num, price, side, slippagePct);
      var slipped := ApplySlippage(num, price, side, slippagePct).value;
      assert num.mul(quantity, slipped) == quantity * slipped;
      SignOfScaled(quantity, slipped);
      hide ApplySlippage, Acceptable, Decimals.Exact;
    }
  }

  /** A sized order that cannot be priced: its opening price is not positive, or it is a sell that slippage takes
      below zero. */
  predicate Refused(b: Backtest, p: PlannedOrder, day: nat) {
    && SizeFill(b, p).Success? && SizeFill(b, p).value.Sized?
    && PriceAt(b, p.assetId, day, Open).Success?
    && !Acceptable(PriceAt(b, p.assetId, day, Open).value.price, p.side, b.cfg.slippagePct)
  }

  predicate NoneRefused(b: Backtest, orders: seq<PlannedOrder>, day: nat) {
    forall p :: p in orders ==> !Refused(b, p, day)
  }

  lemma SizeSucceeds(b: Backtest, p: PlannedOrder)
    requires WellFormed(b) && p.quantity > 0.0
    ensures SizeFill(b, p).Success?
    ensures SizeFill(b, p).value.Sized? ==> 0.0 < SizeFill(b, p).value.quantity <= p.quantity
  {
    if b.cfg.restrictedPrecision && p.assetId in b.precision && b.precision[p.assetId].Some? {
      assert ValidPrecision(b.precision[p.assetId]);
    }
    ExactFits(b);
    SizedAtMostPlanned(b, p);
  }

  /** A fill fails exactly when it is refused. */
  lemma FillSucceedsIff(b: Backtest, s: State, p: PlannedOrder, day: nat)
    requires WellFormed(b) && day < b.cfg.days && IsMember(b, p.assetId)
    requires NoShorts(s.positions) && Covered(s.positions, p)
    requires p.assetId in s.context && p.assetId in s.positions && s.positions.Keys == s.averageCost.Keys
    ensures FillOne(b, s, p, day).Success? <==> !Refused(b, p, day)
    ensures FillOne(b, s, p, day).Failure? ==> FillOne(b, s, p, day).error == ValueError
  {
    PriceAvailable(b, p.assetId, day, Open);
    SizeSucceeds(b, p);
    var price := PriceAt(b, p.assetId, day, Open).value.price;
    if SizeFill(b, p).value.Sized? {
      FillArithmetic(b.cfg.num, price, p.side, b.cfg.slippagePct, SizeFill(b, p).value.quantity, b.cfg.commissionPct,
                     b.cfg.minCommission);
    }
    hide PriceAt, SizeFill, ApplySlippage, ComputeCommission, IsMember, Acceptable;
    var f := SimulateFill(b, p, price, b.cfg.startDate + day, s.seqNo + 1, s.context[p.assetId]);
    assert f.Success? <==> !Refused(b, p, day);
    if f.Success? && f.value.record.status.Filled? && p.side.Buy? {
      assert b.cfg.num.add(s.positions[p.assetId], f.value.positionDelta) > 0.0;
    }
  }

  predicate Fillable(b: Backtest, s: State) {
    forall p :: p in s.pending ==> IsMember(b, p.assetId) && p.assetId in s.context && p.assetId in s.positions
  }

  lemma {:induction false} FillsSucceedIff(b: Backtest, s: State, day: nat, n: nat)
    requires WellFormed(b) && day < b.cfg.days && n <= |s.pending|
    requires Long(s) && Fillable(b, s) && s.positions.Keys == s.averageCost.Keys
    ensures FillUpTo(b, s, day, n).Success? <==> NoneRefused(b, s.pending[..n], day)
    ensures FillUpTo(b, s, day, n).Failure? ==> FillUpTo(b, s, day, n).error == ValueError
  {
    hide FillOne, WellFormed, IsMember, Refused, FillsFit, LongOnlySetup;
    if n > 0 {
      FillsSucceedIff(b, s, day, n - 1);
      assert s.pending[..n] == s.pending[..n - 1] + [s.pending[n - 1]];
      if FillUpTo(b, s, day, n - 1).Success? {
        WellFormedIsExact(b);
        FillUpToLong(b, s, day, n - 1);
        FillUpToEffect(b, s, day, n - 1);
        ReconciledRuns.FillKeys(b, s, day, n - 1);
        var before, p := FillUpTo(b, s, day, n - 1).value, s.pending[n - 1];
        assert p in s.pending;
        assert Covered(before.positions, p);
        FillSucceedsIff(b, before, p, day);
      }
    }
  }

  lemma WellFormedIsExact(b: Backtest)
    requires WellFormed(b)
    ensures b.cfg.num.Exact() && LongOnlySetup(b) && FillsFit(b) && DistinctMembers(b.members)
  {
    ExactIsLongOnly(b);
  }

  // ----- Decisions succeed up to the strategy -----

  lemma {:induction false} ValuationSucceeds(b: Backtest, positions: map<AssetId, real>, day: nat, n: nat)
    requires WellFormed(b) && day < b.cfg.days && n <= |b.members| && positions.Keys == ZeroPerMember(b.members).Keys
    ensures ValueUpTo(b, positions, day, n).Success?
  {
    if n > 0 {
      ValuationSucceeds(b, positions, day, n - 1);
      var id := b.members[n - 1].assetId;
      assert IsMember(b, id);
      PriceAvailable(b, id, day, Close);
      assert Supplied(b, b.members[n - 1]);
      hide PriceAt, IsMember;
    }
  }

  lemma {:induction false} AnalysisSucceeds(b: Backtest, v: Valuation, day: nat, n: nat)
    requires WellFormed(b) && day < b.cfg.days && n <= |b.members|
    requires forall k :: 0 <= k < |b.members| ==> b.members[k].assetId in v.prices
    ensures AnalysisUpTo(b, v, day, n).Success?
  {
    if n > 0 {
      AnalysisSucceeds(b, v, day, n - 1);
      assert Supplied(b, b.members[n - 1]);
    }
  }

  lemma {:induction false} TradableSucceeds(b: Backtest, n: nat)
    requires WellFormed(b) && n <= |b.members|
    ensures TradableUpTo(b, n).Success?
  {
    if n > 0 {
      TradableSucceeds(b, n - 1);
      assert Supplied(b, b.members[n - 1]);
    }
  }

  lemma PlanSucceeds(b: Backtest, s: State, v: Valuation, nav: real, weights: Items<real>)
    requires WellFormed(b) && forall k :: 0 <= k < |b.members| ==> b.members[k].assetId in v.prices
    ensures PlanOrders(b, s, v, nav, weights).Success?
  {
    TradableSucceeds(b, |b.members|);
    TradableFacts(b, |b.members|);
  }

  /** What the strategy is shown on a day, before it answers. */
  lemma StrategyInput(b: Backtest, s: State, day: nat) returns (a: Analysis, p: PortfolioState)
    requires WellFormed(b) && day < b.cfg.days && s.positions.Keys == ZeroPerMember(b.members).Keys
    ensures ValueUpTo(b, s.positions, day, |b.members|).Success?
    ensures var v := ValueUpTo(b, s.positions, day, |b.members|).value;
            && AnalysisUpTo(b, v, day, |b.members|).Success?
            && a == AnalysisOn(b, v, day)
            && p == PortfolioAt(b, s, SnapshotAt(b, s, v, day))
    ensures Decide(b, s, day).Success? <==> b.strategy(a, p).Success?
    ensures Decide(b, s, day).Failure? ==> Decide(b, s, day).error == b.strategy(a, p).error
  {
    ValuationSucceeds(b, s.positions, day, |b.members|);
    var v := ValueUpTo(b, s.positions, day, |b.members|).value;
    ReconciledRuns.ValuationPrices(b, s.positions, day, |b.members|);
    AnalysisSucceeds(b, v, day, |b.members|);
    a, p := AnalysisOn(b, v, day), PortfolioAt(b, s, SnapshotAt(b, s, v, day));
    hide ValueUpTo, AnalysisUpTo, PlanOrders, WellFormed;
    var output := b.strategy(a, p);
    if output.Success? {
      PlanSucceeds(b, s, v, p.snapshot.nav, output.value.targetWeights);
    }
  }

  // ----- Runs -----

  /** A sound queue of orders on members can be looked up everywhere. */
  lemma SoundQueueFillable(b: Backtest, d: Decision, day: nat, s: State)
    requires SoundQueue(b, d, day, s) && s.positions.Keys == ZeroPerMember(b.members).Keys
    requires forall o :: o in d.orders ==> IsMember(b, o.assetId)
    ensures Fillable(b, s)
  {
    hide Authorized, IsMember;
    forall p | p in s.pending
      ensures IsMember(b, p.assetId) && p.assetId in s.positions && p.assetId in s.context
    {
      AuthorizedOnMember(b, d, p);
      MemberHasPosition(b, p.assetId);
    }
  }

  lemma DayQueueFillable(b: Backtest, n: nat)
    requires WellFormed(b) && Ran(b, n + 1)
    ensures Fillable(b, After(b, n + 1))
  {
    WellFormedIsExact(b);
    hide Decide, WellFormed, LongOnlySetup, IsMember, Ran, After, FilledAt, SoundQueue, Fillable;
    DayDecision(b, n);
    QueueIsSound(b, n);
    ReconciledRuns.PositionKeys(b, n + 1);
    forall o | o in DecisionOn(b, n).orders
      ensures IsMember(b, o.assetId)
    {
      OrderOnMember(b, FilledAt(b, n), n, o);
    }
    hide DecisionOn;
    SoundQueueFillable(b, DecisionOn(b, n), n, After(b, n + 1));
  }

  lemma AuthorizedOnMember(b: Backtest, d: Decision, p: PlannedOrder)
    requires Authorized(b, d, p) && forall o :: o in d.orders ==> IsMember(b, o.assetId)
    ensures IsMember(b, p.assetId)
  {
    hide Approves, IsMember, Review;
    var i :| 0 <= i < |d.orders| && ReviewedAs(b, d, d.orders[i], p);
    assert d.orders[i] in d.orders;
  }

  lemma MemberHasPosition(b: Backtest, id: AssetId)
    requires IsMember(b, id)
    ensures id in ZeroPerMember(b.members)
  {
  }

  /** Queued orders are on members, and can be looked up everywhere. */
  lemma QueueFillable(b: Backtest, n: nat)
    requires WellFormed(b) && Ran(b, n)
    ensures Fillable(b, After(b, n))
  {
    if n > 0 {
      DayQueueFillable(b, n - 1);
    }
  }

  lemma OrderOnMember(b: Backtest, s: State, day: nat, o: PlannedOrder)
    requires DistinctMembers(b.members) && Decide(b, s, day).Success? && o in Decide(b, s, day).value.orders
    ensures IsMember(b, o.assetId)
  {
    DecisionParts(b, s, day);
    TradableFacts(b, |b.members|);
    var d := Decide(b, s, day).value;
    hide Decide;
    var r := RebalanceRequest(b, s, d.valuation, d.portfolio.snapshot.nav, d.output.targetWeights,
                              TradableUpTo(b, |b.members|).value);
    Rebalance.OrdersUpToComplete(b.cfg.num, r, |r.tradable|, o);
    var i :| 0 <= i < |r.tradable| && Rebalance.OrderFor(b.cfg.num, r, r.tradable[i].0, r.tradable[i].1) == Some(o);
    assert b.members[i].assetId == o.assetId;
  }

  /** Main result: on well-formed inputs the fills of a day succeed exactly when none of the queued orders is refused;
      then the day completes exactly when the strategy answers, and otherwise stops with the strategy's own error. */
  lemma WhatStopsARun(b: Backtest, n: nat)
    requires WellFormed(b) && Ran(b, n) && n < b.cfg.days
    ensures ApplyPending(b, After(b, n), n).Success? <==> NoneRefused(b, After(b, n).pending, n)
    ensures !NoneRefused(b, After(b, n).pending, n) ==> RunTo(b, n + 1) == Failure(ValueError)
    ensures NoneRefused(b, After(b, n).pending, n) ==>
              var f := ApplyPending(b, After(b, n), n).value;
              && ValueUpTo(b, f.positions, n, |b.members|).Success?
              && var v := ValueUpTo(b, f.positions, n, |b.members|).value;
                 && AnalysisUpTo(b, v, n, |b.members|).Success?
                 && var answer := b.strategy(AnalysisOn(b, v, n), PortfolioAt(b, f, SnapshotAt(b, f, v, n)));
                    && (Ran(b, n + 1) <==> answer.Success?)
                    && (answer.Failure? ==> RunTo(b, n + 1) == Failure(answer.error))
  {
    hide Decide, FillUpTo, ReviewUpTo, WellFormed, ValueUpTo, AnalysisUpTo, LongOnlySetup, Long, Fillable, Refused;
    QueueFillable(b, n);
    WellFormedIsExact(b);
    NeverShort(b, n);
    ReconciledRuns.PositionKeys(b, n);
    var s := After(b, n);
    assert s.pending[..|s.pending|] == s.pending;
    FillsSucceedIff(b, s, n, |s.pending|);
    assert RunTo(b, n + 1) == DayStep(b, s, n);
    if NoneRefused(b, s.pending, n) {
      ReconciledRuns.FillKeys(b, s, n, |s.pending|);
      var a, p := StrategyInput(b, ApplyPending(b, s, n).value, n);
    }
  }

  /** With strictly positive prices and rates, and slippage of at most 1, no order is ever refused. */
  lemma PositiveMarketRefusesNothing(b: Backtest, orders: seq<PlannedOrder>, day: nat)
    requires b.cfg.num.Exact() && ReconciledRuns.PositiveMarket(b) && b.cfg.slippagePct <= 1.0
    ensures NoneRefused(b, orders, day)
  {
    forall p | p in orders && PriceAt(b, p.assetId, day, Open).Success?
      ensures PriceAt(b, p.assetId, day, Open).value.price > 0.0
    {
      PricePositive(b, p.assetId, day, Open);
    }
    hide SizeFill, PriceAt;
  }

  lemma PricePositive(b: Backtest, id: AssetId, day: nat, field: Field)
    requires b.cfg.num.Exact() && ReconciledRuns.PositiveMarket(b) && PriceAt(b, id, day, field).Success?
    ensures PriceAt(b, id, day, field).value.price > 0.0
  {
    var bar := At(b.series, id, day).value;
    assert bar == b.series[id][day];
    var native := PriceOf(bar, field);
    if PriceAt(b, id, day, field).value.fxRate.Some? {
      var currency := b.assets[id].quoteCurrency;
      assert At(b.fx, currency, day).value == b.fx[currency][day];
      PositiveProduct(native, PriceOf(b.fx[currency][day], field));
    }
  }
}
