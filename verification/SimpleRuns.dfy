/** Runs driven by the rule-based strategy and gated by the rule-based risk policy. */
module SimpleRuns {
  import opened Common
  import opened Domain
  import opened Engine
  import opened RunFacts
  import opened OrderFlow
  import opened LongOnly
  import opened RunCompletes
  import opened TargetWeights
  import S = Strategy
  import Rebalance
  import Reconciliation
  import ReconciledRuns
  import RiskPolicy

  /** The engine runs the rule-based strategy. */
  ghost predicate RunsSimpleStrategy(b: Backtest) {
    forall a, p :: b.strategy(a, p) == S.GenerateTargets(b.cfg.num, a, p)
  }

  predicate NoCashAmongMembers(b: Backtest) {
    forall k :: 0 <= k < |b.members| ==> b.members[k].assetId != S.CashId(b.cfg.baseCurrency)
  }

  ghost predicate SimpleSetup(b: Backtest) {
    && RunsSimpleStrategy(b) && b.cfg.num.Exact()
    && DistinctMembers(b.members) && CapsAreFractions(b.members) && NoCashAmongMembers(b)
  }

  /** The rule-based strategy is long-only, whatever the market. */
  lemma SimpleStrategyIsLongOnly(b: Backtest)
    requires SimpleSetup(b)
    ensures ExactLongOnly(b) && LongOnlySetup(b)
  {
    forall a: Analysis, p: PortfolioState, id: AssetId |
      && p.members == b.members && p.baseCurrency == b.cfg.baseCurrency
      && p.snapshot.nav > 0.0 && NothingShort(p)
      && b.strategy(a, p).Success? && id in a.assets && a.assets[id].close > 0.0
      ensures ItemOr(b.strategy(a, p).value.targetWeights, id, 0.0) >= 0.0
    {
      hide S.GenerateTargets;
      TargetNonNegative(b.cfg.num, a, p, id);
    }
    ExactIsLongOnly(b);
  }

  // ----- Reconciliation -----

  /** The bounds half of check 7. */
  predicate InBounds(weights: Items<real>) {
    forall i :: 0 <= i < |weights| ==> Reconciliation.WeightInBounds(weights[i].1)
  }

  /** Nothing of day i is reported but, possibly, a weight out of bounds. */
  ghost predicate SoundButBounds(b: Backtest, r: BacktestResult, i: nat) {
    && Ran(b, i + 1) && i < |r.dailyDetail|
    && ReconciledRuns.HeldHaveValue(b.cfg.num, FilledAt(b, i).positions, DecisionOn(b, i).valuation.prices)
    && ReconciledRuns.RatesPositive(r.dailyDetail[i].fxRates)
  }

  /** The strategy checks its own sum, with the operations of the reconciler: whatever is rounded, it is 1. */
  lemma SimpleDaySums(b: Backtest, i: nat)
    requires RunsSimpleStrategy(b) && Ran(b, i + 1)
    ensures var w := DetailOf(b, FilledAt(b, i), DecisionOn(b, i)).targetWeights;
            SumItems(b.cfg.num, w) == 1.0 && (Reconciliation.WeightsSound(b.cfg.num, w) <==> w == [] || InBounds(w))
  {
    hide Ran, After, FilledAt, DecisionOn;
    DayDecision(b, i);
    DecisionParts(b, FilledAt(b, i), i);
    hide Decide, S.CurrentWeights, S.DesiredUpTo;
  }

  /** For any arithmetic: a completed run of the rule-based strategy passes exactly when on every day the weights lie
      in [0, 1], no held position is worth zero at the close, and every recorded FX rate is positive. */
  lemma SimpleRunsVerdict(b: Backtest, r: BacktestResult)
    requires RunsSimpleStrategy(b) && DistinctMembers(b.members) && Run(b) == Success(r)
    ensures (forall x :: !Reconciliation.IsDiscrepancy(b.cfg.num, r, x)) <==>
            (forall i :: 0 <= i < b.cfg.days ==> SoundButBounds(b, r, i) && InBounds(r.dailyDetail[i].targetWeights))
  {
    hide Run, Ran, After, FilledAt, DecisionOn, RunsSimpleStrategy, DistinctMembers, Reconciliation.IsDiscrepancy,
         Reconciliation.WeightsSound, ReconciledRuns.HeldHaveValue, ReconciledRuns.RatesPositive;
    RunIsAfter(b, r);
    ReconciledRuns.SnapshotsInOrder(b, r);
    ReconciledRuns.ReconciliationVerdict(b, r);
    forall i | 0 <= i < b.cfg.days
      ensures ReconciledRuns.SoundOn(b, r, i) <==> SoundButBounds(b, r, i) && InBounds(r.dailyDetail[i].targetWeights)
    {
      DayInRun(b, i, b.cfg.days);
      SimpleDaySums(b, i);
    }
  }

  predicate NoNegativeBars(bars: seq<AlignedBar>) {
    forall i :: 0 <= i < |bars| ==> bars[i].close >= 0.0
  }

  /** What the service guarantees of stored bars: no close is negative. */
  ghost predicate NoNegativeMarket(b: Backtest) {
    && (forall id :: id in b.series ==> NoNegativeBars(b.series[id]))
    && (forall c :: c in b.fx ==> NoNegativeBars(b.fx[c]))
  }

  lemma CloseNotNegative(b: Backtest, id: AssetId, day: nat)
    requires b.cfg.num.Exact() && NoNegativeMarket(b) && PriceAt(b, id, day, Close).Success?
    ensures PriceAt(b, id, day, Close).value.price >= 0.0
  {
    var bar := At(b.series, id, day).value;
    assert bar == b.series[id][day];
    if PriceAt(b, id, day, Close).value.fxRate.Some? {
      var currency := b.assets[id].quoteCurrency;
      assert At(b.fx, currency, day).value == b.fx[currency][day];
      NonNegativeProduct(bar.close, b.fx[currency][day].close);
    }
  }

  lemma NonNegativeProduct(x: real, y: real)
    requires x >= 0.0 && y >= 0.0
    ensures x * y >= 0.0
  {
  }

  lemma SimpleDayInBounds(b: Backtest, i: nat)
    requires SimpleSetup(b) && NoNegativeMarket(b) && Ran(b, i + 1) && DecisionOn(b, i).portfolio.snapshot.nav > 0.0
    ensures InBounds(DetailOf(b, FilledAt(b, i), DecisionOn(b, i)).targetWeights)
  {
    hide Ran, After, FilledAt, DecisionOn, LongOnlySetup, Decide, NoShorts, S.GenerateTargets, ValueUpTo,
         AnalysisUpTo, PlanOrders, TradableUpTo;
    SimpleStrategyIsLongOnly(b);
    NeverShort(b, i + 1);
    DayDecision(b, i);
    var f, d := FilledAt(b, i), DecisionOn(b, i);
    DecisionParts(b, f, i);
    DecisionIsLong(b, f, i);
    AnalysisCloses(b, d.valuation, i, |b.members|);
    ReconciledRuns.ValuationPrices(b, f.positions, i, |b.members|);
    var a := AnalysisOn(b, d.valuation, i);
    forall id | id in a.assets
      ensures a.assets[id].close >= 0.0
    {
      var k :| 0 <= k < |b.members| && b.members[k].assetId == id;
      CloseNotNegative(b, id, i);
    }
    hide PriceAt;
    GeneratedWeightsSound(b.cfg.num, a, d.portfolio);
  }

  /** Main result: a completed exact run of the rule-based strategy with positive NAV every day, on bars without
      negative closes, passes exactly when every held position has a nonzero value and every recorded FX rate is
      positive, under any risk policy. */
  lemma SimpleRunsReconcile(b: Backtest, r: BacktestResult)
    requires SimpleSetup(b) && NoNegativeMarket(b) && Run(b) == Success(r)
    requires forall i :: 0 <= i < |r.equityCurve| ==> r.equityCurve[i].nav > 0.0
    ensures (forall x :: !Reconciliation.IsDiscrepancy(b.cfg.num, r, x)) <==>
              (forall i :: 0 <= i < b.cfg.days ==> SoundButBounds(b, r, i))
  {
    hide Run, Ran, After, FilledAt, DecisionOn, Reconciliation.IsDiscrepancy, SoundButBounds, InBounds,
         NoNegativeMarket, RunsSimpleStrategy;
    RunIsAfter(b, r);
    ReconciledRuns.SnapshotsInOrder(b, r);
    SimpleRunsVerdict(b, r);
    forall i | 0 <= i < b.cfg.days
      ensures InBounds(r.dailyDetail[i].targetWeights)
    {
      DayInRun(b, i, b.cfg.days);
      SimpleDayInBounds(b, i);
    }
  }

  // ----- Members that must not be bought -----

  predicate Unbuyable(b: Backtest, k: nat, a: Analysis)
    requires k < |b.members|
  {
    var analysis := S.AnalysisOf(a, b.members[k].assetId);
    S.Frozen(b.members[k], analysis) || !S.SufficientHistory(analysis)
  }

  /** A decision as the strategy and the rebalancer saw it. */
  lemma DecisionView(b: Backtest, s: State, day: nat) returns (a: Analysis, d: Decision, r: Rebalance.Request)
    requires SimpleSetup(b) && Decide(b, s, day).Success? && NoShorts(s.positions)
    requires s.positions.Keys == ZeroPerMember(b.members).Keys
    ensures d == Decide(b, s, day).value && AnalysisUpTo(b, d.valuation, day, |b.members|).Success?
    ensures a == AnalysisOn(b, d.valuation, day) && NothingShort(d.portfolio)
    ensures S.GenerateTargets(b.cfg.num, a, d.portfolio) == Success(d.output)
    ensures d.portfolio.members == b.members && d.portfolio.baseCurrency == b.cfg.baseCurrency
    ensures r.nav == d.portfolio.snapshot.nav && r.targetWeights == d.output.targetWeights
    ensures r.Priced() && Rebalance.Orders(b.cfg.num, r) == Success(d.orders)
    ensures forall k :: 0 <= k < |b.members| ==>
              && b.members[k].assetId in a.assets && b.members[k].assetId in d.portfolio.positions
              && b.members[k].assetId in r.prices
              && r.prices[b.members[k].assetId] == a.assets[b.members[k].assetId].close
              && r.Held(b.members[k].assetId) == d.portfolio.positions[b.members[k].assetId].quantity
  {
    SimpleStrategyIsLongOnly(b);
    hide S.GenerateTargets, LongOnlySetup, NothingShort;
    DecisionParts(b, s, day);
    DecisionIsLong(b, s, day);
    d := Decide(b, s, day).value;
    hide Decide;
    AnalysisCloses(b, d.valuation, day, |b.members|);
    a := AnalysisOn(b, d.valuation, day);
    r := RebalanceRequest(b, s, d.valuation, d.portfolio.snapshot.nav, d.output.targetWeights,
                          TradableUpTo(b, |b.members|).value);
    hide ValueUpTo, AnalysisUpTo, PlanOrders, TradableUpTo, Rebalance.Orders;
    forall k | 0 <= k < |b.members|
      ensures b.members[k].assetId in s.positions
    {
      assert b.members[k].assetId in ZeroPerMember(b.members);
    }
  }

  /** An unbuyable member is never among the day's buys. */
  lemma UnbuyableNotBought(b: Backtest, s: State, day: nat, k: nat, o: PlannedOrder)
    requires SimpleSetup(b) && Decide(b, s, day).Success? && NoShorts(s.positions) && k < |b.members|
    requires s.positions.Keys == ZeroPerMember(b.members).Keys
    requires AnalysisUpTo(b, Decide(b, s, day).value.valuation, day, |b.members|).Success?
    requires Unbuyable(b, k, AnalysisOn(b, Decide(b, s, day).value.valuation, day))
    requires o in Decide(b, s, day).value.orders && o.assetId == b.members[k].assetId
    ensures o.side.Sell?
  {
    hide Decide, S.GenerateTargets, ValueUpTo, AnalysisUpTo, Rebalance.OrderFor, NothingShort, S.Frozen,
         S.SufficientHistory;
    var a, d, r := DecisionView(b, s, day);
    assert r.nav > 0.0;
    Rebalance.OrdersUpToComplete(b.cfg.num, r, |r.tradable|, o);
    var i :| 0 <= i < |r.tradable| && Rebalance.OrderFor(b.cfg.num, r, r.tradable[i].0, r.tradable[i].1) == Some(o);
    Rebalance.OrderHitsTarget(b.cfg.num, r, r.tradable[i].0, r.tradable[i].1);
    NoTargetAboveHolding(b.cfg.num, a, d.portfolio, k);
    Rebalance.BuysOnlyBelowTarget(b.cfg.num, r, r.tradable[i].0, r.tradable[i].1);
  }

  /** Restricted by membership, or blacklisted as an asset, for the whole run. */
  predicate FrozenMember(b: Backtest, k: nat)
    requires k < |b.members|
  {
    b.members[k].status.Restricted?
    || (b.members[k].assetId in b.assets && b.assets[b.members[k].assetId].tradingStatus.Blacklist?)
  }

  lemma {:induction false} AnalysisStatuses(b: Backtest, v: Valuation, day: nat, n: nat)
    requires n <= |b.members| && AnalysisUpTo(b, v, day, n).Success?
    ensures var a := AnalysisUpTo(b, v, day, n).value;
            forall id :: id in a ==>
              && id in b.assets && a[id].tradingStatus == b.assets[id].tradingStatus
              && At(b.indicators, id, day) == Success(a[id].indicators)
  {
    if n > 0 {
      AnalysisStatuses(b, v, day, n - 1);
    }
  }

  lemma FrozenIsUnbuyable(b: Backtest, v: Valuation, day: nat, k: nat)
    requires k < |b.members| && FrozenMember(b, k) && AnalysisUpTo(b, v, day, |b.members|).Success?
    ensures Unbuyable(b, k, AnalysisOn(b, v, day))
  {
    AnalysisStatuses(b, v, day, |b.members|);
    AnalysisCloses(b, v, day, |b.members|);
  }

  /** No order of any kind is pending for the asset, and none of it is held. */
  predicate Untouched(s: State, id: AssetId) {
    id in s.positions && s.positions[id] == 0.0 && forall p :: p in s.pending ==> p.assetId != id
  }

  /** Nothing held and nothing queued: the day's fills change nothing of the asset. */
  lemma FillsLeaveUntouched(b: Backtest, s: State, day: nat, id: AssetId)
    requires b.cfg.num.Exact() && Long(s) && Untouched(s, id) && ApplyPending(b, s, day).Success?
    ensures var f := ApplyPending(b, s, day).value;
            id in f.positions && f.positions[id] == 0.0 && NoShorts(f.positions)
  {
    hide FillOne, FillUpTo;
    ExactFits(b);
    FillUpToLong(b, s, day, |s.pending|);
    forall i | 0 <= i < |s.pending|
      ensures s.pending[i].assetId != id
    {
      assert s.pending[i] in s.pending;
    }
  }

  lemma FrozenNotOrdered(b: Backtest, f: State, day: nat, k: nat, o: PlannedOrder)
    requires SimpleSetup(b) && Decide(b, f, day).Success? && NoShorts(f.positions)
    requires f.positions.Keys == ZeroPerMember(b.members).Keys && k < |b.members| && FrozenMember(b, k)
    requires b.members[k].assetId in f.positions && f.positions[b.members[k].assetId] == 0.0
    requires o in Decide(b, f, day).value.orders
    ensures o.assetId != b.members[k].assetId
  {
    SimpleStrategyIsLongOnly(b);
    hide Decide, SimpleSetup, LongOnlySetup, FrozenMember, Unbuyable, AnalysisUpTo;
    OrdersCovered(b, f, day);
    DecisionParts(b, f, day);
    FrozenIsUnbuyable(b, Decide(b, f, day).value.valuation, day, k);
    if o.assetId == b.members[k].assetId {
      UnbuyableNotBought(b, f, day, k, o);
    }
  }

  lemma DayLeavesFrozenFlat(b: Backtest, n: nat, k: nat)
    requires SimpleSetup(b) && Ran(b, n + 1) && Ran(b, n) && k < |b.members| && FrozenMember(b, k)
    requires Untouched(After(b, n), b.members[k].assetId)
    ensures Untouched(After(b, n + 1), b.members[k].assetId)
    ensures forall o :: o in DecisionOn(b, n).orders ==> o.assetId != b.members[k].assetId
  {
    SimpleStrategyIsLongOnly(b);
    hide RunTo, DayStep, FillUpTo, ReviewUpTo, LongOnlyStrategy, Decide, FrozenMember, SoundQueue, Long,
      Decimals.Exact, RunsSimpleStrategy, ApplyPending;
    var id := b.members[k].assetId;
    NeverShort(b, n + 1);
    NeverShort(b, n);
    ReconciledRuns.PositionKeys(b, n + 1);
    DayParts(b, n);
    FillsLeaveUntouched(b, After(b, n), n, id);
    forall o | o in DecisionOn(b, n).orders
      ensures o.assetId != id
    {
      FrozenNotOrdered(b, FilledAt(b, n), n, k, o);
    }
    QueueIsSound(b, n);
    QueueAvoids(b, DecisionOn(b, n), n, After(b, n + 1), id);
    DayEffect(b, n);
  }

  lemma QueueAvoids(b: Backtest, d: Decision, day: nat, s: State, id: AssetId)
    requires SoundQueue(b, d, day, s) && forall o :: o in d.orders ==> o.assetId != id
    ensures forall p :: p in s.pending ==> p.assetId != id
  {
    hide Review;
    forall p | p in s.pending
      ensures p.assetId != id
    {
      var i :| 0 <= i < |d.orders| && ReviewedAs(b, d, d.orders[i], p);
      assert d.orders[i] in d.orders;
    }
  }

  lemma StartsUntouched(b: Backtest, k: nat)
    requires k < |b.members|
    ensures Ran(b, 0) && Untouched(After(b, 0), b.members[k].assetId)
  {
    assert b.members[k].assetId in ZeroPerMember(b.members);
  }

  /** Main result: restricted and blacklisted members are never ordered and stay at zero. */
  lemma {:induction false} FrozenStaysFlat(b: Backtest, n: nat, k: nat)
    requires SimpleSetup(b) && Ran(b, n) && k < |b.members| && FrozenMember(b, k)
    ensures Untouched(After(b, n), b.members[k].assetId)
  {
    hide SimpleSetup, FrozenMember, Untouched, Ran, After;
    if n > 0 {
      RanEarlier(b, n - 1, n);
      FrozenStaysFlat(b, n - 1, k);
      DayLeavesFrozenFlat(b, n - 1, k);
    } else {
      StartsUntouched(b, k);
    }
  }

  lemma ShortHistoryIsUnbuyable(b: Backtest, v: Valuation, day: nat, k: nat)
    requires k < |b.members| && AnalysisUpTo(b, v, day, |b.members|).Success?
    requires b.members[k].assetId in b.indicators && day < |b.indicators[b.members[k].assetId]|
    requires b.indicators[b.members[k].assetId][day].ma20.None?
    ensures Unbuyable(b, k, AnalysisOn(b, v, day))
  {
    AnalysisStatuses(b, v, day, |b.members|);
    AnalysisCloses(b, v, day, |b.members|);
    hide AnalysisUpTo;
  }

  lemma ShortNotOrdered(b: Backtest, f: State, day: nat, k: nat, o: PlannedOrder)
    requires SimpleSetup(b) && Decide(b, f, day).Success? && NoShorts(f.positions) && k < |b.members|
    requires f.positions.Keys == ZeroPerMember(b.members).Keys
    requires b.members[k].assetId in b.indicators && day < |b.indicators[b.members[k].assetId]|
    requires b.indicators[b.members[k].assetId][day].ma20.None?
    requires o in Decide(b, f, day).value.orders && o.assetId == b.members[k].assetId
    ensures o.side.Sell?
  {
    hide Decide, SimpleSetup, Unbuyable, AnalysisUpTo;
    DecisionParts(b, f, day);
    ShortHistoryIsUnbuyable(b, Decide(b, f, day).value.valuation, day, k);
    UnbuyableNotBought(b, f, day, k, o);
  }

  /** While a member's history is short it may be held or sold, but not bought. */
  lemma ShortHistoryNotBought(b: Backtest, day: nat, k: nat, o: PlannedOrder)
    requires SimpleSetup(b) && Ran(b, day + 1) && k < |b.members|
    requires b.members[k].assetId in b.indicators && day < |b.indicators[b.members[k].assetId]|
    requires b.indicators[b.members[k].assetId][day].ma20.None?
    requires o in DecisionOn(b, day).orders && o.assetId == b.members[k].assetId
    ensures o.side.Sell?
  {
    hide SimpleSetup, LongOnlySetup, Ran, After, FilledAt, DecisionOn, Decide;
    SimpleStrategyIsLongOnly(b);
    NeverShort(b, day + 1);
    ReconciledRuns.PositionKeys(b, day + 1);
    DayDecision(b, day);
    ShortNotOrdered(b, FilledAt(b, day), day, k, o);
  }

  // ----- Completion -----

  /** The account that day n's strategy sees, if its fills and valuation succeed. */
  ghost function AccountOn(b: Backtest, n: nat): PortfolioState
    requires Ran(b, n) && ApplyPending(b, After(b, n), n).Success?
    requires ValueUpTo(b, ApplyPending(b, After(b, n), n).value.positions, n, |b.members|).Success?
  {
    var f := ApplyPending(b, After(b, n), n).value;
    PortfolioAt(b, f, SnapshotAt(b, f, ValueUpTo(b, f.positions, n, |b.members|).value, n))
  }

  /** Main result: on well-formed inputs, when no queued order is refused, a day of the rule-based strategy completes
      exactly when the NAV of its own account is not zero or nothing is held; otherwise it stops for missing price
      data. */
  lemma SimpleRunsStopOnlyAtZeroNav(b: Backtest, n: nat)
    requires WellFormed(b) && SimpleSetup(b) && Ran(b, n) && n < b.cfg.days && NoneRefused(b, After(b, n).pending, n)
    ensures ApplyPending(b, After(b, n), n).Success?
    ensures ValueUpTo(b, ApplyPending(b, After(b, n), n).value.positions, n, |b.members|).Success?
    ensures Ran(b, n + 1) <==> AccountOn(b, n).snapshot.nav != 0.0 || S.HeldAssets(AccountOn(b, n)) == {}
    ensures RunTo(b, n + 1).Failure? ==> RunTo(b, n + 1) == Failure(MissingPriceData)
  {
    hide RunTo, ApplyPending, ValueUpTo, AnalysisUpTo, WellFormed, S.GenerateTargets, After, NoneRefused;
    WhatStopsARun(b, n);
    ApplyKeys(b, n);
    var f, p := ApplyPending(b, After(b, n), n).value, AccountOn(b, n);
    var v := ValueUpTo(b, f.positions, n, |b.members|).value;
    var a := AnalysisOn(b, v, n);
    AnalysisCloses(b, v, n, |b.members|);
    forall id | id in S.HeldAssets(p)
      ensures id in a.assets
    {
      var k :| 0 <= k < |b.members| && b.members[k].assetId == id;
    }
    GenerationSucceedsIff(b.cfg.num, a, p);
    GenerationError(b.cfg.num, a, p);
    assert b.strategy(a, p) == S.GenerateTargets(b.cfg.num, a, p);
  }

  lemma ApplyKeys(b: Backtest, n: nat)
    requires Ran(b, n) && ApplyPending(b, After(b, n), n).Success?
    ensures ApplyPending(b, After(b, n), n).value.positions.Keys == ZeroPerMember(b.members).Keys
  {
    ReconciledRuns.PositionKeys(b, n);
    ReconciledRuns.FillKeys(b, After(b, n), n, |After(b, n).pending|);
  }

  lemma GenerationError(num: Decimals, a: Analysis, p: PortfolioState)
    requires num.Exact() && DistinctMembers(p.members) && NoCashMember(p)
    ensures S.GenerateTargets(num, a, p).Failure? ==> S.GenerateTargets(num, a, p).error == MissingPriceData
  {
    if S.CurrentWeights(num, p, a).Success? {
      GenerationSucceedsIff(num, a, p);
    }
  }

  // ----- Sells under the rule-based policy -----

  /** Reviewing an order logs at most one record, of its side, and a rejection only if the verdict was one. */
  lemma ReviewOneRejects(b: Backtest, s: State, d: Decision, p: PlannedOrder, day: nat)
    ensures var s' := ReviewOne(b, s, d, p, day);
            || s'.trades == s.trades
            || (s'.trades != [] && s'.trades == s.trades + [s'.trades[|s'.trades| - 1]]
                && var t := s'.trades[|s'.trades| - 1];
                   t.side == p.side && (t.status.Rejected? ==> !Review(b, d.portfolio, p).0.approved))
  {
    hide Review;
  }

  lemma SellReviewApproves(b: Backtest, r: RiskPolicy.Policy, portfolio: PortfolioState, p: PlannedOrder)
    requires GatedBy(b, r) && p.side.Sell? && p.quantity > 0.0 && p.estimatedPrice > 0.0
    ensures Review(b, portfolio, p).0.approved
  {
    hide RiskPolicy.CheckOrder;
    RiskPolicy.SellsApproved(r, IntentOf(p, p.quantity), portfolio);
  }

  lemma {:induction false} SellsPass(b: Backtest, r: RiskPolicy.Policy, s: State, d: Decision, day: nat, n: nat)
    requires GatedBy(b, r) && n <= |d.orders|
    requires forall o :: o in d.orders ==> o.quantity > 0.0 && o.estimatedPrice > 0.0
    requires forall t :: t in s.trades && t.side.Sell? ==> !t.status.Rejected?
    ensures forall t :: t in ReviewUpTo(b, s, d, day, n).trades && t.side.Sell? ==> !t.status.Rejected?
  {
    hide ReviewOne, Review, GatedBy;
    if n > 0 {
      SellsPass(b, r, s, d, day, n - 1);
      var planned := d.orders[n - 1];
      assert planned in d.orders;
      ReviewOneRejects(b, ReviewUpTo(b, s, d, day, n - 1), d, planned, day);
      if planned.side.Sell? {
        SellReviewApproves(b, r, d.portfolio, planned);
      }
    }
  }

  lemma DayRejectsNoSell(b: Backtest, r: RiskPolicy.Policy, n: nat)
    requires DistinctMembers(b.members) && GatedBy(b, r) && Ran(b, n + 1) && Ran(b, n)
    requires forall t :: t in After(b, n).trades && t.side.Sell? ==> !t.status.Rejected?
    ensures forall t :: t in After(b, n + 1).trades && t.side.Sell? ==> !t.status.Rejected?
  {
    hide RunTo, DayStep, Decide, FillUpTo, ReviewUpTo, DistinctMembers, GatedBy, Ran, After, FilledAt, DecisionOn;
    DayFills(b, n);
    DayReview(b, n);
    DayDecision(b, n);
    var s, f, d := After(b, n), FilledAt(b, n), DecisionOn(b, n);
    forall o | o in d.orders
      ensures o.quantity > 0.0 && o.estimatedPrice > 0.0
    {
      var request := PlannedFor(b, f, n, o);
    }
    FilledNotRejected(b, s, n, |s.pending|);
    SellsPass(b, r, Record(b, f, d), d, n, |d.orders|);
  }

  /** Under the rule-based policy no planned sell of any strategy is ever rejected, for any arithmetic. */
  lemma {:induction false} NoSellRejected(b: Backtest, r: RiskPolicy.Policy, n: nat)
    requires DistinctMembers(b.members) && GatedBy(b, r) && Ran(b, n)
    ensures forall t :: t in After(b, n).trades && t.side.Sell? ==> !t.status.Rejected?
  {
    hide DistinctMembers, GatedBy, Ran, After;
    if n > 0 {
      RanEarlier(b, n - 1, n);
      NoSellRejected(b, r, n - 1);
      DayRejectsNoSell(b, r, n - 1);
    } else {
      NothingAtStart(b);
    }
  }

  lemma {:induction false} FilledNotRejected(b: Backtest, s: State, day: nat, n: nat)
    requires n <= |s.pending| && FillUpTo(b, s, day, n).Success?
    requires forall t :: t in s.trades && t.side.Sell? ==> !t.status.Rejected?
    ensures forall t :: t in FillUpTo(b, s, day, n).value.trades && t.side.Sell? ==> !t.status.Rejected?
  {
    hide FillOne;
    if n > 0 {
      FilledNotRejected(b, s, day, n - 1);
      var before := FillUpTo(b, s, day, n - 1).value;
      FillOneEffect(b, before, s.pending[n - 1], day);
      var after := FillUpTo(b, s, day, n).value;
      assert after.trades == before.trades + [after.trades[|after.trades| - 1]];
    }
  }

  // ----- Buys under the rule-based policy -----

  /** Main result: in any exact run gated by the rule-based policy, what is done with a planned buy is two-optimal: a
      size approved after k halvings could not have been twice as large, and a buy given up on is refused at every
      size from 1/256 of the plan upwards. */
  lemma PlannedBuysAreTwoOptimal(b: Backtest, r: RiskPolicy.Policy, n: nat, o: PlannedOrder) returns (k: nat)
    requires b.cfg.num.Exact() && DistinctMembers(b.members) && GatedBy(b, r) && r.num.Exact() && Ran(b, n + 1)
    requires o in DecisionOn(b, n).orders && o.side.Buy?
    ensures var portfolio := DecisionOn(b, n).portfolio;
            var (verdict, size) := Review(b, portfolio, o);
            && k <= 8 && size > 0.0 && size * Pow2(k) == o.quantity
            && verdict == b.risk(IntentOf(o, size), portfolio)
            && (verdict.approved && k > 0 ==> forall s :: s >= 2.0 * size ==> !Approves(b, portfolio, o, s))
            && (!verdict.approved ==> k == 8 && forall s :: s >= size ==> !Approves(b, portfolio, o, s))
  {
    hide Ran, After, FilledAt, DecisionOn, Decide, GatedBy, Review, Approves, Pow2, DownwardClosed;
    DayDecision(b, n);
    var request := PlannedFor(b, FilledAt(b, n), n, o);
    PolicyIsDownwardClosed(b, r, DecisionOn(b, n).portfolio, o);
    k := HalvingIsTwoOptimal(b, DecisionOn(b, n).portfolio, o);
  }
}
