/** The long-only invariant: no position is ever negative, because each asset has at most one queued order and a sell
    never asks for more than was held when it was decided. It holds for any arithmetic that rounds no sell above the
    holding it is computed from; exact arithmetic is one. */
module LongOnly {
  import opened Common
  import opened Domain
  import opened Matching
  import opened Engine
  import opened RunFacts
  import opened OrderLog
  import Rebalance
  import TargetWeights

  /** On a day with positive NAV and nothing short, the strategy targets no negative weight for an asset with a
      positive price. */
  ghost predicate LongOnlyStrategy(b: Backtest) {
    forall a: Analysis, p: PortfolioState, id: AssetId |
      && p.members == b.members && p.baseCurrency == b.cfg.baseCurrency
      && p.snapshot.nav > 0.0 && TargetWeights.NothingShort(p)
      && b.strategy(a, p).Success? && id in a.assets && a.assets[id].close > 0.0
      :: ItemOr(b.strategy(a, p).value.targetWeights, id, 0.0) >= 0.0
  }

  // ----- What is asked of the arithmetic -----

  /** The size of a sell, computed from a holding's rounded value, is at most the holding. */
  predicate SellFits(num: Decimals, weight: real, nav: real, held: real, price: real) {
    var gap := num.Sub(num.mul(weight, nav), num.mul(held, price));
    gap <= 0.0 ==> num.div(Abs(gap), price) <= held
  }

  ghost predicate SellsFit(num: Decimals) {
    forall weight, nav, held, price :: weight >= 0.0 && nav > 0.0 && held >= 0.0 && price > 0.0 ==>
        SellFits(num, weight, nav, held, price)
  }

  /** A sum that is not negative is not rounded below zero. */
  ghost predicate SumsKeepSign(num: Decimals) {
    forall x, y :: x + y >= 0.0 ==> num.add(x, y) >= 0.0
  }

  /** Whole lots of a size are at most the size. */
  predicate LotFits(num: Decimals, size: real, lotSize: real) {
    lotSize != 0.0 ==> num.mul(num.div(size, lotSize).Floor as real, lotSize) <= size
  }

  ghost predicate LotsFit(num: Decimals) {
    forall size, lotSize :: size > 0.0 && lotSize > 0.0 ==> LotFits(num, size, lotSize)
  }

  /** Filling rounds no position below zero, and sizes to lots only downwards. */
  ghost predicate FillsFit(b: Backtest) {
    SumsKeepSign(b.cfg.num) && (b.cfg.restrictedPrecision ==> LotsFit(b.cfg.num))
  }

  /** Distinct members, a long-only strategy, and arithmetic in which sizes fit. */
  ghost predicate LongOnlySetup(b: Backtest) {
    SellsFit(b.cfg.num) && FillsFit(b) && DistinctMembers(b.members) && LongOnlyStrategy(b)
  }

  ghost predicate ExactLongOnly(b: Backtest) {
    b.cfg.num.Exact() && DistinctMembers(b.members) && LongOnlyStrategy(b)
  }

  lemma ExactSellFits(num: Decimals, weight: real, nav: real, held: real, price: real)
    requires num.Exact() && weight >= 0.0 && nav > 0.0 && held >= 0.0 && price > 0.0
    ensures SellFits(num, weight, nav, held, price)
  {
    Rebalance.ExactGap(num, weight, nav, held, price);
    hide Decimals.Exact;
    SellQuotient(weight, nav, held, price);
  }

  lemma SellQuotient(weight: real, nav: real, held: real, price: real)
    requires weight >= 0.0 && nav > 0.0 && price > 0.0
    ensures weight * nav - held * price <= 0.0 ==> Abs(weight * nav - held * price) / price <= held
  {
    var gap := held * price - weight * nav;
    ScaleOrder(0.0, weight, nav);
    var q := gap / price;
    assert q * price == gap;
    if q > held {
      PositiveProduct(q - held, price);
      assert (q - held) * price == q * price - held * price;
    }
  }

  /** Exact arithmetic rounds nothing, so every size fits. */
  lemma ExactFits(b: Backtest)
    requires b.cfg.num.Exact()
    ensures SellsFit(b.cfg.num) && FillsFit(b)
  {
    var num := b.cfg.num;
    forall weight, nav, held, price | weight >= 0.0 && nav > 0.0 && held >= 0.0 && price > 0.0
      ensures SellFits(num, weight, nav, held, price)
    {
      ExactSellFits(num, weight, nav, held, price);
    }
    forall size, lotSize | size > 0.0 && lotSize > 0.0
      ensures LotFits(num, size, lotSize)
    {
      WholeLots(size, lotSize);
      assert num.div(size, lotSize) == size / lotSize;
      var lots := (size / lotSize).Floor;
      assert num.mul(lots as real, lotSize) == Lots(lots, lotSize);
    }
  }

  lemma ExactIsLongOnly(b: Backtest)
    requires ExactLongOnly(b)
    ensures LongOnlySetup(b)
  {
    ExactFits(b);
  }

  // ----- Covered orders -----

  predicate NoShorts(positions: map<AssetId, real>) {
    forall id :: id in positions ==> positions[id] >= 0.0
  }

  /** A queued order has a positive size, and a sell is covered by the position. */
  predicate Covered(positions: map<AssetId, real>, p: PlannedOrder) {
    p.quantity > 0.0 && (p.side.Sell? && p.assetId in positions ==> p.quantity <= positions[p.assetId])
  }

  predicate Long(s: State) {
    NoShorts(s.positions) && Rebalance.OnePerAsset(s.pending) && forall p :: p in s.pending ==> Covered(s.positions, p)
  }

  // ----- Fills -----

  lemma SizedAtMostPlanned(b: Backtest, p: PlannedOrder)
    requires FillsFit(b) && p.quantity > 0.0 && SizeFill(b, p).Success?
    ensures SizeFill(b, p).value.Sized? ==> 0.0 < SizeFill(b, p).value.quantity <= p.quantity
  {
    if b.cfg.restrictedPrecision && GetOr(b.precision, p.assetId, None).Some? {
      var precision := GetOr(b.precision, p.assetId, None).value;
      assert precision.lotSize > 0.0 ==> LotFits(b.cfg.num, p.quantity, precision.lotSize);
    }
  }

  /** One fill moves one position, by at most the planned quantity, and never below zero. */
  lemma FillOneLong(b: Backtest, s: State, p: PlannedOrder, day: nat)
    requires FillsFit(b) && FillOne(b, s, p, day).Success? && NoShorts(s.positions) && Covered(s.positions, p)
    ensures var s' := FillOne(b, s, p, day).value;
            && NoShorts(s'.positions)
            && s'.positions.Keys == s.positions.Keys
            && forall id :: id in s.positions && id != p.assetId ==> s'.positions[id] == s.positions[id]
  {
    SizedAtMostPlanned(b, p);
    var c := s.context[p.assetId];
    var quote := PriceAt(b, p.assetId, day, Open).value;
    var f := SimulateFill(b, p, quote.price, b.cfg.startDate + day, s.seqNo + 1, c).value;
    var s' := FillOne(b, s, p, day).value;
    hide RoundToLot, ApplySlippage, ComputeCommission, PriceAt;
    if f.record.status.Filled? {
      assert s'.positions == s.positions[p.assetId := b.cfg.num.add(s.positions[p.assetId], f.positionDelta)];
    } else {
      assert s'.positions == s.positions;
    }
  }

  lemma {:induction false} FillUpToLong(b: Backtest, s: State, day: nat, n: nat)
    requires FillsFit(b) && n <= |s.pending| && FillUpTo(b, s, day, n).Success? && Long(s)
    ensures var s' := FillUpTo(b, s, day, n).value;
            && NoShorts(s'.positions) && s'.positions.Keys == s.positions.Keys
            && forall id :: id in s.positions && (forall i :: 0 <= i < n ==> s.pending[i].assetId != id) ==>
                 s'.positions[id] == s.positions[id]
  {
    hide FillOne, FillsFit;
    if n > 0 {
      FillUpToLong(b, s, day, n - 1);
      var before, p := FillUpTo(b, s, day, n - 1).value, s.pending[n - 1];
      assert p in s.pending;
      assert Covered(before.positions, p);
      FillOneLong(b, before, p, day);
    }
  }

  // ----- Decisions -----

  /** Every analysed close is the day's valuation price. */
  lemma {:induction false} AnalysisCloses(b: Backtest, v: Valuation, day: nat, n: nat)
    requires n <= |b.members| && AnalysisUpTo(b, v, day, n).Success?
    ensures var a := AnalysisUpTo(b, v, day, n).value;
            && (forall k :: 0 <= k < n ==> b.members[k].assetId in a)
            && forall id :: id in a ==> id in v.prices && a[id].close == v.prices[id]
  {
    if n > 0 {
      AnalysisCloses(b, v, day, n - 1);
    }
  }

  ghost function AnalysisOn(b: Backtest, v: Valuation, day: nat): Analysis
    requires AnalysisUpTo(b, v, day, |b.members|).Success?
  {
    Analysis(b.cfg.startDate + day, AnalysisUpTo(b, v, day, |b.members|).value)
  }

  /** The parts a decision is made of. */
  lemma DecisionParts(b: Backtest, s: State, day: nat)
    requires Decide(b, s, day).Success?
    ensures var d := Decide(b, s, day).value;
            && ValueUpTo(b, s.positions, day, |b.members|) == Success(d.valuation)
            && AnalysisUpTo(b, d.valuation, day, |b.members|).Success?
            && d.portfolio == PortfolioAt(b, s, SnapshotAt(b, s, d.valuation, day))
            && b.strategy(AnalysisOn(b, d.valuation, day), d.portfolio) == Success(d.output)
            && PlanOrders(b, s, d.valuation, d.portfolio.snapshot.nav, d.output.targetWeights) == Success(d.orders)
            && TradableUpTo(b, |b.members|).Success?
            && var r := RebalanceRequest(b, s, d.valuation, d.portfolio.snapshot.nav, d.output.targetWeights,
                                         TradableUpTo(b, |b.members|).value);
               r.Priced() && Rebalance.Orders(b.cfg.num, r) == Success(d.orders)
  {
  }

  /** What the strategy saw was not short, and what it answered is long-only. */
  lemma DecisionIsLong(b: Backtest, s: State, day: nat)
    requires LongOnlySetup(b) && Decide(b, s, day).Success? && NoShorts(s.positions)
    ensures var d := Decide(b, s, day).value;
            && TargetWeights.NothingShort(d.portfolio)
            && (d.portfolio.snapshot.nav > 0.0 ==>
                  forall id :: id in d.valuation.prices && d.valuation.prices[id] > 0.0
                               && (exists k :: 0 <= k < |b.members| && b.members[k].assetId == id) ==>
                    ItemOr(d.output.targetWeights, id, 0.0) >= 0.0)
  {
    DecisionParts(b, s, day);
    var d := Decide(b, s, day).value;
    hide Decide, ValueUpTo, AnalysisUpTo, PlanOrders;
    AnalysisCloses(b, d.valuation, day, |b.members|);
  }

  /** Where a planned order comes from, and that its size is positive, for any arithmetic. */
  lemma PlannedFor(b: Backtest, s: State, day: nat, o: PlannedOrder) returns (r: Rebalance.Request)
    requires DistinctMembers(b.members) && Decide(b, s, day).Success? && o in Decide(b, s, day).value.orders
    ensures var d := Decide(b, s, day).value;
            && r.nav == d.portfolio.snapshot.nav > 0.0 && r.targetWeights == d.output.targetWeights
            && r.currentQuantities == s.positions && r.prices == d.valuation.prices
            && o.assetId in r.prices && r.prices[o.assetId] > 0.0
            && (exists k :: 0 <= k < |b.members| && b.members[k].assetId == o.assetId)
    ensures o.quantity > 0.0 && o.estimatedPrice == r.prices[o.assetId]
    ensures o.side.Sell? ==>
              var gap := b.cfg.num.Sub(b.cfg.num.mul(r.TargetWeight(o.assetId), r.nav),
                                       b.cfg.num.mul(r.Held(o.assetId), r.prices[o.assetId]));
              gap <= 0.0 && o.quantity == b.cfg.num.div(Abs(gap), r.prices[o.assetId])
  {
    DecisionParts(b, s, day);
    TradableFacts(b, |b.members|);
    var d := Decide(b, s, day).value;
    hide Decide, ValueUpTo, AnalysisUpTo, PlanOrders, TradableUpTo, Rebalance.OrderFor, Abs,
         Rebalance.Request.TargetWeight, Rebalance.Request.Held;
    r := RebalanceRequest(b, s, d.valuation, d.portfolio.snapshot.nav, d.output.targetWeights,
                          TradableUpTo(b, |b.members|).value);
    assert r.nav > 0.0;
    Rebalance.OrdersUpToComplete(b.cfg.num, r, |r.tradable|, o);
    var i :| 0 <= i < |r.tradable| && Rebalance.OrderFor(b.cfg.num, r, r.tradable[i].0, r.tradable[i].1) == Some(o);
    Rebalance.OrderFacts(b.cfg.num, r, r.tradable[i].0, r.tradable[i].1);
    assert b.members[i].assetId == r.tradable[i].0;
  }

  /** Planned orders have positive sizes, and sells are covered by what is held. */
  lemma OrdersCovered(b: Backtest, s: State, day: nat)
    requires LongOnlySetup(b) && Decide(b, s, day).Success? && NoShorts(s.positions)
    ensures forall o :: o in Decide(b, s, day).value.orders ==> Covered(s.positions, o) && o.estimatedPrice > 0.0
  {
    var d := Decide(b, s, day).value;
    DecisionIsLong(b, s, day);
    hide Decide, LongOnlyStrategy, FillsFit, SellFits;
    forall o | o in d.orders
      ensures Covered(s.positions, o) && o.estimatedPrice > 0.0
    {
      var r := PlannedFor(b, s, day, o);
      assert SellFits(b.cfg.num, r.TargetWeight(o.assetId), r.nav, r.Held(o.assetId), r.prices[o.assetId]);
      FittingSell(b.cfg.num, r.TargetWeight(o.assetId), r.nav, r.Held(o.assetId), r.prices[o.assetId]);
    }
  }

  lemma FittingSell(num: Decimals, weight: real, nav: real, held: real, price: real)
    requires SellFits(num, weight, nav, held, price)
    ensures var gap := num.Sub(num.mul(weight, nav), num.mul(held, price));
            gap <= 0.0 ==> num.div(Abs(gap), price) <= held
  {
  }

  // ----- Review -----

  lemma {:induction false} ShrinkStaysPositive(b: Backtest, portfolio: PortfolioState, p: PlannedOrder,
                                               quantity: real, result: RiskCheckResult, attempts: nat)
    requires quantity > 0.0
    ensures Shrink(b, portfolio, p, quantity, result, attempts).1 > 0.0
    decreases attempts
  {
    if attempts > 0 && !result.approved {
      var candidate := b.cfg.num.div(quantity, 2.0);
      if candidate > 0.0 {
        ShrinkStaysPositive(b, portfolio, p, candidate, b.risk(IntentOf(p, candidate), portfolio), attempts - 1);
      }
    }
  }

  /** A sell is reviewed at its planned size, and no order at none. */
  lemma ReviewedSize(b: Backtest, portfolio: PortfolioState, p: PlannedOrder)
    requires p.quantity > 0.0
    ensures Review(b, portfolio, p).1 > 0.0 && (p.side.Sell? ==> Review(b, portfolio, p).1 == p.quantity)
  {
    ShrinkStaysPositive(b, portfolio, p, p.quantity, b.risk(IntentOf(p, p.quantity), portfolio), SHRINK_ATTEMPTS);
  }

  lemma ReviewOneQueues(b: Backtest, s: State, d: Decision, p: PlannedOrder, day: nat)
    ensures var s' := ReviewOne(b, s, d, p, day);
            && s'.positions == s.positions
            && (s'.pending == s.pending || s'.pending == s.pending + [p.(quantity := Review(b, d.portfolio, p).1)])
  {
    hide Review;
  }

  /** A queued order is a planned one, at its own size if it is a sell. */
  predicate QueuedFor(planned: PlannedOrder, p: PlannedOrder) {
    && p.assetId == planned.assetId && p.side == planned.side && p.quantity > 0.0
    && (p.side.Sell? ==> p.quantity == planned.quantity)
  }

  lemma {:induction false} ReviewKeepsQueue(b: Backtest, s: State, d: Decision, day: nat, n: nat)
    requires n <= |d.orders| && s.pending == [] && Rebalance.OnePerAsset(d.orders)
    requires forall o :: o in d.orders ==> o.quantity > 0.0
    ensures var s' := ReviewUpTo(b, s, d, day, n);
            && s'.positions == s.positions && Rebalance.OnePerAsset(s'.pending)
            && forall p :: p in s'.pending ==> exists i :: 0 <= i < n && QueuedFor(d.orders[i], p)
  {
    if n > 0 {
      ReviewKeepsQueue(b, s, d, day, n - 1);
      var planned := d.orders[n - 1];
      assert planned in d.orders;
      ReviewedSize(b, d.portfolio, planned);
      var before, after := ReviewUpTo(b, s, d, day, n - 1), ReviewUpTo(b, s, d, day, n);
      var queued := planned.(quantity := Review(b, d.portfolio, planned).1);
      ReviewOneQueues(b, before, d, planned, day);
      hide Review, ReviewOne;
      assert QueuedFor(planned, queued);
      forall p | p in before.pending
        ensures p.assetId != planned.assetId
      {
        var i :| 0 <= i < n - 1 && QueuedFor(d.orders[i], p);
        assert d.orders[i].assetId != d.orders[n - 1].assetId;
      }
    }
  }

  lemma ReviewKeepsLong(b: Backtest, s: State, d: Decision, day: nat)
    requires s.pending == [] && NoShorts(s.positions) && Rebalance.OnePerAsset(d.orders)
    requires forall o :: o in d.orders ==> Covered(s.positions, o)
    ensures Long(ReviewUpTo(b, s, d, day, |d.orders|))
  {
    ReviewKeepsQueue(b, s, d, day, |d.orders|);
    hide ReviewUpTo;
    var s' := ReviewUpTo(b, s, d, day, |d.orders|);
    forall p | p in s'.pending
      ensures Covered(s'.positions, p)
    {
      var i :| 0 <= i < |d.orders| && QueuedFor(d.orders[i], p);
      assert d.orders[i] in d.orders;
    }
  }

  // ----- The invariant -----

  lemma DayKeepsLong(b: Backtest, n: nat)
    requires LongOnlySetup(b) && Ran(b, n + 1) && Ran(b, n) && Long(After(b, n))
    ensures Long(After(b, n + 1)) && NoShorts(FilledAt(b, n).positions)
  {
    hide RunTo, DayStep, Decide, FillUpTo, ReviewUpTo, FillsFit, SellsFit, LongOnlyStrategy;
    DayParts(b, n);
    var s, f, d := After(b, n), FilledAt(b, n), DecisionOn(b, n);
    FillUpToLong(b, s, n, |s.pending|);
    OrdersCovered(b, f, n);
    PlansOncePerAsset(b, f, n);
    ReviewKeepsLong(b, Record(b, f, d), d, n);
  }

  lemma StartsLong(b: Backtest)
    ensures Ran(b, 0) && Long(After(b, 0))
  {
  }

  /** Main result: in a run of a long-only strategy, with arithmetic that rounds no sell above the holding it is
      computed from, no position is ever negative, every queued sell is covered, and no asset has two queued orders. */
  lemma {:induction false} NeverShort(b: Backtest, n: nat)
    requires LongOnlySetup(b) && Ran(b, n)
    ensures Long(After(b, n))
    ensures n > 0 ==> NoShorts(FilledAt(b, n - 1).positions)
  {
    hide LongOnlySetup, Ran, After, FilledAt, NoShorts;
    if n > 0 {
      RanEarlier(b, n - 1, n);
      NeverShort(b, n - 1);
      DayKeepsLong(b, n - 1);
    } else {
      StartsLong(b);
    }
  }
}
