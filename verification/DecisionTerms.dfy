/** What a day's decision is, stated on the bars' own fields: the account is valued at the closes, the strategy sees the
    day's bars, and the orders are exactly the gaps to the target weights. */
module DecisionTerms {
  import opened Common
  import opened Domain
  import opened Engine
  import opened RunFacts
  import opened LongOnly
  import opened OrderLog
  import opened FillTerms
  import Rebalance

  // ----- The valuation -----

  predicate HeldMember(b: Backtest, positions: map<AssetId, real>, k: nat)
    requires k < |b.members|
  {
    b.members[k].assetId in positions && positions[b.members[k].assetId] != 0.0
  }

  /** The bar of the member, or that of its currency, is stale on the day. */
  predicate StaleOn(b: Backtest, id: AssetId, day: nat)
    requires HasBars(b, id, day)
  {
    || b.series[id][day].stale
    || (b.assets[id].quoteCurrency != b.cfg.baseCurrency && b.fx[b.assets[id].quoteCurrency][day].stale)
  }

  predicate AllHaveBars(b: Backtest, positions: map<AssetId, real>, day: nat, n: nat)
    requires n <= |b.members|
  {
    forall k :: 0 <= k < n ==> HasBars(b, b.members[k].assetId, day) && b.members[k].assetId in positions
  }

  /** What the first n members are worth at the closes. */
  function WorthAtClose(b: Backtest, positions: map<AssetId, real>, day: nat, n: nat): real
    requires n <= |b.members| && AllHaveBars(b, positions, day, n)
  {
    if n == 0 then 0.0
    else
      var id := b.members[n - 1].assetId;
      WorthAtClose(b, positions, day, n - 1) + Worth(positions[id], ClosingPrice(b, id, day))
  }

  ghost predicate SomeHeldStale(b: Backtest, positions: map<AssetId, real>, day: nat, n: nat)
    requires n <= |b.members| && AllHaveBars(b, positions, day, n)
  {
    exists k :: 0 <= k < n && HeldMember(b, positions, k) && StaleOn(b, b.members[k].assetId, day)
  }

  lemma ValueOneTerms(b: Backtest, positions: map<AssetId, real>, day: nat, v: Valuation, id: AssetId)
    requires b.cfg.num.Exact() && ValueOne(b, positions, day, v, id).Success?
    ensures HasBars(b, id, day) && id in positions
    ensures var v' := ValueOne(b, positions, day, v, id).value;
            && v'.prices == v.prices[id := ClosingPrice(b, id, day)]
            && v'.stale == v.stale[id := b.series[id][day].stale]
            && v'.positionsValue == v.positionsValue + Worth(positions[id], ClosingPrice(b, id, day))
            && (v'.allFresh <==> v.allFresh && !(positions[id] != 0.0 && StaleOn(b, id, day)))
  {
    ExactClose(b, id, day);
    var price := ClosingPrice(b, id, day);
    ExactValue(b.cfg.num, v.positionsValue, positions[id], price);
    hide Decimals.Exact, Worth, ClosingPrice;
  }

  lemma ExactValue(num: Decimals, before: real, quantity: real, price: real)
    requires num.Exact()
    ensures num.add(before, num.mul(quantity, price)) == before + Worth(quantity, price)
    ensures quantity == 0.0 ==> Worth(quantity, price) == 0.0
  {
    assert num.mul(quantity, price) == quantity * price;
  }

  /** The valuation of a day: prices are the closes, and the value is the sum over the members. */
  lemma {:induction false} ValuationTerms(b: Backtest, positions: map<AssetId, real>, day: nat, n: nat)
    requires b.cfg.num.Exact() && DistinctMembers(b.members) && n <= |b.members|
    requires ValueUpTo(b, positions, day, n).Success?
    ensures AllHaveBars(b, positions, day, n)
    ensures var v := ValueUpTo(b, positions, day, n).value;
            && v.positionsValue == WorthAtClose(b, positions, day, n)
            && (v.allFresh <==> !SomeHeldStale(b, positions, day, n))
            && forall k :: 0 <= k < n ==>
                 var id := b.members[k].assetId;
                 && id in v.prices && v.prices[id] == ClosingPrice(b, id, day)
                 && id in v.stale && v.stale[id] == b.series[id][day].stale
  {
    if n > 0 {
      ValuationTerms(b, positions, day, n - 1);
      var before, id := ValueUpTo(b, positions, day, n - 1).value, b.members[n - 1].assetId;
      ValueOneTerms(b, positions, day, before, id);
      hide ValueOne, Decimals.Exact, HasBars, ClosingPrice, SomeHeldStale, Worth;
      StaleGrows(b, positions, day, n);
      hide StaleOn;
    } else {
      assert !SomeHeldStale(b, positions, day, 0);
    }
  }

  lemma StaleGrows(b: Backtest, positions: map<AssetId, real>, day: nat, n: nat)
    requires 0 < n <= |b.members| && AllHaveBars(b, positions, day, n)
    ensures SomeHeldStale(b, positions, day, n)
            <==> SomeHeldStale(b, positions, day, n - 1)
                 || (HeldMember(b, positions, n - 1) && StaleOn(b, b.members[n - 1].assetId, day))
  {
    hide HeldMember, StaleOn, HasBars;
  }

  /** Main result: a day's NAV is the cash and every position at its close, converted at the close of its currency; and
      its snapshot is stale exactly when something held has a stale bar or a stale rate. */
  lemma NavIsWorth(b: Backtest, n: nat)
    requires b.cfg.num.Exact() && DistinctMembers(b.members) && Ran(b, n + 1)
    ensures var f, s := FilledAt(b, n), DecisionOn(b, n).portfolio.snapshot;
            && AllHaveBars(b, f.positions, n, |b.members|)
            && s.cashValue == f.cash && s.positionsValue == WorthAtClose(b, f.positions, n, |b.members|)
            && s.nav == s.cashValue + s.positionsValue && s.valuationDate == b.cfg.startDate + n
            && (s.stale <==> SomeHeldStale(b, f.positions, n, |b.members|))
  {
    DayDecision(b, n);
    var f, d := FilledAt(b, n), DecisionOn(b, n);
    hide Ran, FilledAt, DecisionOn;
    DecisionParts(b, f, n);
    ValuationTerms(b, f.positions, n, |b.members|);
    hide Decide, ValueUpTo, WorthAtClose, SomeHeldStale;
    assert b.cfg.num.add(d.valuation.positionsValue, f.cash) == d.valuation.positionsValue + f.cash;
  }

  // ----- The analysis -----

  /** What the strategy is shown of an asset on the day: its own row of indicators, close, status and trading status. */
  function Shown(b: Backtest, id: AssetId, day: nat): AssetAnalysis
    requires HasBars(b, id, day) && id in b.indicators && day < |b.indicators[id]|
  {
    AssetAnalysis(b.indicators[id][day], ClosingPrice(b, id, day), b.series[id][day].stale, b.assets[id].tradingStatus)
  }

  lemma {:induction false} AnalysisTerms(b: Backtest, v: Valuation, day: nat, n: nat)
    requires n <= |b.members| && DistinctMembers(b.members) && AnalysisUpTo(b, v, day, n).Success?
    requires forall k :: 0 <= k < n ==>
               var id := b.members[k].assetId;
               HasBars(b, id, day) && id in v.prices && v.prices[id] == ClosingPrice(b, id, day)
    ensures var a := AnalysisUpTo(b, v, day, n).value;
            forall k :: 0 <= k < n ==>
              var id := b.members[k].assetId;
              && id in b.indicators && day < |b.indicators[id]|
              && id in a && a[id] == Shown(b, id, day)
  {
    if n > 0 {
      AnalysisTerms(b, v, day, n - 1);
      hide ClosingPrice;
    }
  }

  predicate ShownOf(b: Backtest, assets: map<AssetId, AssetAnalysis>, day: nat, k: nat)
    requires k < |b.members|
  {
    var id := b.members[k].assetId;
    && HasBars(b, id, day) && id in b.indicators && day < |b.indicators[id]|
    && id in assets && assets[id] == Shown(b, id, day)
  }

  lemma {:induction false} OnlyMembersShown(b: Backtest, v: Valuation, day: nat, n: nat, id: AssetId)
    requires n <= |b.members| && AnalysisUpTo(b, v, day, n).Success? && id in AnalysisUpTo(b, v, day, n).value
    ensures exists k :: 0 <= k < n && b.members[k].assetId == id
  {
    if b.members[n - 1].assetId != id {
      OnlyMembersShown(b, v, day, n - 1, id);
    }
  }

  /** The account that the strategy and the risk policy see: the books right after the day's fills. */
  ghost predicate ShowsBooks(b: Backtest, f: State, p: PortfolioState) {
    && p.baseCurrency == b.cfg.baseCurrency && p.members == b.members
    && (forall id :: id in p.positions <==> id in f.positions)
    && forall id :: id in p.positions && id in f.positions ==>
         && p.positions[id].quantity == f.positions[id]
         && p.positions[id].averageCost == if id in f.averageCost then f.averageCost[id] else 0.0
  }

  lemma MembersShown(b: Backtest, f: State, day: nat, v: Valuation)
    requires b.cfg.num.Exact() && DistinctMembers(b.members)
    requires ValueUpTo(b, f.positions, day, |b.members|) == Success(v) && AnalysisUpTo(b, v, day, |b.members|).Success?
    ensures forall k :: 0 <= k < |b.members| ==> ShownOf(b, AnalysisUpTo(b, v, day, |b.members|).value, day, k)
  {
    hide ValueUpTo, WorthAtClose, SomeHeldStale, HasBars, ClosingPrice, Decimals.Exact, AnalysisUpTo;
    ValuationTerms(b, f.positions, day, |b.members|);
    AnalysisTerms(b, v, day, |b.members|);
  }

  lemma AccountShown(b: Backtest, f: State, snapshot: Snapshot)
    ensures ShowsBooks(b, f, PortfolioAt(b, f, snapshot))
  {
  }

  /** Main result: on every day the strategy is asked as of that day, about the books right after the fills, and is
      shown exactly the members, each by its own bars and indicators of the day. */
  lemma StrategyIsShown(b: Backtest, n: nat) returns (a: Analysis)
    requires b.cfg.num.Exact() && DistinctMembers(b.members) && Ran(b, n + 1)
    ensures b.strategy(a, DecisionOn(b, n).portfolio) == Success(DecisionOn(b, n).output)
    ensures a.asOf == b.cfg.startDate + n && ShowsBooks(b, FilledAt(b, n), DecisionOn(b, n).portfolio)
    ensures forall k :: 0 <= k < |b.members| ==> ShownOf(b, a.assets, n, k)
    ensures forall id :: id in a.assets ==> exists k :: 0 <= k < |b.members| && b.members[k].assetId == id
  {
    hide Ran, FilledAt, DecisionOn, Decide, ValueUpTo, AnalysisUpTo, PlanOrders, Rebalance.Orders, ShownOf, ShowsBooks,
         TradableUpTo, PortfolioAt, SnapshotAt, Decimals.Exact, DistinctMembers;
    DayDecision(b, n);
    var f, d := FilledAt(b, n), DecisionOn(b, n);
    DecisionParts(b, f, n);
    MembersShown(b, f, n, d.valuation);
    AccountShown(b, f, SnapshotAt(b, f, d.valuation, n));
    a := AnalysisOn(b, d.valuation, n);
    forall id | id in a.assets
      ensures exists k :: 0 <= k < |b.members| && b.members[k].assetId == id
    {
      OnlyMembersShown(b, d.valuation, n, |b.members|, id);
    }
  }

  // ----- The orders -----

  /** The order that closes the gap between a member's target value and its value at the close: asked for when the
      member is tradable on the day and the gap is neither zero nor below the threshold. */
  ghost predicate ClosesGap(b: Backtest, f: State, d: Decision, day: nat, id: AssetId, o: PlannedOrder) {
    && HasBars(b, id, day) && id in f.positions
    && var price, nav := ClosingPrice(b, id, day), d.portfolio.snapshot.nav;
       && nav > 0.0 && price > 0.0 && (b.assets[id].assetClass.Crypto? || !b.series[id][day].stale)
       && var gap := ItemOr(d.output.targetWeights, id, 0.0) * nav - f.positions[id] * price;
          && Abs(gap) >= b.cfg.rebalanceThreshold * nav && gap != 0.0
          && o.assetId == id && o.side == (if gap > 0.0 then Buy else Sell)
          && o.estimatedPrice == price && o.quantity * price == Abs(gap)
  }

  /** The request that a decision makes, on the bars' own fields. */
  lemma RequestTerms(b: Backtest, f: State, day: nat) returns (r: Rebalance.Request)
    requires b.cfg.num.Exact() && DistinctMembers(b.members) && Decide(b, f, day).Success?
    ensures var d := Decide(b, f, day).value;
            && r.nav == d.portfolio.snapshot.nav && r.targetWeights == d.output.targetWeights
            && r.currentQuantities == f.positions && r.threshold == b.cfg.rebalanceThreshold
            && r.Priced() && Rebalance.Orders(b.cfg.num, r) == Success(d.orders)
    ensures |r.tradable| == |b.members|
    ensures forall k :: 0 <= k < |b.members| ==>
              var id := b.members[k].assetId;
              && HasBars(b, id, day) && id in f.positions
              && r.tradable[k] == (id, b.assets[id].assetClass)
              && id in r.prices && r.prices[id] == ClosingPrice(b, id, day)
              && id in r.isStale && r.isStale[id] == b.series[id][day].stale
  {
    DecisionParts(b, f, day);
    TradableFacts(b, |b.members|);
    ValuationTerms(b, f.positions, day, |b.members|);
    forall k | 0 <= k < |b.members|
      ensures var id := b.members[k].assetId;
              id in b.assets && TradableUpTo(b, |b.members|).value[k] == (id, b.assets[id].assetClass)
    {
      TradableClass(b, |b.members|, k);
    }
    var d := Decide(b, f, day).value;
    hide Decide, ValueUpTo, AnalysisUpTo, PlanOrders, TradableUpTo, Rebalance.Orders, WorthAtClose, SomeHeldStale,
         HasBars, ClosingPrice;
    r := RebalanceRequest(b, f, d.valuation, d.portfolio.snapshot.nav, d.output.targetWeights,
                          TradableUpTo(b, |b.members|).value);
  }

  /** The request asks for the order that closes this gap. */
  predicate AsksFor(r: Rebalance.Request, id: AssetId, class_: AssetClass, gap: real, o: PlannedOrder)
    requires id in r.prices
  {
    && r.prices[id] > 0.0 && (class_.Crypto? || !GetOr(r.isStale, id, false))
    && Abs(gap) >= r.threshold * r.nav && gap != 0.0
    && o.assetId == id && o.side == (if gap > 0.0 then Buy else Sell)
    && o.estimatedPrice == r.prices[id] && o.quantity * r.prices[id] == Abs(gap)
  }

  lemma OrderAsked(num: Decimals, r: Rebalance.Request, id: AssetId, class_: AssetClass, o: PlannedOrder)
    requires num.Exact() && id in r.prices
    ensures Rebalance.OrderFor(num, r, id, class_) == Some(o) <==> AsksFor(r, id, class_, Rebalance.Gap(r, id), o)
  {
    hide Decimals.Exact, Rebalance.OrderFor, Rebalance.Gap, Abs;
    Rebalance.OrderExactly(num, r, id, class_);
    var asked := Rebalance.OrderFor(num, r, id, class_);
    if asked.Some? {
      SameQuantity(asked.value.quantity, o.quantity, r.prices[id]);
    }
  }

  lemma OrderCloses(b: Backtest, f: State, day: nat, d: Decision, r: Rebalance.Request, k: nat, o: PlannedOrder)
    requires b.cfg.num.Exact() && k < |b.members| == |r.tradable| && r.nav == d.portfolio.snapshot.nav > 0.0
    requires r.targetWeights == d.output.targetWeights && r.currentQuantities == f.positions
    requires r.threshold == b.cfg.rebalanceThreshold
    requires var id := b.members[k].assetId;
             && HasBars(b, id, day) && id in f.positions
             && r.tradable[k] == (id, b.assets[id].assetClass)
             && id in r.prices && r.prices[id] == ClosingPrice(b, id, day)
             && id in r.isStale && r.isStale[id] == b.series[id][day].stale
    ensures Rebalance.OrderFor(b.cfg.num, r, r.tradable[k].0, r.tradable[k].1) == Some(o)
            <==> ClosesGap(b, f, d, day, b.members[k].assetId, o)
  {
    hide Decimals.Exact, HasBars, ClosingPrice, Rebalance.OrderFor;
    var id := b.members[k].assetId;
    OrderAsked(b.cfg.num, r, id, r.tradable[k].1, o);
    var gap := ItemOr(d.output.targetWeights, id, 0.0) * d.portfolio.snapshot.nav
               - f.positions[id] * ClosingPrice(b, id, day);
    assert Rebalance.Gap(r, id) == gap;
  }

  lemma SameQuantity(x: real, y: real, price: real)
    requires price > 0.0
    ensures x * price == y * price <==> x == y
  {
    if x * price == y * price {
      assert (x - y) * price == 0.0;
    }
  }

  /** Main result: in exact arithmetic the day's orders are exactly the closings of its gaps: an order is planned if and
      only if some member asks for it. */
  lemma OrdersCloseGaps(b: Backtest, f: State, day: nat, o: PlannedOrder)
    requires b.cfg.num.Exact() && DistinctMembers(b.members) && Decide(b, f, day).Success?
    ensures o in Decide(b, f, day).value.orders
            <==> exists k ::
                   0 <= k < |b.members| && ClosesGap(b, f, Decide(b, f, day).value, day, b.members[k].assetId, o)
  {
    var d := Decide(b, f, day).value;
    var r := RequestTerms(b, f, day);
    hide Decide, ClosesGap, HasBars, ClosingPrice, Decimals.Exact, Rebalance.OrderFor;
    if r.nav > 0.0 {
      Rebalance.OrdersUpToComplete(b.cfg.num, r, |r.tradable|, o);
      forall k | 0 <= k < |b.members|
        ensures Rebalance.OrderFor(b.cfg.num, r, r.tradable[k].0, r.tradable[k].1) == Some(o)
                <==> ClosesGap(b, f, d, day, b.members[k].assetId, o)
      {
        OrderCloses(b, f, day, d, r, k, o);
      }
    } else {
      NothingWithoutNav(b, f, d, day, o);
    }
  }

  lemma NothingWithoutNav(b: Backtest, f: State, d: Decision, day: nat, o: PlannedOrder)
    requires d.portfolio.snapshot.nav <= 0.0
    ensures forall id :: !ClosesGap(b, f, d, day, id, o)
  {
  }
}
