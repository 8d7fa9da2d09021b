/** What a run of the rule-based strategy orders on a signal. */
module SimpleOrders {
  import opened Common
  import opened Domain
  import opened Engine
  import opened RunFacts
  import opened LongOnly
  import opened FillTerms
  import opened DecisionTerms
  import opened StrategyLaws
  import SimpleRuns
  import Strategy

  /** The strategy's view of a member on a decided day. */
  lemma ViewOf(b: Backtest, f: State, day: nat, k: nat)
    requires b.cfg.num.Exact() && DistinctMembers(b.members) && Decide(b, f, day).Success? && k < |b.members|
    ensures var d, id := Decide(b, f, day).value, b.members[k].assetId;
            && AnalysisUpTo(b, d.valuation, day, |b.members|).Success?
            && b.strategy(AnalysisOn(b, d.valuation, day), d.portfolio) == Success(d.output)
            && HasBars(b, id, day) && id in b.indicators && day < |b.indicators[id]| && id in f.positions
            && Seen(AnalysisOn(b, d.valuation, day), id) == Some(Shown(b, id, day))
            && d.portfolio.members == b.members && d.portfolio.baseCurrency == b.cfg.baseCurrency
            && id in d.portfolio.positions && d.portfolio.positions[id].quantity == f.positions[id]
  {
    DecisionParts(b, f, day);
    ValuationTerms(b, f.positions, day, |b.members|);
    var d := Decide(b, f, day).value;
    hide Decide, ValueUpTo, WorthAtClose, SomeHeldStale, HasBars, ClosingPrice, PlanOrders;
    AnalysisTerms(b, d.valuation, day, |b.members|);
  }

  /** In a run of the strategy each member is targeted at what it is meant to weigh. */
  lemma TargetOfDay(b: Backtest, f: State, day: nat, k: nat)
    requires SimpleRuns.SimpleSetup(b) && Decide(b, f, day).Success? && k < |b.members|
    ensures var d := Decide(b, f, day).value;
            && AnalysisUpTo(b, d.valuation, day, |b.members|).Success?
            && d.portfolio.members == b.members
            && var a := AnalysisOn(b, d.valuation, day);
               ItemOr(d.output.targetWeights, b.members[k].assetId, 0.0)
               == InProportion(MeantOf(a, d.portfolio, k), MeantTotal(a, d.portfolio, |b.members|))
  {
    ViewOf(b, f, day, k);
    hide Decide, MeantOf, MeantTotal, Strategy.GenerateTargets, InProportion, HasBars;
    var d := Decide(b, f, day).value;
    TargetsAreMeant(b.cfg.num, AnalysisOn(b, d.valuation, day), d.portfolio, k);
  }

  /** Two points more against a member than for it. */
  predicate SellSignal(a: AssetAnalysis) {
    Known(Some(a)) && Strategy.Bearish(a) >= Strategy.Bullish(a) + 2
  }

  lemma MeantToGo(a: Analysis, p: PortfolioState, k: nat)
    requires k < |p.members| && p.snapshot.nav > 0.0
    requires var id := p.members[k].assetId;
             && id in a.assets && SellSignal(a.assets[id]) && a.assets[id].close > 0.0
             && id in p.positions && p.positions[id].quantity >= 0.0
    ensures MeantOf(a, p, k) == 0.0
  {
    var id := p.members[k].assetId;
    WorthNotNegative(p.positions[id].quantity, a.assets[id].close, p.snapshot.nav);
    hide Strategy.Bearish, Strategy.Bullish, Worth;
  }

  lemma WorthNotNegative(quantity: real, price: real, nav: real)
    requires quantity >= 0.0 && price > 0.0 && nav > 0.0
    ensures Worth(quantity, price) >= 0.0 && Worth(quantity, price) / nav >= 0.0
  {
    var worth := Worth(quantity, price);
    var q := worth / nav;
    assert q * nav == worth;
  }

  /** A held member with a sell signal, tradable at the day's close, and worth no less than the threshold. */
  predicate DueToSell(b: Backtest, f: State, d: Decision, day: nat, k: nat)
    requires k < |b.members|
  {
    var id, nav := b.members[k].assetId, d.portfolio.snapshot.nav;
    && HasBars(b, id, day) && id in b.indicators && day < |b.indicators[id]| && SellSignal(Shown(b, id, day))
    && (b.assets[id].assetClass.Crypto? || !b.series[id][day].stale)
    && id in f.positions && f.positions[id] > 0.0 && ClosingPrice(b, id, day) > 0.0
    && nav > 0.0 && Worth(f.positions[id], ClosingPrice(b, id, day)) >= b.cfg.rebalanceThreshold * nav
  }

  lemma DecidesToSell(b: Backtest, f: State, day: nat, k: nat)
    requires SimpleRuns.SimpleSetup(b) && Decide(b, f, day).Success? && k < |b.members|
    requires DueToSell(b, f, Decide(b, f, day).value, day, k)
    ensures HasBars(b, b.members[k].assetId, day) && b.members[k].assetId in f.positions
    ensures var id := b.members[k].assetId;
            PlannedOrder(id, Sell, f.positions[id], ClosingPrice(b, id, day)) in Decide(b, f, day).value.orders
  {
    hide Decide, SellSignal, HasBars, ClosingPrice, AnalysisUpTo, MeantTotal, MeantOf;
    TargetOfDay(b, f, day, k);
    ViewOf(b, f, day, k);
    var d, id := Decide(b, f, day).value, b.members[k].assetId;
    MeantToGo(AnalysisOn(b, d.valuation, day), d.portfolio, k);
    NoShare(MeantTotal(AnalysisOn(b, d.valuation, day), d.portfolio, |b.members|));
    var o := PlannedOrder(id, Sell, f.positions[id], ClosingPrice(b, id, day));
    GoesEntirely(b, f, d, day, id, o);
    hide ClosesGap, Worth, InProportion;
    OrdersCloseGaps(b, f, day, o);
  }

  lemma NoShare(total: real)
    ensures InProportion(0.0, total) == 0.0
  {
  }

  /** Main result: in a run of the strategy, on a day with positive NAV, a held member with a sell signal, whose bar
      is fresh (or which is crypto) and whose worth is not under the threshold, gets a planned sell of its whole
      holding. */
  lemma SellSignalSellsAll(b: Backtest, n: nat, k: nat)
    requires SimpleRuns.SimpleSetup(b) && Ran(b, n + 1) && k < |b.members|
    requires DueToSell(b, FilledAt(b, n), DecisionOn(b, n), n, k)
    ensures HasBars(b, b.members[k].assetId, n) && b.members[k].assetId in FilledAt(b, n).positions
    ensures var id := b.members[k].assetId;
            PlannedOrder(id, Sell, FilledAt(b, n).positions[id], ClosingPrice(b, id, n)) in DecisionOn(b, n).orders
  {
    hide Ran, FilledAt, DecisionOn, Decide, DueToSell, SimpleRuns.SimpleSetup, HasBars, ClosingPrice;
    DayDecision(b, n);
    DecidesToSell(b, FilledAt(b, n), n, k);
  }

  lemma GoesEntirely(b: Backtest, f: State, d: Decision, day: nat, id: AssetId, o: PlannedOrder)
    requires HasBars(b, id, day) && id in f.positions && f.positions[id] > 0.0 && ClosingPrice(b, id, day) > 0.0
    requires b.assets[id].assetClass.Crypto? || !b.series[id][day].stale
    requires ItemOr(d.output.targetWeights, id, 0.0) == 0.0 && d.portfolio.snapshot.nav > 0.0
    requires Worth(f.positions[id], ClosingPrice(b, id, day)) >= b.cfg.rebalanceThreshold * d.portfolio.snapshot.nav
    requires o == PlannedOrder(id, Sell, f.positions[id], ClosingPrice(b, id, day))
    ensures ClosesGap(b, f, d, day, id, o)
  {
    var price := ClosingPrice(b, id, day);
    hide HasBars, ClosingPrice;
    assert f.positions[id] * price > 0.0;
    assert 0.0 * d.portfolio.snapshot.nav == 0.0;
  }
}
