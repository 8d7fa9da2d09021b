/** A long-only run that goes short by rounding alone, in decimal arithmetic with 28 significant digits, the default
    precision of the code. A hundred buys at 6 the rounded sixth of it; at a close of 8 the value of that is rounded up,
    and the sell computed from the value is larger than the holding by one in the last digit. */
module RoundingShort {
  import opened Common
  import opened Domain
  import opened Engine
  import opened RunFacts
  import opened LongOnly
  import opened Alignment
  import Calendar
  import Indicators
  import Matching
  import NoLookAhead
  import Rebalance
  import Strategy

  // ----- Decimal arithmetic -----

  /** Ten to the number of digits. */
  const LIMIT: real := 10000000000000000000000000000.0

  /** The smallest unit. Every number from a hundredth on has its full 28 digits. */
  const SMALLEST: real := 0.000000000000000000000000000001

  const STEPS: nat := 60

  /** The unit in the last place: the first power of ten, from `unit` on, for which the digits suffice. */
  function Unit(x: real, unit: real, steps: nat): real
    decreases steps
  {
    if steps == 0 || x < LIMIT * unit then unit else Unit(x, 10.0 * unit, steps - 1)
  }

  /** The nearest multiple of a unit, the even one of two. */
  function Nearest(x: real, unit: real): real {
    if unit <= 0.0 then x
    else
      var k := (x / unit).Floor;
      var rest := x / unit - k as real;
      if rest < 0.5 || (rest == 0.5 && k % 2 == 0) then k as real * unit else (k + 1) as real * unit
  }

  /** Round half even. */
  function Round(x: real): real {
    if x < 0.0 then -Nearest(-x, Unit(-x, SMALLEST, STEPS)) else Nearest(x, Unit(x, SMALLEST, STEPS))
  }

  const DECIMAL := Decimals(
    (x, y) => Round(x + y),
    (x, y) => Round(x * y),
    (x, y) => if y == 0.0 then 0.0 else Round(x / y))

  lemma UnitSmall(x: real)
    requires x < 0.01
    ensures Unit(x, SMALLEST, STEPS) == SMALLEST
  {
  }

  lemma UnitUpTo(x: real, unit: real, steps: nat)
    requires steps > 0 && x >= LIMIT * unit
    ensures Unit(x, unit, steps) == Unit(x, 10.0 * unit, steps - 1)
  {
  }

  lemma UnitOfHundreds(x: real)
    requires 1.0 <= x < 1000.0
    ensures Unit(x, SMALLEST, STEPS)
         == if x < 10.0 then 0.000000000000000000000000001
            else if x < 100.0 then 0.00000000000000000000000001
            else 0.0000000000000000000000001
  {
    hide Unit;
    UnitUpTo(x, SMALLEST, STEPS);
    UnitUpTo(x, 0.00000000000000000000000000001, STEPS - 1);
    UnitUpTo(x, 0.0000000000000000000000000001, STEPS - 2);
    if x < 10.0 {
      UnitIs(x, 0.000000000000000000000000001, STEPS - 3);
    } else {
      UnitUpTo(x, 0.000000000000000000000000001, STEPS - 3);
      if x < 100.0 {
        UnitIs(x, 0.00000000000000000000000001, STEPS - 4);
      } else {
        UnitUpTo(x, 0.00000000000000000000000001, STEPS - 4);
        UnitIs(x, 0.0000000000000000000000001, STEPS - 5);
      }
    }
  }

  lemma UnitIs(x: real, unit: real, steps: nat)
    requires x < LIMIT * unit
    ensures Unit(x, unit, steps) == unit
  {
  }

  // ----- The numbers of the run -----

  const BOUGHT: real := 16.66666666666666666666666667

  const SOLD: real := 16.66666666666666666666666668

  const VALUE: real := 133.3333333333333333333333334

  const SHORT: real := -0.00000000000000000000000001

  lemma RoundZero()
    ensures Round(0.0) == 0.0
  {
    UnitSmall(0.0);
    hide Unit;
  }

  lemma RoundSmallWholes()
    ensures Round(1.0) == 1.0 && Round(6.0) == 6.0 && Round(8.0) == 8.0 && Round(100.0) == 100.0
  {
    UnitOfHundreds(1.0);
    UnitOfHundreds(6.0);
    UnitOfHundreds(8.0);
    UnitOfHundreds(100.0);
    hide Unit;
  }

  lemma RoundBuy()
    ensures Round(100.0 / 6.0) == BOUGHT && Round(BOUGHT) == BOUGHT && Round(BOUGHT * 6.0) == 100.0
  {
    UnitOfHundreds(100.0 / 6.0);
    UnitOfHundreds(BOUGHT);
    UnitOfHundreds(BOUGHT * 6.0);
    hide Unit;
  }

  lemma RoundSell()
    ensures Round(BOUGHT * 8.0) == VALUE && Round(VALUE) == VALUE && Round(-VALUE) == -VALUE
            && Round(VALUE / 8.0) == SOLD
    ensures Round(SOLD * 8.0) == VALUE
  {
    UnitOfHundreds(BOUGHT * 8.0);
    UnitOfHundreds(VALUE);
    UnitOfHundreds(VALUE / 8.0);
    UnitOfHundreds(SOLD * 8.0);
    hide Unit;
  }

  lemma RoundShort()
    ensures Round(BOUGHT - SOLD) == SHORT && Round(BOUGHT + -SOLD) == SHORT
  {
    UnitSmall(SOLD - BOUGHT);
    hide Unit;
  }

  // ----- The run -----

  const ASSET: AssetId := "equity:A"

  /** Tuesday, January 2, 2024. */
  const START := 738_887

  const RAW := [
    RawBar(START * DAY, 6.0, 6.0, 6.0, 6.0, 1.0),
    RawBar((START + 1) * DAY, 6.0, 8.0, 6.0, 8.0, 1.0),
    RawBar((START + 2) * DAY, 8.0, 8.0, 8.0, 8.0, 1.0)]

  const SERIES := [FreshBar(START, RAW[0]), FreshBar(START + 1, RAW[1]), FreshBar(START + 2, RAW[2])]

  function Row(i: nat): IndicatorBar
    requires i < 3
  {
    IndicatorBar(START + i, Indicators.ReturnAt(DECIMAL, SERIES, i), None, None, None, None, None, None,
                 Indicators.VolumeChangeAt(DECIMAL, SERIES, i), None, None)
  }

  /** Everything into the asset on the first day, everything out of it afterwards. */
  function InAndOut(a: Analysis, p: PortfolioState): Result<StrategyOutput> {
    Success(StrategyOutput(map[], [(if a.asOf == START then ASSET else Strategy.CashId("USD"), 1.0)]))
  }

  function Swing(): Backtest {
    Backtest(
      Config(START, 3, 100.0, "USD", 0.0, 0.0, 0.0, false, 0.0, DECIMAL),
      [Member(ASSET, Approved, None)],
      map[ASSET := Asset(Stock, "USD", Tradable)],
      map[ASSET := SERIES],
      map[ASSET := [Row(0), Row(1), Row(2)]],
      map[],
      map[],
      InAndOut,
      (i, p) => RiskCheckResult(true, [], []))
  }

  const BUY := PlannedOrder(ASSET, Buy, BOUGHT, 6.0)

  const SELL := PlannedOrder(ASSET, Sell, SOLD, 8.0)

  lemma OneTradable()
    ensures TradableUpTo(Swing(), 1) == Success([(ASSET, Stock)])
  {
    assert TradableUpTo(Swing(), 0) == Success([]);
  }

  function CloseOn(day: nat): real {
    if day == 0 then 6.0 else 8.0
  }

  lemma Valued(positions: map<AssetId, real>, day: nat)
    requires day < 3 && ASSET in positions
    ensures ValueUpTo(Swing(), positions, day, 1).Success?
    ensures var v := ValueUpTo(Swing(), positions, day, 1).value;
            && v.prices == map[ASSET := CloseOn(day)] && v.stale == map[ASSET := false]
            && v.positionsValue == (if positions[ASSET] == 0.0 then 0.0
                                    else Round(0.0 + Round(positions[ASSET] * CloseOn(day))))
            && AnalysisUpTo(Swing(), v, day, 1).Success?
  {
    hide Round;
    assert PriceAt(Swing(), ASSET, day, Close) == Success(Quote(CloseOn(day), None, None));
    assert ValueUpTo(Swing(), positions, day, 0) == Success(Valuation(map[], map[], map[], 0.0, true));
    hide AnalysisUpTo;
    Analysed(ValueUpTo(Swing(), positions, day, 1).value, day);
  }

  lemma Analysed(v: Valuation, day: nat)
    requires day < 3 && ASSET in v.prices
    ensures AnalysisUpTo(Swing(), v, day, 1).Success?
  {
    hide Round;
    assert AnalysisUpTo(Swing(), v, day, 0) == Success(map[]);
  }

  lemma PlannedBuy(r: Rebalance.Request)
    requires r.targetWeights == [(ASSET, 1.0)] && r.tradable == [(ASSET, Stock)] && r.threshold == 0.0
    requires r.prices == map[ASSET := 6.0] && r.isStale == map[ASSET := false]
    requires r.nav == 100.0 && r.currentQuantities == map[ASSET := 0.0]
    ensures r.Priced() && Rebalance.Orders(DECIMAL, r) == Success([BUY])
  {
    RoundZero();
    RoundSmallWholes();
    RoundBuy();
    hide Round;
    assert r.TargetWeight(ASSET) == 1.0 && r.Held(ASSET) == 0.0;
    assert Rebalance.OrderFor(DECIMAL, r, ASSET, Stock) == Some(BUY);
    assert Rebalance.OrdersUpTo(DECIMAL, r, 0) == [];
    assert Rebalance.OrdersUpTo(DECIMAL, r, 1) == [BUY];
  }

  lemma CashIsNoAsset()
    ensures Strategy.CashId("USD") != ASSET
  {
    assert Strategy.CashId("USD")[0] == 'c' && ASSET[0] == 'e';
  }

  lemma PlannedSell(r: Rebalance.Request)
    requires r.targetWeights == [(Strategy.CashId("USD"), 1.0)] && r.tradable == [(ASSET, Stock)] && r.threshold == 0.0
    requires r.prices == map[ASSET := 8.0] && r.isStale == map[ASSET := false]
    requires r.nav == VALUE && r.currentQuantities == map[ASSET := BOUGHT]
    ensures r.Priced() && Rebalance.Orders(DECIMAL, r) == Success([SELL])
  {
    RoundZero();
    RoundSell();
    hide Round;
    CashIsNoAsset();
    ItemAbsent(r.targetWeights, ASSET, 0.0);
    assert Rebalance.OrderFor(DECIMAL, r, ASSET, Stock) == Some(SELL);
    assert Rebalance.OrdersUpTo(DECIMAL, r, 0) == [];
    assert Rebalance.OrdersUpTo(DECIMAL, r, 1) == [SELL];
  }

  lemma FirstDecision(s: State)
    requires s.positions == map[ASSET := 0.0] && s.cash == 100.0
    ensures Decide(Swing(), s, 0).Success? && Decide(Swing(), s, 0).value.orders == [BUY]
  {
    var b := Swing();
    Valued(s.positions, 0);
    OneTradable();
    RoundSmallWholes();
    var v := ValueUpTo(b, s.positions, 0, 1).value;
    assert SnapshotAt(b, s, v, 0).nav == 100.0;
    hide ValueUpTo, AnalysisUpTo, TradableUpTo, Rebalance.Orders, Round;
    PlannedBuy(RebalanceRequest(b, s, v, 100.0, [(ASSET, 1.0)], [(ASSET, Stock)]));
  }

  lemma SecondDecision(s: State)
    requires s.positions == map[ASSET := BOUGHT] && s.cash == 0.0
    ensures Decide(Swing(), s, 1).Success? && Decide(Swing(), s, 1).value.orders == [SELL]
  {
    var b := Swing();
    Valued(s.positions, 1);
    OneTradable();
    RoundSell();
    var v := ValueUpTo(b, s.positions, 1, 1).value;
    hide Round;
    assert SnapshotAt(b, s, v, 1).nav == VALUE;
    hide ValueUpTo, AnalysisUpTo, TradableUpTo, Rebalance.Orders;
    PlannedSell(RebalanceRequest(b, s, v, VALUE, [(Strategy.CashId("USD"), 1.0)], [(ASSET, Stock)]));
  }

  lemma ThirdDecision(s: State)
    requires s.positions.Keys == {ASSET}
    ensures Decide(Swing(), s, 2).Success?
  {
    var b := Swing();
    Valued(s.positions, 2);
    OneTradable();
    hide ValueUpTo, AnalysisUpTo, TradableUpTo, Rebalance.OrdersUpTo;
  }

  lemma FlatAtStart()
    ensures ZeroPerMember(Swing().members) == map[ASSET := 0.0]
  {
    var b := Swing();
    assert b.members[0].assetId == ASSET;
    assert ZeroPerMember(b.members).Keys == {ASSET};
  }

  /** A day that starts with nothing queued but `order`, or nothing at all, and plans one order, queues that. */
  lemma QueuesOne(s: State, d: Decision, day: nat, order: PlannedOrder)
    requires day < 2 && s.pending == [] && s.context == map[] && d.orders == [order] && order.assetId == ASSET
    ensures var s' := ReviewUpTo(Swing(), s, d, day, 1);
            && s'.positions == s.positions && s'.averageCost == s.averageCost && s'.cash == s.cash
            && s'.pending == [order] && ASSET in s'.context
  {
    var b := Swing();
    assert ReviewUpTo(b, s, d, day, 0) == s;
    assert ReviewUpTo(b, s, d, day, 1) == ReviewOne(b, s, d, order, day);
    assert Review(b, d.portfolio, order) == (RiskCheckResult(true, [], []), order.quantity);
  }

  lemma FirstDay()
    ensures Ran(Swing(), 1)
    ensures var s := After(Swing(), 1);
            && s.positions == map[ASSET := 0.0] && s.averageCost == map[ASSET := 0.0] && s.cash == 100.0
            && s.pending == [BUY] && ASSET in s.context
  {
    var b, s := Swing(), Initial(Swing());
    FlatAtStart();
    assert ApplyPending(b, s, 0) == Success(s);
    FirstDecision(s);
    hide Decide, ApplyPending, ReviewUpTo;
    var d := Decide(b, s, 0).value;
    QueuesOne(Record(b, s, d), d, 0, BUY);
    assert RunTo(b, 0) == Success(s);
    assert DayStep(b, s, 0) == Success(ReviewUpTo(b, Record(b, s, d), d, 0, 1));
  }

  lemma BuyFills(s: State)
    requires s.positions == map[ASSET := 0.0] && s.averageCost == map[ASSET := 0.0] && s.cash == 100.0
             && ASSET in s.context
    ensures FillOne(Swing(), s, BUY, 1).Success?
    ensures var s' := FillOne(Swing(), s, BUY, 1).value;
            s'.positions == map[ASSET := BOUGHT] && s'.averageCost.Keys == {ASSET} && s'.cash == 0.0
  {
    var b := Swing();
    RoundZero();
    RoundSmallWholes();
    RoundBuy();
    hide Round;
    assert PriceAt(b, ASSET, 1, Open) == Success(Quote(6.0, None, None));
    assert Matching.ApplySlippage(DECIMAL, 6.0, Buy, 0.0) == Success(6.0);
    assert Matching.ComputeCommission(DECIMAL, 100.0, 0.0, 0.0) == Success(0.0);
  }

  lemma SellFills(s: State)
    requires s.positions == map[ASSET := BOUGHT] && s.averageCost.Keys == {ASSET} && s.cash == 0.0 && ASSET in s.context
    ensures FillOne(Swing(), s, SELL, 2).Success?
    ensures FillOne(Swing(), s, SELL, 2).value.positions == map[ASSET := SHORT]
  {
    var b := Swing();
    RoundZero();
    RoundSmallWholes();
    RoundSell();
    RoundShort();
    hide Round;
    assert PriceAt(b, ASSET, 2, Open) == Success(Quote(8.0, None, None));
    assert Matching.ApplySlippage(DECIMAL, 8.0, Sell, 0.0) == Success(8.0);
    assert Matching.ComputeCommission(DECIMAL, VALUE, 0.0, 0.0) == Success(0.0);
  }

  lemma OneFill(s: State, order: PlannedOrder, day: nat)
    requires s.pending == [order] && FillOne(Swing(), s, order, day).Success?
    ensures ApplyPending(Swing(), s, day)
            == Success(FillOne(Swing(), s, order, day).value.(pending := [], context := map[]))
  {
    var b := Swing();
    hide FillOne;
    assert FillUpTo(b, s, day, 0) == Success(s);
    assert FillUpTo(b, s, day, 1) == FillOne(b, s, order, day);
  }

  /** The second day buys at 6 and, after the close of 8, plans to sell more than it bought. */
  lemma SecondDay()
    ensures Ran(Swing(), 2)
    ensures var s := After(Swing(), 2);
            && s.positions == map[ASSET := BOUGHT] && s.averageCost.Keys == {ASSET} && s.cash == 0.0
            && s.pending == [SELL] && ASSET in s.context
  {
    hide FillOne, ApplyPending, ReviewUpTo, Decide, RunTo, Swing, Round;
    FirstDay();
    var s := After(Swing(), 1);
    BuyFills(s);
    OneFill(s, BUY, 1);
    var f := FillOne(Swing(), s, BUY, 1).value.(pending := [], context := map[]);
    assert ApplyPending(Swing(), s, 1) == Success(f);
    SecondDecision(f);
    var d := Decide(Swing(), f, 1).value;
    QueuesOne(Record(Swing(), f, d), d, 1, SELL);
    NoLookAhead.NextDay(Swing(), 1);
  }

  /** A long-only strategy with one member, and a run that completes and ends with a negative position, because the
      planned sell does not fit. */
  lemma RoundingGoesShort()
    ensures LongOnlyStrategy(Swing()) && DistinctMembers(Swing().members)
    ensures Ran(Swing(), 3) && FilledAt(Swing(), 2).positions == map[ASSET := SHORT] && SHORT < 0.0
    ensures !SellFits(DECIMAL, 0.0, VALUE, BOUGHT, 8.0)
  {
    hide *;
    ThirdDay();
    SellDoesNotFit();
    IsLongOnly();
    OneMember();
  }

  lemma OneMember()
    ensures DistinctMembers(Swing().members) && SHORT < 0.0
  {
  }

  /** The third day fills the sell. */
  lemma ThirdDay()
    ensures Ran(Swing(), 3) && FilledAt(Swing(), 2).positions == map[ASSET := SHORT]
  {
    hide FillOne, ApplyPending, ReviewUpTo, Decide, RunTo, Swing, Round;
    SecondDay();
    var s := After(Swing(), 2);
    SellFills(s);
    OneFill(s, SELL, 2);
    var f := FillOne(Swing(), s, SELL, 2).value.(pending := [], context := map[]);
    assert ApplyPending(Swing(), s, 2) == Success(f);
    ThirdDecision(f);
    NoLookAhead.NextDay(Swing(), 2);
  }

  lemma SellDoesNotFit()
    ensures !SellFits(DECIMAL, 0.0, VALUE, BOUGHT, 8.0)
  {
    RoundZero();
    RoundSell();
    hide Round;
    assert DECIMAL.Sub(DECIMAL.mul(0.0, VALUE), DECIMAL.mul(BOUGHT, 8.0)) == -VALUE;
    assert DECIMAL.div(VALUE, 8.0) == SOLD;
  }

  lemma IsLongOnly()
    ensures LongOnlyStrategy(Swing())
  {
    var b := Swing();
    forall a: Analysis, p: PortfolioState, id: AssetId | b.strategy(a, p).Success?
      ensures ItemOr(b.strategy(a, p).value.targetWeights, id, 0.0) >= 0.0
    {
      assert b.strategy(a, p) == InAndOut(a, p);
      WeightsNotNegative(a, p, id);
    }
  }

  lemma WeightsNotNegative(a: Analysis, p: PortfolioState, id: AssetId)
    ensures InAndOut(a, p).Success? && ItemOr(InAndOut(a, p).value.targetWeights, id, 0.0) >= 0.0
  {
    var w := InAndOut(a, p).value.targetWeights;
    assert |w| == 1 && w[0].1 == 1.0 && w[..0] == [];
  }

  // ----- The input is one that can be loaded -----

  /** The series is what alignment makes of three bars that the service accepts, and the indicators are its own. */
  lemma SwingIsLoaded()
    ensures forall i :: 0 <= i < 3 ==> ValidPrices(RAW[i])
    ensures Align(Stock, START, START + 2, RAW) == Success(SERIES)
    ensures NoLookAhead.IndicatorsComputed(Swing(), None)
  {
    Aligned();
    RowsAreComputed();
    hide Indicators.IndicatorsAt, Align, Round;
    var b := Swing();
    assert b.members[0].assetId == ASSET;
    assert b.indicators.Keys == {ASSET};
  }

  lemma RowsAreComputed()
    ensures forall i :: 0 <= i < 3 ==> Indicators.IndicatorsAt(DECIMAL, SERIES, SERIES, i) == Success(Row(i))
  {
    hide Round;
  }

  lemma NothingAligned(raw: seq<RawBar>)
    ensures AlignUpTo(Stock, START, raw, 0) == Success([])
  {
  }

  lemma BarsFound()
    ensures BarOn(RAW, START) == Some(RAW[0]) && BarOn(RAW, START + 1) == Some(RAW[1])
            && BarOn(RAW, START + 2) == Some(RAW[2])
  {
    assert RAW[..3] == RAW && RAW[..0] == [];
    assert DateOf(RAW[0].openTime) == START && DateOf(RAW[1].openTime) == START + 1
           && DateOf(RAW[2].openTime) == START + 2;
    forall i, day | 0 <= i < 3 && START <= day <= START + 2
      ensures BarOn(RAW[..i + 1], day)
           == if DateOf(RAW[i].openTime) == day
              && (BarOn(RAW[..i], day).None? || RAW[i].openTime > BarOn(RAW[..i], day).value.openTime)
              then Some(RAW[i]) else BarOn(RAW[..i], day)
    {
      BarOnStep(RAW, i, day);
    }
    assert BarOn(RAW[..0], START).None? && BarOn(RAW[..0], START + 1).None? && BarOn(RAW[..0], START + 2).None?;
  }

  lemma Aligned()
    ensures Align(Stock, START, START + 2, RAW) == Success(SERIES)
  {
    hide BarOn, Calendar.IsTradingDay, AlignUpTo;
    BarsFound();
    NothingAligned(RAW);
    var one, two := [FreshBar(START, RAW[0])], [FreshBar(START, RAW[0]), FreshBar(START + 1, RAW[1])];
    assert BarOn(RAW, START) == Some(RAW[0]) && [] + one == one;
    AlignStep(Stock, START, RAW, 0);
    assert BarOn(RAW, START + 1) == Some(RAW[1]) && one + [FreshBar(START + 1, RAW[1])] == two;
    AlignStep(Stock, START, RAW, 1);
    assert BarOn(RAW, START + 2) == Some(RAW[2]) && two + [FreshBar(START + 2, RAW[2])] == SERIES;
    AlignStep(Stock, START, RAW, 2);
  }
}
