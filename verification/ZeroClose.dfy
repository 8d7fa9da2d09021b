/** A correct run that the reconciler reports: everything is bought after the first day, and on the second the asset
    falls from its open to a close of zero. The position is there, its recorded value is zero, and check 6 cannot
    tell that from no position. */
module ZeroClose {
  import opened Common
  import opened Domain
  import opened Engine
  import opened RunFacts
  import opened Alignment
  import Calendar
  import Indicators
  import NoLookAhead
  import Reconciliation
  import ReconciledRuns
  import Rebalance
  import Matching

  const ASSET: AssetId := "equity:A"

  const EXACT := Decimals((x, y) => x + y, (x, y) => x * y, (x, y) => if y == 0.0 then 0.0 else x / y)

  /** Tuesday, January 2, 2024. */
  const START := 738_887

  const FIRST := RawBar(START * DAY, 1.0, 1.0, 1.0, 1.0, 1.0)

  const SECOND := RawBar((START + 1) * DAY, 1.0, 1.0, 0.0, 0.0, 1.0)

  const SERIES := [FreshBar(START, FIRST), FreshBar(START + 1, SECOND)]

  const ROWS := [
    IndicatorBar(START, None, None, None, None, None, None, None, None, None, None),
    IndicatorBar(START + 1, Some(-1.0), None, None, None, None, None, None, Some(0.0), None, None)]

  const ALL_IN := StrategyOutput(map[], [(ASSET, 1.0)])

  /** Two days, ten in cash, no costs: the asset opens at 1 on both days, closes at 1 and then at 0. */
  function Crash(): Backtest {
    Backtest(
      Config(START, 2, 10.0, "USD", 0.0, 0.0, 0.0, false, 0.0, EXACT),
      [Member(ASSET, Approved, None)],
      map[ASSET := Asset(Stock, "USD", Tradable)],
      map[ASSET := SERIES],
      map[ASSET := ROWS],
      map[],
      map[],
      (a, p) => Success(ALL_IN),
      (i, p) => RiskCheckResult(true, [], []))
  }

  // ----- The input is one that can be loaded -----

  /** The series is what alignment makes of two bars that the service accepts, and the indicators are its own. */
  lemma CrashIsLoaded()
    ensures ValidPrices(FIRST) && ValidPrices(SECOND)
    ensures Align(Stock, START, START + 1, [FIRST, SECOND]) == Success(SERIES)
    ensures NoLookAhead.IndicatorsComputed(Crash(), None)
  {
    Aligned();
    FirstRow();
    SecondRow();
    hide Indicators.IndicatorsAt, Align;
    var b := Crash();
    assert b.members[0].assetId == ASSET;
    assert b.indicators.Keys == {ASSET};
  }

  lemma Aligned()
    ensures Align(Stock, START, START + 1, [FIRST, SECOND]) == Success(SERIES)
  {
    hide BarOn, Calendar.IsTradingDay, AlignUpTo;
    BarsFound();
    var raw, first := [FIRST, SECOND], [FreshBar(START, FIRST)];
    NothingAligned(raw);
    assert BarOn(raw, START) == Some(FIRST) && [] + first == first;
    AlignStep(Stock, START, raw, 0);
    assert BarOn(raw, START + 1) == Some(SECOND) && first + [FreshBar(START + 1, SECOND)] == SERIES;
    AlignStep(Stock, START, raw, 1);
  }

  lemma NothingAligned(raw: seq<RawBar>)
    ensures AlignUpTo(Stock, START, raw, 0) == Success([])
  {
  }

  lemma BarsFound()
    ensures BarOn([FIRST, SECOND], START) == Some(FIRST)
    ensures BarOn([FIRST, SECOND], START + 1) == Some(SECOND)
  {
    var raw := [FIRST, SECOND];
    assert DateOf(FIRST.openTime) == START && DateOf(SECOND.openTime) == START + 1;
    assert raw[..2] == raw && raw[..1] == [FIRST] && raw[..0] == [];
    BarOnStep(raw, 0, START);
    BarOnStep(raw, 0, START + 1);
    BarOnStep(raw, 1, START);
    BarOnStep(raw, 1, START + 1);
  }

  lemma FirstRow()
    ensures Indicators.IndicatorsAt(EXACT, SERIES, SERIES, 0) == Success(ROWS[0])
  {
  }

  lemma SecondRow()
    ensures Indicators.IndicatorsAt(EXACT, SERIES, SERIES, 1) == Success(ROWS[1])
  {
    assert Indicators.ReturnAt(EXACT, SERIES, 1) == Some(-1.0);
    assert Indicators.VolumeChangeAt(EXACT, SERIES, 1) == Some(0.0);
  }

  // ----- The run -----

  const QUEUED := PlannedOrder(ASSET, Buy, 10.0, 1.0)

  lemma OneTradable()
    ensures TradableUpTo(Crash(), 1) == Success([(ASSET, Stock)])
  {
    assert TradableUpTo(Crash(), 0) == Success([]);
  }

  lemma Valued(positions: map<AssetId, real>, day: nat, close: real)
    requires day < 2 && ASSET in positions && close == if day == 0 then 1.0 else 0.0
    ensures ValueUpTo(Crash(), positions, day, 1).Success?
    ensures var v := ValueUpTo(Crash(), positions, day, 1).value;
            && v.prices == map[ASSET := close] && v.stale == map[ASSET := false] && v.fxRates == map[]
            && v.positionsValue == positions[ASSET] * close
            && AnalysisUpTo(Crash(), v, day, 1).Success?
  {
    assert ValueUpTo(Crash(), positions, day, 0) == Success(Valuation(map[], map[], map[], 0.0, true));
    var v := ValueUpTo(Crash(), positions, day, 1).value;
    assert AnalysisUpTo(Crash(), v, day, 0) == Success(map[]);
  }

  /** With ten in cash and nothing held, all of it is to be bought at 1; without NAV nothing is. */
  lemma Planned(r: Rebalance.Request)
    requires r.targetWeights == [(ASSET, 1.0)] && r.tradable == [(ASSET, Stock)] && r.threshold == 0.0
    requires r.prices.Keys == {ASSET} && r.isStale == map[ASSET := false]
    requires r.nav == 0.0 || (r.nav == 10.0 && r.currentQuantities == map[ASSET := 0.0] && r.prices[ASSET] == 1.0)
    ensures r.Priced() && Rebalance.Orders(EXACT, r) == Success(if r.nav == 0.0 then [] else [QUEUED])
  {
    if r.nav != 0.0 {
      assert r.TargetWeight(ASSET) == 1.0 && r.Held(ASSET) == 0.0;
      assert Rebalance.OrderFor(EXACT, r, ASSET, Stock) == Some(QUEUED);
      assert Rebalance.OrdersUpTo(EXACT, r, 0) == [];
      assert Rebalance.OrdersUpTo(EXACT, r, 1) == [QUEUED];
    }
  }

  lemma Decided(s: State, day: nat, close: real)
    requires day < 2 && s.positions.Keys == {ASSET} && close == if day == 0 then 1.0 else 0.0
    requires (day == 0 && s.positions[ASSET] == 0.0 && s.cash == 10.0) || (day == 1 && s.cash == 0.0)
    ensures Decide(Crash(), s, day).Success?
    ensures var d := Decide(Crash(), s, day).value;
            && d.valuation.prices == map[ASSET := close] && d.output == ALL_IN
            && d.orders == if day == 0 then [QUEUED] else []
  {
    var b := Crash();
    Valued(s.positions, day, close);
    OneTradable();
    var v := ValueUpTo(b, s.positions, day, 1).value;
    var nav := SnapshotAt(b, s, v, day).nav;
    assert nav == if day == 0 then 10.0 else 0.0;
    assert day == 0 ==> s.positions == map[ASSET := 0.0];
    hide ValueUpTo, AnalysisUpTo, TradableUpTo, Rebalance.Orders;
    Planned(RebalanceRequest(b, s, v, nav, ALL_IN.targetWeights, [(ASSET, Stock)]));
  }

  lemma FlatAtStart()
    ensures ZeroPerMember(Crash().members) == map[ASSET := 0.0]
  {
    var b := Crash();
    assert b.members[0].assetId == ASSET;
    assert ZeroPerMember(b.members).Keys == {ASSET};
  }

  lemma FirstDay()
    ensures Ran(Crash(), 1)
    ensures var s := After(Crash(), 1);
            && s.positions == map[ASSET := 0.0] && s.averageCost == map[ASSET := 0.0] && s.cash == 10.0
            && s.pending == [QUEUED] && s.context == map[ASSET := Context(None, START)]
  {
    var b, s := Crash(), Initial(Crash());
    FlatAtStart();
    assert ApplyPending(b, s, 0) == Success(s);
    Decided(s, 0, 1.0);
    hide Decide, ApplyPending;
    var d := Decide(b, s, 0).value;
    var recorded := Record(b, s, d);
    assert ReviewUpTo(b, recorded, d, 0, 0) == recorded;
    assert ReviewUpTo(b, recorded, d, 0, 1) == ReviewOne(b, recorded, d, QUEUED, 0);
    assert RunTo(b, 0) == Success(s);
    assert DayStep(b, s, 0) == Success(ReviewUpTo(b, recorded, d, 0, 1));
  }

  lemma SecondFill(s: State)
    requires s.positions == map[ASSET := 0.0] && s.averageCost == map[ASSET := 0.0] && s.cash == 10.0
    requires s.context == map[ASSET := Context(None, START)]
    ensures FillOne(Crash(), s, QUEUED, 1).Success?
    ensures var s' := FillOne(Crash(), s, QUEUED, 1).value;
            s'.positions == map[ASSET := 10.0] && s'.cash == 0.0
  {
    var b := Crash();
    assert PriceAt(b, ASSET, 1, Open) == Success(Quote(1.0, None, None));
    assert Matching.ApplySlippage(EXACT, 1.0, Buy, 0.0) == Success(1.0);
    assert Matching.ComputeCommission(EXACT, 10.0, 0.0, 0.0) == Success(0.0);
  }

  /** The second day fills at 1 and closes at 0. */
  lemma SecondDay()
    ensures Ran(Crash(), 2)
    ensures FilledAt(Crash(), 1).positions == map[ASSET := 10.0]
    ensures DecisionOn(Crash(), 1).valuation.prices == map[ASSET := 0.0]
  {
    FirstDay();
    var b := Crash();
    var s := After(b, 1);
    SecondFill(s);
    assert FillUpTo(b, s, 1, 0) == Success(s);
    assert FillUpTo(b, s, 1, 1) == FillOne(b, s, QUEUED, 1);
    hide FillOne, FillUpTo;
    var f := ApplyPending(b, s, 1).value;
    Decided(f, 1, 0.0);
    hide Decide, ApplyPending;
    assert DayStep(b, s, 1).Success?;
  }

  /** The reconciler reports this run: ten replayed on the second day, nothing of value recorded. */
  lemma ZeroCloseIsReported()
    ensures Run(Crash()).Success? && DistinctMembers(Crash().members)
    ensures Reconciliation.IsDiscrepancy(
              EXACT, Run(Crash()).value,
              Reconciliation.Discrepancy(START + 1, Reconciliation.ZeroConsistency(ASSET), 10.0, 0.0))
  {
    var b := Crash();
    SecondDay();
    hide RunTo;
    var r := Run(b).value;
    var x := Reconciliation.Discrepancy(START + 1, Reconciliation.ZeroConsistency(ASSET), 10.0, 0.0);
    assert ReconciledRuns.Worthless(EXACT, FilledAt(b, 1).positions, DecisionOn(b, 1).valuation.prices, ASSET);
    hide FilledAt, DecisionOn, Run, ReconciledRuns.Worthless, Reconciliation.IsDiscrepancy;
    ReconciledRuns.SnapshotsInOrder(b, r);
    ReconciledRuns.RunIssues(b, r, x);
    assert ReconciledRuns.ReportOn(b, r, 1, x);
  }
}
