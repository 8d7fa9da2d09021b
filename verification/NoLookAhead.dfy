/** No look-ahead: what a run has done after n days is a function of the market data of those
    n days. A theorem about two runs, for any arithmetic, strategy and risk policy. */
module NoLookAhead {
  import opened Common
  import opened Domain
  import opened Engine
  import opened RunFacts
  import Rebalance
  import Indicators
  import RunCompletes
  import SimpleRuns

  /** Two data sets that cannot be told apart before day n. */
  ghost predicate SameBefore<T(!new)>(x: map<string, seq<T>>, y: map<string, seq<T>>, n: nat) {
    forall key, day: nat :: day < n ==> At(x, key, day) == At(y, key, day)
  }

  /** The same backtest, on market data that agree before day n; only the end date may differ. */
  ghost predicate AgreeBefore(b: Backtest, c: Backtest, n: nat) {
    && c.cfg == b.cfg.(days := c.cfg.days)
    && c.members == b.members && c.assets == b.assets && c.precision == b.precision
    && c.strategy == b.strategy && c.risk == b.risk
    && SameBefore(b.series, c.series, n)
    && SameBefore(b.indicators, c.indicators, n)
    && SameBefore(b.fx, c.fx, n)
  }

  lemma SamePrice(b: Backtest, c: Backtest, n: nat, id: AssetId, day: nat, field: Field)
    requires AgreeBefore(b, c, n) && day < n
    ensures PriceAt(b, id, day, field) == PriceAt(c, id, day, field)
  {
    assert At(b.series, id, day) == At(c.series, id, day);
    if id in b.assets {
      assert At(b.fx, b.assets[id].quoteCurrency, day) == At(c.fx, c.assets[id].quoteCurrency, day);
    }
  }

  lemma SameFill(b: Backtest, c: Backtest, n: nat, s: State, p: PlannedOrder, day: nat)
    requires AgreeBefore(b, c, n) && day < n
    ensures FillOne(b, s, p, day) == FillOne(c, s, p, day)
  {
    SamePrice(b, c, n, p.assetId, day, Open);
    hide PriceAt, AgreeBefore, Matching.RoundToLot;
    SameBook(b, c, n, s, p);
  }

  lemma SameBook(b: Backtest, c: Backtest, n: nat, s: State, p: PlannedOrder)
    requires AgreeBefore(b, c, n)
    ensures c.cfg.startDate == b.cfg.startDate
    ensures forall price, date, seqNo, context ::
            SimulateFill(b, p, price, date, seqNo, context) == SimulateFill(c, p, price, date, seqNo, context)
    ensures forall f :: Book(b, s, p, f) == Book(c, s, p, f)
  {
  }

  lemma {:induction false} SameFills(b: Backtest, c: Backtest, n: nat, s: State, day: nat, k: nat)
    requires AgreeBefore(b, c, n) && day < n && k <= |s.pending|
    ensures FillUpTo(b, s, day, k) == FillUpTo(c, s, day, k)
  {
    hide FillOne, AgreeBefore;
    if k > 0 {
      SameFills(b, c, n, s, day, k - 1);
      if FillUpTo(b, s, day, k - 1).Success? {
        SameFill(b, c, n, FillUpTo(b, s, day, k - 1).value, s.pending[k - 1], day);
      }
    }
  }

  lemma {:induction false} SameValuation(b: Backtest, c: Backtest, n: nat, positions: map<AssetId, real>, day: nat,
                                         k: nat)
    requires AgreeBefore(b, c, n) && day < n && k <= |b.members|
    ensures ValueUpTo(b, positions, day, k) == ValueUpTo(c, positions, day, k)
  {
    if k > 0 {
      SameValuation(b, c, n, positions, day, k - 1);
      var id := b.members[k - 1].assetId;
      SamePrice(b, c, n, id, day, Close);
      assert At(b.series, id, day) == At(c.series, id, day);
      hide PriceAt, At;
    }
  }

  lemma {:induction false} SameAnalysis(b: Backtest, c: Backtest, n: nat, v: Valuation, day: nat, k: nat)
    requires AgreeBefore(b, c, n) && day < n && k <= |b.members|
    ensures AnalysisUpTo(b, v, day, k) == AnalysisUpTo(c, v, day, k)
  {
    if k > 0 {
      SameAnalysis(b, c, n, v, day, k - 1);
      var id := b.members[k - 1].assetId;
      assert At(b.series, id, day) == At(c.series, id, day);
      assert At(b.indicators, id, day) == At(c.indicators, id, day);
      hide At;
    }
  }

  lemma {:induction false} SameTradable(b: Backtest, c: Backtest, n: nat, k: nat)
    requires AgreeBefore(b, c, n) && k <= |b.members|
    ensures TradableUpTo(b, k) == TradableUpTo(c, k)
  {
    if k > 0 {
      SameTradable(b, c, n, k - 1);
    }
  }

  /** Neither or both of the runs end within the first n days. */
  predicate SameEnd(b: Backtest, c: Backtest, n: nat) {
    c.cfg.days == b.cfg.days || (n < b.cfg.days && n < c.cfg.days)
  }

  lemma SameConfiguration(b: Backtest, c: Backtest, n: nat)
    requires AgreeBefore(b, c, n)
    ensures c.cfg == b.cfg.(days := c.cfg.days)
    ensures c.members == b.members && c.assets == b.assets && c.strategy == b.strategy && c.risk == b.risk
  {
  }

  lemma SamePlan(b: Backtest, c: Backtest, n: nat, s: State, v: Valuation, nav: real, weights: Items<real>)
    requires AgreeBefore(b, c, n)
    ensures PlanOrders(b, s, v, nav, weights) == PlanOrders(c, s, v, nav, weights)
  {
    hide AgreeBefore;
    SameConfiguration(b, c, n);
    SameTradable(b, c, n, |b.members|);
    hide TradableUpTo, Rebalance.Orders;
  }

  lemma SameView(b: Backtest, c: Backtest, n: nat, s: State, v: Valuation, day: nat)
    requires AgreeBefore(b, c, n)
    ensures SnapshotAt(b, s, v, day) == SnapshotAt(c, s, v, day)
    ensures PortfolioAt(b, s, SnapshotAt(b, s, v, day)) == PortfolioAt(c, s, SnapshotAt(c, s, v, day))
  {
    hide AgreeBefore;
    SameConfiguration(b, c, n);
  }

  lemma SameDecision(b: Backtest, c: Backtest, n: nat, s: State, day: nat)
    requires AgreeBefore(b, c, n) && day < n
    ensures Decide(b, s, day) == Decide(c, s, day)
  {
    hide AgreeBefore;
    SameConfiguration(b, c, n);
    SameValuation(b, c, n, s.positions, day, |b.members|);
    hide ValueUpTo, AnalysisUpTo, PlanOrders, SnapshotAt, PortfolioAt;
    var v := ValueUpTo(b, s.positions, day, |b.members|);
    if v.Success? {
      SameAnalysis(b, c, n, v.value, day, |b.members|);
      SameView(b, c, n, s, v.value, day);
      var nav := SnapshotAt(b, s, v.value, day).nav;
      forall weights
        ensures PlanOrders(b, s, v.value, nav, weights) == PlanOrders(c, s, v.value, nav, weights)
      {
        SamePlan(b, c, n, s, v.value, nav, weights);
      }
    }
  }

  lemma {:induction false} SameShrink(b: Backtest, c: Backtest, portfolio: PortfolioState, p: PlannedOrder,
                                      quantity: real, result: RiskCheckResult, attempts: nat)
    requires c.risk == b.risk && c.cfg.num == b.cfg.num
    ensures Shrink(b, portfolio, p, quantity, result, attempts) == Shrink(c, portfolio, p, quantity, result, attempts)
    decreases attempts
  {
    if attempts > 0 {
      var candidate := b.cfg.num.div(quantity, 2.0);
      SameShrink(b, c, portfolio, p, candidate, b.risk(IntentOf(p, candidate), portfolio), attempts - 1);
    }
  }

  lemma SameVerdict(b: Backtest, c: Backtest, portfolio: PortfolioState, p: PlannedOrder)
    requires c.risk == b.risk && c.cfg.num == b.cfg.num
    ensures Review(b, portfolio, p) == Review(c, portfolio, p)
  {
    SameShrink(b, c, portfolio, p, p.quantity, b.risk(IntentOf(p, p.quantity), portfolio), SHRINK_ATTEMPTS);
  }

  lemma {:induction false} SameReview(b: Backtest, c: Backtest, s: State, d: Decision, day: nat, k: nat)
    requires c.risk == b.risk && c.cfg == b.cfg.(days := c.cfg.days) && k <= |d.orders|
    requires day + 1 == b.cfg.days <==> day + 1 == c.cfg.days
    ensures ReviewUpTo(b, s, d, day, k) == ReviewUpTo(c, s, d, day, k)
  {
    hide ReviewOne;
    if k > 0 {
      SameReview(b, c, s, d, day, k - 1);
      SameReviewOne(b, c, ReviewUpTo(b, s, d, day, k - 1), d, d.orders[k - 1], day);
    }
  }

  lemma SameReviewOne(b: Backtest, c: Backtest, s: State, d: Decision, p: PlannedOrder, day: nat)
    requires c.risk == b.risk && c.cfg == b.cfg.(days := c.cfg.days)
    requires day + 1 == b.cfg.days <==> day + 1 == c.cfg.days
    ensures ReviewOne(b, s, d, p, day) == ReviewOne(c, s, d, p, day)
  {
    SameVerdict(b, c, d.portfolio, p);
    hide Review;
  }

  lemma SameDay(b: Backtest, c: Backtest, n: nat, s: State, day: nat)
    requires AgreeBefore(b, c, n) && SameEnd(b, c, n) && day < n
    ensures DayStep(b, s, day) == DayStep(c, s, day)
  {
    SameFills(b, c, n, s, day, |s.pending|);
    assert ApplyPending(b, s, day) == ApplyPending(c, s, day);
    var filled := ApplyPending(b, s, day);
    if filled.Success? {
      SameDecision(b, c, n, filled.value, day);
      var d := Decide(b, filled.value, day);
      if d.Success? {
        SameConfiguration(b, c, n);
        assert Record(b, filled.value, d.value) == Record(c, filled.value, d.value);
        SameReview(b, c, Record(b, filled.value, d.value), d.value, day, |d.value.orders|);
      }
    }
    hide FillUpTo, Decide, ReviewUpTo, ApplyPending, Record, AgreeBefore;
  }

  /** Main result: two runs whose data agree before day n are in the same state after n days --
      equity curve, daily detail, trade log, positions, cash and queued orders -- or have
      failed with the same error. */
  lemma {:induction false} NoLookAhead(b: Backtest, c: Backtest, m: nat, n: nat)
    requires AgreeBefore(b, c, n) && SameEnd(b, c, n) && m <= n
    ensures RunTo(b, m) == RunTo(c, m)
  {
    hide DayStep, AgreeBefore;
    if m == 0 {
      SameConfiguration(b, c, n);
    } else {
      NoLookAhead(b, c, m - 1, n);
      if RunTo(b, m - 1).Success? {
        SameDay(b, c, n, RunTo(b, m - 1).value, m - 1);
      }
    }
  }

  /** What the two finished results share: everything recorded in the first n days. */
  lemma SharedHistory(b: Backtest, c: Backtest, n: nat, r: BacktestResult, q: BacktestResult)
    requires AgreeBefore(b, c, n) && SameEnd(b, c, n) && n <= b.cfg.days && n <= c.cfg.days && Run(b) == Success(r)
             && Run(c) == Success(q)
    ensures Ran(b, n) && |After(b, n).equity| == |After(b, n).detail| == n
    ensures After(b, n).equity <= r.equityCurve && After(b, n).equity <= q.equityCurve
    ensures After(b, n).detail <= r.dailyDetail && After(b, n).detail <= q.dailyDetail
    ensures After(b, n).trades <= r.trades && After(b, n).trades <= q.trades
  {
    HistoryIsFinal(b, n, b.cfg.days);
    HistoryIsFinal(c, n, c.cfg.days);
    NoLookAhead(b, c, n, n);
    Gapless(b, n);
  }

  /** From equal states, a day succeeds or fails alike whatever the end date: reviewing never fails. */
  lemma SameFailure(b: Backtest, c: Backtest, n: nat, s: State)
    requires AgreeBefore(b, c, n + 1)
    ensures DayStep(b, s, n).Success? <==> DayStep(c, s, n).Success?
    ensures DayStep(b, s, n).Failure? ==> DayStep(c, s, n) == DayStep(b, s, n)
  {
    hide AgreeBefore, FillUpTo, Decide, ReviewUpTo, Record;
    SameFills(b, c, n + 1, s, n, |s.pending|);
    var filled := ApplyPending(b, s, n);
    assert ApplyPending(c, s, n) == filled;
    if filled.Success? {
      SameDecision(b, c, n + 1, filled.value, n);
    }
  }

  lemma NextDay(b: Backtest, n: nat)
    ensures RunTo(b, n + 1) == if RunTo(b, n).Success? then DayStep(b, RunTo(b, n).value, n) else RunTo(b, n)
  {
    hide DayStep;
  }

  /** A backtest that ends earlier completes if and only if the longer one gets that far, and otherwise fails with the
      same error. */
  lemma EarlierEndCompletes(b: Backtest, c: Backtest)
    requires AgreeBefore(b, c, c.cfg.days) && 0 < c.cfg.days <= b.cfg.days
    ensures Run(c).Success? <==> Ran(b, c.cfg.days)
    ensures Run(c).Failure? ==> RunTo(b, c.cfg.days) == Failure(Run(c).error)
  {
    hide RunTo, DayStep, AgreeBefore, ResultOf;
    var n := c.cfg.days - 1;
    PrefixAgrees(b, c, n);
    NoLookAhead(b, c, n, n);
    NextDay(b, n);
    NextDay(c, n);
    if RunTo(b, n).Success? {
      SameFailure(b, c, n, RunTo(b, n).value);
    }
  }

  /** Main result: ending a backtest earlier does not rewrite its history. It completes if and only if the longer run
      gets that far, with the same error otherwise; and up to the earlier end, curve, detail, fills, cash and positions
      are those of the longer run. */
  lemma EarlierEndSameHistory(b: Backtest, c: Backtest)
    requires AgreeBefore(b, c, c.cfg.days) && 0 < c.cfg.days <= b.cfg.days
    ensures Run(c).Success? <==> Ran(b, c.cfg.days)
    ensures Run(c).Failure? ==> RunTo(b, c.cfg.days) == Failure(Run(c).error)
    ensures Run(c).Success? ==>
              var s, r := After(b, c.cfg.days), Run(c).value;
              && s.equity == r.equityCurve && s.detail == r.dailyDetail && s.cash == r.finalCash
                 && s.positions == r.finalPositions
              && FilledAt(b, c.cfg.days - 1).trades <= s.trades && FilledAt(b, c.cfg.days - 1).trades <= r.trades
  {
    EarlierEndCompletes(b, c);
    if Run(c).Success? {
      EarlierEndHistory(b, c);
    }
  }

  lemma EarlierEndHistory(b: Backtest, c: Backtest)
    requires AgreeBefore(b, c, c.cfg.days) && 0 < c.cfg.days <= b.cfg.days && Ran(b, c.cfg.days) && Run(c).Success?
    ensures var s, r := After(b, c.cfg.days), Run(c).value;
            && s.equity == r.equityCurve && s.detail == r.dailyDetail && s.cash == r.finalCash
               && s.positions == r.finalPositions
            && FilledAt(b, c.cfg.days - 1).trades <= s.trades && FilledAt(b, c.cfg.days - 1).trades <= r.trades
  {
    var n := c.cfg.days - 1;
    RanEarlier(b, n, n + 1);
    RanEarlier(c, n, n + 1);
    assert Ran(c, n + 1);
    PrefixAgrees(b, c, n);
    NoLookAhead(b, c, n, n);
    DayEffect(b, n);
    DayEffect(c, n);
    SameFilled(b, c, n);
    hide RunTo, DayStep, Decide, FillUpTo, ReviewUpTo, AgreeBefore;
  }

  lemma PrefixAgrees(b: Backtest, c: Backtest, n: nat)
    requires AgreeBefore(b, c, n + 1)
    ensures AgreeBefore(b, c, n)
  {
  }

  /** From equal states, a day's fills and decision are equal whatever the end date. */
  lemma SameFilled(b: Backtest, c: Backtest, n: nat)
    requires AgreeBefore(b, c, n + 1) && Ran(b, n + 1) && Ran(c, n + 1) && RunTo(b, n) == RunTo(c, n)
    ensures FilledAt(b, n) == FilledAt(c, n) && DecisionOn(b, n) == DecisionOn(c, n)
    ensures DetailOf(b, FilledAt(b, n), DecisionOn(b, n)) == DetailOf(c, FilledAt(c, n), DecisionOn(c, n))
  {
    DayParts(b, n);
    DayParts(c, n);
    SameConfiguration(b, c, n + 1);
    hide RunTo, DayStep, Decide, ReviewUpTo, AgreeBefore, FillUpTo;
    SameFills(b, c, n + 1, After(b, n), n, |After(b, n).pending|);
    SameDecision(b, c, n + 1, FilledAt(b, n), n);
  }

  // ----- From raw series to the engine's inputs -----

  /** The indicators are those of the loaded series, against the benchmark when there is one. */
  ghost predicate IndicatorsComputed(b: Backtest, benchmark: Option<AssetId>) {
    && b.indicators.Keys == (set k | 0 <= k < |b.members| :: b.members[k].assetId)
    && forall id :: id in b.indicators ==>
         && id in b.series && BenchmarkFor(benchmark, id) in b.series
         && |b.indicators[id]| == |b.series[id]| == |b.series[BenchmarkFor(benchmark, id)]| == b.cfg.days
         && forall i :: 0 <= i < b.cfg.days ==>
              Indicators.IndicatorsAt(b.cfg.num, b.series[id], b.series[BenchmarkFor(benchmark, id)], i)
                == Success(b.indicators[id][i])
  }

  function BenchmarkFor(benchmark: Option<AssetId>, id: AssetId): AssetId {
    if benchmark.Some? then benchmark.value else id
  }

  lemma SamePrefix(x: map<string, seq<AlignedBar>>, y: map<string, seq<AlignedBar>>, n: nat, id: AssetId, i: nat)
    requires SameBefore(x, y, n) && i < n && id in x && id in y && i < |x[id]| && i < |y[id]|
    ensures x[id][..i + 1] == y[id][..i + 1]
  {
    forall k | 0 <= k < i + 1
      ensures x[id][k] == y[id][k]
    {
      assert At(x, id, k) == At(y, id, k);
    }
  }

  /** Indicators of series that agree before day n agree before day n. */
  lemma SameIndicators(b: Backtest, c: Backtest, benchmark: Option<AssetId>, n: nat)
    requires IndicatorsComputed(b, benchmark) && IndicatorsComputed(c, benchmark)
    requires b.members == c.members && b.cfg.num == c.cfg.num && n <= b.cfg.days && n <= c.cfg.days
    requires SameBefore(b.series, c.series, n)
    ensures SameBefore(b.indicators, c.indicators, n)
  {
    hide SameBefore, Indicators.IndicatorsAt;
    forall id, i: nat | i < n
      ensures At(b.indicators, id, i) == At(c.indicators, id, i)
    {
      if id in b.indicators {
        var bench := BenchmarkFor(benchmark, id);
        SamePrefix(b.series, c.series, n, id, i);
        SamePrefix(b.series, c.series, n, bench, i);
        Indicators.IndicatorsLookBackOnly(b.cfg.num, b.series[id], c.series[id], b.series[bench], c.series[bench], i);
      }
    }
    SameBeforeFromAt(b.indicators, c.indicators, n);
  }

  lemma SameBeforeFromAt<T(!new)>(x: map<string, seq<T>>, y: map<string, seq<T>>, n: nat)
    requires forall key, day: nat :: day < n ==> At(x, key, day) == At(y, key, day)
    ensures SameBefore(x, y, n)
  {
  }

  /** Main result, from the loaded series on: prices, benchmark and FX rates from day n on cannot
      influence anything the engine did before day n. */
  lemma FutureDataIsIrrelevant(b: Backtest, c: Backtest, benchmark: Option<AssetId>, n: nat)
    requires c == b.(series := c.series, indicators := c.indicators, fx := c.fx)
    requires IndicatorsComputed(b, benchmark) && IndicatorsComputed(c, benchmark) && n <= b.cfg.days
    requires SameBefore(b.series, c.series, n) && SameBefore(b.fx, c.fx, n)
    ensures RunTo(b, n) == RunTo(c, n)
  {
    SameIndicators(b, c, benchmark, n);
    NoLookAhead(b, c, n, n);
  }

  // ----- The first 19 days -----

  lemma NoAverageBeforeTwentiethBar(num: Decimals, asset: seq<AlignedBar>, benchmark: seq<AlignedBar>, i: nat)
    requires i < |asset| == |benchmark| && Indicators.IndicatorsAt(num, asset, benchmark, i).Success?
    ensures Indicators.IndicatorsAt(num, asset, benchmark, i).value.ma20.None? <==> i < 19
  {
    hide Indicators.CloseSum, Indicators.RsiAt, Indicators.PricePositionAt, Indicators.AtrAt,
         Indicators.RelativeStrengthAt;
  }

  /** Main result: with the rule-based strategy no asset is bought on a decision before its 20th bar. */
  lemma NoBuyBeforeTwentiethBar(b: Backtest, benchmark: Option<AssetId>, day: nat, o: PlannedOrder)
    requires SimpleRuns.SimpleSetup(b) && IndicatorsComputed(b, benchmark)
    requires Ran(b, day + 1) && day < 19 && day < b.cfg.days && o in DecisionOn(b, day).orders
    ensures o.side.Sell?
  {
    hide RunTo, DecisionOn, FilledAt, SimpleRuns.SimpleSetup, Indicators.IndicatorsAt;
    DayParts(b, day);
    DecidedOnMember(b, day, o);
    var k :| 0 <= k < |b.members| && b.members[k].assetId == o.assetId;
    NoAverageBeforeTwentiethBar(b.cfg.num, b.series[o.assetId], b.series[BenchmarkFor(benchmark, o.assetId)], day);
    SimpleRuns.ShortHistoryNotBought(b, day, k, o);
  }

  lemma DecidedOnMember(b: Backtest, day: nat, o: PlannedOrder)
    requires SimpleRuns.SimpleSetup(b) && Ran(b, day + 1) && o in DecisionOn(b, day).orders
    ensures RunCompletes.IsMember(b, o.assetId)
  {
    hide RunTo, DayStep, Decide;
    DayParts(b, day);
    RunCompletes.OrderOnMember(b, FilledAt(b, day), day, o);
  }
}
