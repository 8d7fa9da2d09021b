/** The day loop of the event-driven backtest (backend/application/backtest/engine.py).

    The first half gives the loop as a state machine: `RunTo(b, n)` is the state after the
    first n days, or the exception that stopped the run. The second half is the loop
    itself, proved to compute that machine. Strategy and risk policy are arbitrary
    deterministic functions here. */
module Engine {
  import opened Common
  import opened Domain
  import opened Matching
  import Rebalance

  datatype Config = Config(
    startDate: int,
    days: nat,
    initialCash: real,
    baseCurrency: Currency,
    commissionPct: real,
    minCommission: real,
    slippagePct: real,
    restrictedPrecision: bool,
    rebalanceThreshold: real,
    num: Decimals)

  type Strategy = (Analysis, PortfolioState) -> Result<StrategyOutput>
  type RiskPolicy = (OrderIntent, PortfolioState) -> RiskCheckResult

  /** What `_run_day_loop` works on: configuration, universe and the loaded market data. */
  datatype Backtest = Backtest(
    cfg: Config,
    members: seq<Member>,
    assets: map<AssetId, Asset>,
    series: map<AssetId, seq<AlignedBar>>,
    indicators: map<AssetId, seq<IndicatorBar>>,
    fx: map<Currency, seq<AlignedBar>>,
    precision: map<AssetId, Option<Precision>>,
    strategy: Strategy,
    risk: RiskPolicy)

  /** What is remembered of a queued order's decision: its score and its day. */
  datatype Context = Context(score: Option<real>, decisionDate: int)

  datatype State = State(
    positions: map<AssetId, real>,
    averageCost: map<AssetId, real>,
    cash: real,
    pending: seq<PlannedOrder>,
    context: map<AssetId, Context>,
    equity: seq<Snapshot>,
    detail: seq<DailyDetail>,
    trades: seq<TradeRecord>,
    seqNo: nat)

  const SHRINK_ATTEMPTS: nat := 8

  // ----- Prices -----

  datatype Field = Open | Close

  datatype Quote = Quote(price: real, fxStale: Option<bool>, fxRate: Option<real>)

  function At<T>(m: map<string, seq<T>>, key: string, day: nat): Result<T> {
    var xs :- Lookup(m, key);
    if day < |xs| then Success(xs[day]) else Failure(KeyError)
  }

  function PriceOf(bar: AlignedBar, field: Field): real {
    if field.Open? then bar.open else bar.close
  }

  /** `_price_and_status_at`: the native price, converted when the asset quotes in another currency. */
  function PriceAt(b: Backtest, id: AssetId, day: nat, field: Field): Result<Quote> {
    var bar :- At(b.series, id, day);
    var asset :- Lookup(b.assets, id);
    if asset.quoteCurrency == b.cfg.baseCurrency then Success(Quote(PriceOf(bar, field), None, None))
    else
      var fxBar :- At(b.fx, asset.quoteCurrency, day);
      var rate := PriceOf(fxBar, field);
      Success(Quote(b.cfg.num.mul(PriceOf(bar, field), rate), Some(fxBar.stale), Some(rate)))
  }

  // ----- Step (a): fills -----

  datatype Fill = Fill(record: TradeRecord, positionDelta: real, cashDelta: real)

  function Skipped(p: PlannedOrder, status: TradeStatus, seqNo: nat, c: Context, tradeDate: Option<int>): TradeRecord {
    TradeRecord(seqNo, p.assetId, p.side, status, p.quantity, 0.0, None, 0.0, 0.0, c.score, [], c.decisionDate,
                tradeDate)
  }

  /** The quantity that precision mode lets through, or the status it is skipped with. */
  datatype Sized = Sized(quantity: real) | NotSized(status: TradeStatus)

  function SizeFill(b: Backtest, p: PlannedOrder): Result<Sized> {
    if !b.cfg.restrictedPrecision then Success(Sized(p.quantity))
    else
      match GetOr(b.precision, p.assetId, None)
      case None => Success(NotSized(SkippedPrecisionUnavailable))
      case Some(precision) =>
        var r :- RoundToLot(b.cfg.num, p.quantity, precision.lotSize, precision.minQuantity);
        if r.fillable then Success(Sized(r.quantity)) else Success(NotSized(SkippedMinQuantity))
  }

  /** `_simulate_fill`. */
  function SimulateFill(b: Backtest, p: PlannedOrder, executionPrice: real, tradeDate: int, seqNo: nat,
                        c: Context): Result<Fill> {
    var sized :- SizeFill(b, p);
    match sized
    case NotSized(status) => Success(Fill(Skipped(p, status, seqNo, c, Some(tradeDate)), 0.0, 0.0))
    case Sized(quantity) =>
      var num := b.cfg.num;
      var fillPrice :- ApplySlippage(num, executionPrice, p.side, b.cfg.slippagePct);
      var notional := num.mul(quantity, fillPrice);
      var commission :- ComputeCommission(num, notional, b.cfg.commissionPct, b.cfg.minCommission);
      var slippage := num.mul(Abs(num.Sub(fillPrice, executionPrice)), quantity);
      var record := TradeRecord(seqNo, p.assetId, p.side, Filled, p.quantity, quantity, Some(fillPrice),
                                commission, slippage, c.score, [], c.decisionDate, Some(tradeDate));
      if p.side.Buy? then Success(Fill(record, quantity, -num.add(notional, commission)))
      else Success(Fill(record, -quantity, num.Sub(notional, commission)))
  }

  /** Bookkeeping of one simulated fill: log it and, when it filled, move cash, position and cost. */
  function Book(b: Backtest, s: State, p: PlannedOrder, f: Fill): Result<State> {
    var logged := s.(trades := s.trades + [f.record], seqNo := f.record.seqNo);
    if !f.record.status.Filled? || f.record.fillPrice.None? then Success(logged)
    else
      var num := b.cfg.num;
      var oldQuantity :- Lookup(s.positions, p.assetId);
      var newQuantity := num.add(oldQuantity, f.positionDelta);
      var oldCost :- Lookup(s.averageCost, p.assetId);
      var cost :- if p.side.Buy? then
                    num.Divide(num.add(num.mul(oldQuantity, oldCost),
                                       num.mul(f.positionDelta, f.record.fillPrice.value)), newQuantity)
                  else Success(oldCost);
      Success(logged.(
                cash := num.add(s.cash, f.cashDelta),
                positions := s.positions[p.assetId := newQuantity],
                averageCost := s.averageCost[p.assetId := if newQuantity == 0.0 then 0.0 else cost]))
  }

  function FillOne(b: Backtest, s: State, p: PlannedOrder, day: nat): Result<State> {
    var quote :- PriceAt(b, p.assetId, day, Open);
    var c :- Lookup(s.context, p.assetId);
    var f :- SimulateFill(b, p, quote.price, b.cfg.startDate + day, s.seqNo + 1, c);
    Book(b, s, p, f)
  }

  /** The first n queued orders, executed at today's open. */
  function FillUpTo(b: Backtest, s: State, day: nat, n: nat): Result<State>
    requires n <= |s.pending|
  {
    if n == 0 then Success(s)
    else
      var before :- FillUpTo(b, s, day, n - 1);
      FillOne(b, before, s.pending[n - 1], day)
  }

  function ApplyPending(b: Backtest, s: State, day: nat): Result<State> {
    var filled :- FillUpTo(b, s, day, |s.pending|);
    Success(filled.(pending := [], context := map[]))
  }

  // ----- Step (b): valuation at the close -----

  datatype Valuation = Valuation(
    prices: map<AssetId, real>,
    stale: map<AssetId, bool>,
    fxRates: map<Currency, real>,
    positionsValue: real,
    allFresh: bool)

  function ValueOne(b: Backtest, positions: map<AssetId, real>, day: nat, v: Valuation,
                    id: AssetId): Result<Valuation> {
    var bar :- At(b.series, id, day);
    var quote :- PriceAt(b, id, day, Close);
    var quantity :- Lookup(positions, id);
    var currency := b.assets[id].quoteCurrency;
    var rates := if quote.fxRate.Some? then v.fxRates[currency := quote.fxRate.value] else v.fxRates;
    var held := quantity != 0.0;
    Success(Valuation(
              v.prices[id := quote.price],
              v.stale[id := bar.stale],
              rates,
              if held then b.cfg.num.add(v.positionsValue, b.cfg.num.mul(quantity, quote.price)) else v.positionsValue,
              v.allFresh && (held ==> !bar.stale && quote.fxStale != Some(true))))
  }

  function ValueUpTo(b: Backtest, positions: map<AssetId, real>, day: nat, n: nat): Result<Valuation>
    requires n <= |b.members|
  {
    if n == 0 then Success(Valuation(map[], map[], map[], 0.0, true))
    else
      var before :- ValueUpTo(b, positions, day, n - 1);
      ValueOne(b, positions, day, before, b.members[n - 1].assetId)
  }

  /** The per-asset breakdown of the first n members, for every nonzero position. */
  function PositionValues(num: Decimals, members: seq<Member>, positions: map<AssetId, real>,
                          prices: map<AssetId, real>, n: nat): Items<real>
    requires n <= |members|
  {
    if n == 0 then []
    else
      var before := PositionValues(num, members, positions, prices, n - 1);
      var id := members[n - 1].assetId;
      if GetOr(positions, id, 0.0) != 0.0
      then Put(before, id, num.mul(GetOr(positions, id, 0.0), GetOr(prices, id, 0.0)))
      else before
  }

  function SnapshotAt(b: Backtest, s: State, v: Valuation, day: nat): Snapshot {
    Snapshot(b.cfg.startDate + day, v.positionsValue, s.cash, b.cfg.num.add(v.positionsValue, s.cash), !v.allFresh)
  }

  // ----- Step (c): strategy -----

  function AnalysisUpTo(b: Backtest, v: Valuation, day: nat, n: nat): Result<map<AssetId, AssetAnalysis>>
    requires n <= |b.members|
  {
    if n == 0 then Success(map[])
    else
      var before :- AnalysisUpTo(b, v, day, n - 1);
      var id := b.members[n - 1].assetId;
      var bar :- At(b.series, id, day);
      var indicators :- At(b.indicators, id, day);
      var close :- Lookup(v.prices, id);
      var asset :- Lookup(b.assets, id);
      Success(before[id := AssetAnalysis(indicators, close, bar.stale, asset.tradingStatus)])
  }

  function PortfolioAt(b: Backtest, s: State, snapshot: Snapshot): PortfolioState {
    PortfolioState(
      b.cfg.baseCurrency,
      b.members,
      map id | id in s.positions :: Position(s.positions[id], GetOr(s.averageCost, id, 0.0)),
      snapshot)
  }

  /** `tradable_asset_ids`: the asset class of every member, in member order. */
  function TradableUpTo(b: Backtest, n: nat): Result<Items<AssetClass>>
    requires n <= |b.members|
  {
    if n == 0 then Success([])
    else
      var before :- TradableUpTo(b, n - 1);
      var asset :- Lookup(b.assets, b.members[n - 1].assetId);
      Success(Put(before, b.members[n - 1].assetId, asset.assetClass))
  }

  /** What is known when the day's orders are decided. */
  datatype Decision = Decision(
    valuation: Valuation,
    portfolio: PortfolioState,
    output: StrategyOutput,
    orders: seq<PlannedOrder>)

  function RebalanceRequest(b: Backtest, s: State, v: Valuation, nav: real, weights: Items<real>,
                            tradable: Items<AssetClass>): Rebalance.Request {
    Rebalance.Request(weights, s.positions, v.prices, nav, tradable, v.stale, b.cfg.rebalanceThreshold)
  }

  /** The day's planned orders from the strategy's weights. */
  function PlanOrders(b: Backtest, s: State, v: Valuation, nav: real, weights: Items<real>): Result<seq<PlannedOrder>> {
    var tradable :- TradableUpTo(b, |b.members|);
    var request := RebalanceRequest(b, s, v, nav, weights, tradable);
    if !request.Priced() then Failure(KeyError) else Rebalance.Orders(b.cfg.num, request)
  }

  /** Steps (b) to (d) up to the planned orders, on the state after today's fills. */
  function Decide(b: Backtest, s: State, day: nat): Result<Decision> {
    var v :- ValueUpTo(b, s.positions, day, |b.members|);
    var snapshot := SnapshotAt(b, s, v, day);
    var assets :- AnalysisUpTo(b, v, day, |b.members|);
    var portfolio := PortfolioAt(b, s, snapshot);
    var output :- b.strategy(Analysis(b.cfg.startDate + day, assets), portfolio);
    var orders :- PlanOrders(b, s, v, snapshot.nav, output.targetWeights);
    Success(Decision(v, portfolio, output, orders))
  }

  function DetailOf(b: Backtest, s: State, d: Decision): DailyDetail {
    DailyDetail(
      d.portfolio.snapshot.valuationDate,
      d.output.targetWeights,
      PositionValues(b.cfg.num, b.members, s.positions, d.valuation.prices, |b.members|),
      d.valuation.fxRates)
  }

  // ----- Step (d): risk review -----

  function IntentOf(p: PlannedOrder, quantity: real): OrderIntent {
    OrderIntent(p.assetId, p.side, quantity, p.estimatedPrice)
  }

  /** `_shrink_buy_to_approved`: halve until approved, at most `attempts` times. */
  function Shrink(b: Backtest, portfolio: PortfolioState, p: PlannedOrder, quantity: real, result: RiskCheckResult,
                  attempts: nat): (RiskCheckResult, real)
    decreases attempts
  {
    if attempts == 0 || result.approved then (result, quantity)
    else
      var candidate := b.cfg.num.div(quantity, 2.0);
      if candidate <= 0.0 then (result, quantity)
      else Shrink(b, portfolio, p, candidate, b.risk(IntentOf(p, candidate), portfolio), attempts - 1)
  }

  /** The verdict on a planned order, and the size it was given for. */
  function Review(b: Backtest, portfolio: PortfolioState, p: PlannedOrder): (RiskCheckResult, real) {
    var first := b.risk(IntentOf(p, p.quantity), portfolio);
    if first.approved || p.side.Sell? then (first, p.quantity)
    else Shrink(b, portfolio, p, p.quantity, first, SHRINK_ATTEMPTS)
  }

  function ScoreOf(output: StrategyOutput, id: AssetId): Option<real> {
    if id in output.scores then Some(output.scores[id]) else None
  }

  function ReviewOne(b: Backtest, s: State, d: Decision, p: PlannedOrder, day: nat): State {
    var (verdict, quantity) := Review(b, d.portfolio, p);
    var score := ScoreOf(d.output, p.assetId);
    var date := b.cfg.startDate + day;
    var seqNo := s.seqNo + 1;
    if !verdict.approved then
      s.(seqNo := seqNo,
         trades := s.trades + [TradeRecord(seqNo, p.assetId, p.side, Rejected, p.quantity, 0.0, None, 0.0, 0.0, score,
                                           verdict.rejections, date, None)])
    else
      var approved := p.(quantity := quantity);
      if day + 1 == b.cfg.days then
        s.(seqNo := seqNo,
           trades := s.trades + [Skipped(approved, SkippedNoNextDay, seqNo, Context(score, date), None)])
      else
        s.(seqNo := seqNo,
           pending := s.pending + [approved],
           context := s.context[p.assetId := Context(score, date)])
  }

  function ReviewUpTo(b: Backtest, s: State, d: Decision, day: nat, n: nat): State
    requires n <= |d.orders|
  {
    if n == 0 then s else ReviewOne(b, ReviewUpTo(b, s, d, day, n - 1), d, d.orders[n - 1], day)
  }

  /** The state once the day's snapshot and detail are recorded. */
  function Record(b: Backtest, s: State, d: Decision): State {
    s.(equity := s.equity + [d.portfolio.snapshot], detail := s.detail + [DetailOf(b, s, d)])
  }

  // ----- The run -----

  function DayStep(b: Backtest, s: State, day: nat): Result<State> {
    var filled :- ApplyPending(b, s, day);
    var d :- Decide(b, filled, day);
    Success(ReviewUpTo(b, Record(b, filled, d), d, day, |d.orders|))
  }

  function ZeroPerMember(members: seq<Member>): map<AssetId, real> {
    map i | 0 <= i < |members| :: members[i].assetId := 0.0
  }

  function Initial(b: Backtest): State {
    State(ZeroPerMember(b.members), ZeroPerMember(b.members), b.cfg.initialCash, [], map[], [], [], [], 0)
  }

  /** The state after the first n days. */
  function RunTo(b: Backtest, n: nat): Result<State> {
    if n == 0 then Success(Initial(b))
    else
      match RunTo(b, n - 1)
      case Failure(error) => Failure(error)
      case Success(s) => DayStep(b, s, n - 1)
  }

  function ResultOf(b: Backtest, s: State): BacktestResult {
    BacktestResult(b.cfg.startDate + b.cfg.days - 1, b.cfg.initialCash, s.equity, s.trades, s.positions, s.cash,
                   s.detail)
  }

  function Run(b: Backtest): Result<BacktestResult> {
    var s :- RunTo(b, b.cfg.days);
    Success(ResultOf(b, s))
  }

  // ----- The loop -----

  /** `_shrink_buy_to_approved`, as the source's bounded loop. */
  method ShrinkBuyToApproved(b: Backtest, portfolio: PortfolioState, p: PlannedOrder, initial: RiskCheckResult)
    returns (result: RiskCheckResult, quantity: real)
    ensures (result, quantity) == Shrink(b, portfolio, p, p.quantity, initial, SHRINK_ATTEMPTS)
  {
    quantity, result := p.quantity, initial;
    for attempt := 0 to SHRINK_ATTEMPTS
      invariant Shrink(b, portfolio, p, quantity, result, SHRINK_ATTEMPTS - attempt)
             == Shrink(b, portfolio, p, p.quantity, initial, SHRINK_ATTEMPTS)
    {
      if result.approved {
        return;
      }
      var candidate := b.cfg.num.div(quantity, 2.0);
      if candidate <= 0.0 {
        return;
      }
      quantity := candidate;
      result := b.risk(OrderIntent(p.assetId, p.side, quantity, p.estimatedPrice), portfolio);
    }
  }

  /** Step (a) of one day. */
  method FillPending(b: Backtest, start: State, day: nat) returns (r: Result<State>)
    ensures r == ApplyPending(b, start, day)
  {
    hide FillOne;
    var s := start;
    for i := 0 to |start.pending|
      invariant FillUpTo(b, start, day, i) == Success(s)
    {
      var planned := start.pending[i];
      var step := FillOne(b, s, planned, day);
      if step.Failure? {
        FillFailureSticks(b, start, day, i + 1, |start.pending|);
        return step;
      }
      s := step.value;
    }
    return Success(s.(pending := [], context := map[]));
  }

  lemma {:induction false} FillFailureSticks(b: Backtest, s: State, day: nat, m: nat, n: nat)
    requires m <= n <= |s.pending| && FillUpTo(b, s, day, m).Failure?
    ensures FillUpTo(b, s, day, n) == FillUpTo(b, s, day, m)
    decreases n
  {
    if m < n {
      FillFailureSticks(b, s, day, m, n - 1);
    }
  }

  lemma ReviewNone(b: Backtest, s: State, d: Decision, day: nat)
    ensures ReviewUpTo(b, s, d, day, 0) == s
  {
  }

  lemma ReviewNext(b: Backtest, s: State, d: Decision, day: nat, n: nat)
    requires n < |d.orders|
    ensures ReviewUpTo(b, s, d, day, n + 1) == ReviewOne(b, ReviewUpTo(b, s, d, day, n), d, d.orders[n], day)
  {
  }

  lemma ReviewParts(b: Backtest, portfolio: PortfolioState, p: PlannedOrder)
    ensures var first := b.risk(IntentOf(p, p.quantity), portfolio);
            Review(b, portfolio, p)
            == if first.approved || p.side.Sell? then (first, p.quantity)
               else Shrink(b, portfolio, p, p.quantity, first, SHRINK_ATTEMPTS)
  {
  }

  /** Step (d) of one day: check, shrink, log or queue each planned order. */
  method ReviewOrders(b: Backtest, recorded: State, d: Decision, day: nat) returns (s: State)
    ensures s == ReviewUpTo(b, recorded, d, day, |d.orders|)
  {
    hide ReviewUpTo, Review, Shrink;
    s := recorded;
    ReviewNone(b, recorded, d, day);
    var isLastDay := day + 1 == b.cfg.days;
    var date := b.cfg.startDate + day;
    for i := 0 to |d.orders|
      invariant s == ReviewUpTo(b, recorded, d, day, i)
    {
      ReviewNext(b, recorded, d, day, i);
      var planned := d.orders[i];
      var score := ScoreOf(d.output, planned.assetId);
      var verdict := b.risk(IntentOf(planned, planned.quantity), d.portfolio);
      var quantity := planned.quantity;
      ReviewParts(b, d.portfolio, planned);
      if !verdict.approved && planned.side.Buy? {
        verdict, quantity := ShrinkBuyToApproved(b, d.portfolio, planned, verdict);
      }
      s := s.(seqNo := s.seqNo + 1);
      if verdict.approved {
        planned := planned.(quantity := quantity);
      } else {
        s := s.(trades := s.trades + [TradeRecord(s.seqNo, planned.assetId, planned.side, Rejected, planned.quantity,
                                                  0.0, None, 0.0, 0.0, score, verdict.rejections, date, None)]);
        continue;
      }
      if isLastDay {
        s := s.(trades := s.trades + [TradeRecord(s.seqNo, planned.assetId, planned.side, SkippedNoNextDay,
                                                  planned.quantity, 0.0, None, 0.0, 0.0, score, [], date, None)]);
        continue;
      }
      s := s.(pending := s.pending + [planned], context := s.context[planned.assetId := Context(score, date)]);
    }
  }

  lemma {:induction false} RunFailureSticks(b: Backtest, m: nat, n: nat)
    requires m <= n && RunTo(b, m).Failure?
    ensures RunTo(b, n) == RunTo(b, m)
    decreases n
  {
    if m < n {
      RunFailureSticks(b, m, n - 1);
    }
  }

  /** `_run_day_loop`. */
  method RunDayLoop(b: Backtest) returns (r: Result<BacktestResult>)
    ensures r == Run(b)
  {
    var s := Initial(b);
    for day := 0 to b.cfg.days
      invariant RunTo(b, day) == Success(s)
    {
      var filled := FillPending(b, s, day);
      if filled.Failure? {
        RunFailureSticks(b, day + 1, b.cfg.days);
        return Failure(filled.error);
      }
      var decision := Decide(b, filled.value, day);
      if decision.Failure? {
        RunFailureSticks(b, day + 1, b.cfg.days);
        return Failure(decision.error);
      }
      var d := decision.value;
      s := filled.value;
      s := s.(equity := s.equity + [d.portfolio.snapshot], detail := s.detail + [DetailOf(b, s, d)]);
      s := ReviewOrders(b, s, d, day);
    }
    return Success(ResultOf(b, s));
  }
}
