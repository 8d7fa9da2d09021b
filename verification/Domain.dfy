/** The records that the backtest modules exchange. Dates are day ordinals, `Decimal`
    is `real`; identifiers that never steer the logic (UUIDs, symbols, reason texts)
    are not carried. */
module Domain {
  import opened Common

  datatype AssetClass = Stock | Etf | Crypto

  datatype TradingStatus = Watch | Tradable | Paused | Blacklist

  datatype MemberStatus = Candidate | Approved | Held | Restricted

  datatype Trend = Up | Down | Flat

  datatype Asset = Asset(assetClass: AssetClass, quoteCurrency: Currency, tradingStatus: TradingStatus)

  datatype Member = Member(assetId: AssetId, status: MemberStatus, targetWeightMax: Option<real>)

  datatype Precision = Precision(lotSize: real, minQuantity: real)

  /** One day of a gapless series; `stale` marks a carried-forward close. */
  datatype AlignedBar = AlignedBar(
    tradingDay: int,
    open: real, high: real, low: real, close: real, volume: real,
    stale: bool,
    sourceOpenTime: Option<int>)

  datatype IndicatorBar = IndicatorBar(
    tradingDay: int,
    dailyReturn: Option<real>,
    ma5: Option<real>, ma20: Option<real>, ma50: Option<real>,
    maTrend: Option<Trend>,
    rsi14: Option<real>, atr14: Option<real>,
    volumeChange: Option<real>,
    pricePosition20d: Option<real>,
    relativeStrength20d: Option<real>)

  datatype Position = Position(quantity: real, averageCost: real)

  datatype Snapshot = Snapshot(
    valuationDate: int, positionsValue: real, cashValue: real, nav: real, stale: bool)

  datatype PortfolioState = PortfolioState(
    baseCurrency: Currency,
    members: seq<Member>,
    positions: map<AssetId, Position>,
    snapshot: Snapshot)

  datatype AssetAnalysis = AssetAnalysis(
    indicators: IndicatorBar, close: real, stale: bool, tradingStatus: TradingStatus)

  datatype Analysis = Analysis(asOf: int, assets: map<AssetId, AssetAnalysis>)

  datatype StrategyOutput = StrategyOutput(scores: map<AssetId, real>, targetWeights: Items<real>)

  datatype OrderIntent = OrderIntent(assetId: AssetId, side: Side, quantity: real, estimatedPrice: real)

  datatype Rule =
    | QuantityPositive
    | EstimatedPricePositive
    | AssetMustBeMember
    | RestrictedMemberBlocksBuy
    | MaxOrderRisk
    | MaxSingleAssetWeight
    | CashFloor
    | MaxHeldPositions
    | DrawdownStopLine
    | WeightsNonNegative
    | WeightsSumToOne
    | MaxCryptoCategoryWeight
    | RestrictedNoNewPosition

  datatype RiskCheckResult = RiskCheckResult(approved: bool, rejections: seq<Rule>, checked: seq<Rule>)

  datatype PlannedOrder = PlannedOrder(assetId: AssetId, side: Side, quantity: real, estimatedPrice: real)

  datatype TradeStatus =
    | Filled
    | Rejected
    | SkippedMinQuantity
    | SkippedPrecisionUnavailable
    | SkippedNoNextDay

  /** One decision outcome. `seqNo` is the running number that trade ids are built from. */
  datatype TradeRecord = TradeRecord(
    seqNo: nat,
    assetId: AssetId,
    side: Side,
    status: TradeStatus,
    plannedQuantity: real,
    quantity: real,
    fillPrice: Option<real>,
    commission: real,
    slippage: real,
    signalScore: Option<real>,
    rejections: seq<Rule>,
    decisionDate: int,
    tradeDate: Option<int>)

  datatype DailyDetail = DailyDetail(
    valuationDate: int,
    targetWeights: Items<real>,
    positionValues: Items<real>,
    fxRates: map<Currency, real>)

  datatype BacktestResult = BacktestResult(
    endDate: int,
    initialCash: real,
    equityCurve: seq<Snapshot>,
    trades: seq<TradeRecord>,
    finalPositions: map<AssetId, real>,
    finalCash: real,
    dailyDetail: seq<DailyDetail>)

  predicate DistinctMembers(members: seq<Member>) {
    forall i, j :: 0 <= i < j < |members| ==> members[i].assetId != members[j].assetId
  }
}
