/** Point-in-time valuation (backend/application/valuation/service.py) and its agreement with the
    day-by-day valuation of a backtest over the same bars. */
module Valuation {
  import opened Common
  import opened Domain
  import opened Alignment
  import Calendar
  import Engine

  /** A price and whether it was carried forward. */
  datatype Priced = Priced(price: real, stale: bool)

  // ----- The price of one instrument -----

  /** `_fetch_price` on the service's answer. */
  function FetchPrice(answer: seq<RawBar>, asOf: int): Result<Priced> {
    if answer == [] then Failure(MissingPriceData)
    else Success(Priced(answer[0].close, DateOf(answer[0].openTime) != asOf))
  }

  /** The service answers with the stored bars opened before the end of `asOf`, newest first. */
  ghost predicate AnswersNewestFirst(answer: seq<RawBar>, stored: seq<RawBar>, asOf: int) {
    && (forall bar :: bar in answer <==> bar in stored && bar.openTime < (asOf + 1) * DAY)
    && forall i, j :: 0 <= i < j < |answer| ==> answer[i].openTime > answer[j].openTime
  }

  lemma BeforeEndOfDay(openTime: int, asOf: int)
    ensures openTime < (asOf + 1) * DAY <==> DateOf(openTime) <= asOf
  {
  }

  /** The newest bar dated on or before a day heads the answer. */
  lemma HeadIsNewest(answer: seq<RawBar>, stored: seq<RawBar>, asOf: int, bar: RawBar)
    requires AnswersNewestFirst(answer, stored, asOf) && bar in stored && DateOf(bar.openTime) <= asOf
    ensures answer != [] && answer[0] in stored
    ensures DateOf(answer[0].openTime) <= asOf && bar.openTime <= answer[0].openTime
  {
    hide DateOf;
    BeforeEndOfDay(bar.openTime, asOf);
    assert bar in answer;
    assert answer[0] in answer;
    BeforeEndOfDay(answer[0].openTime, asOf);
  }

  /** The day whose bar an aligned bar shows: the last one with a bar up to it. */
  lemma {:induction false} CarriedFrom(assetClass: AssetClass, start: int, raw: seq<RawBar>, n: nat, i: nat)
    returns (last: int)
    requires start >= 1 && AlignUpTo(assetClass, start, raw, n).Success? && i < n
    ensures |AlignUpTo(assetClass, start, raw, n).value| == n
    ensures var bars := AlignUpTo(assetClass, start, raw, n).value;
            && start <= last <= start + i && BarOn(raw, last).Some? && bars[i].close == BarOn(raw, last).value.close
            && (bars[i].stale <==> last < start + i)
            && forall day :: last < day <= start + i ==> BarOn(raw, day).None?
  {
    hide AlignUpTo, BarOn, Calendar.IsTradingDay;
    SeriesIsGapless(assetClass, start, raw, n);
    assert ShowsDay(assetClass, start, raw, AlignUpTo(assetClass, start, raw, n).value, i);
    if BarOn(raw, start + i).Some? {
      return start + i;
    }
    last := CarriedFrom(assetClass, start, raw, n, i - 1);
  }

  /** The latest bar of the last day with one, not after `date`, is the newest of all bars up to `date`. */
  lemma NewestUpTo(raw: seq<RawBar>, last: int, date: int, newest: RawBar)
    requires DistinctOpenTimes(raw) && last <= date && BarOn(raw, last).Some?
    requires forall day :: last < day <= date ==> BarOn(raw, day).None?
    requires newest in raw && DateOf(newest.openTime) <= date && BarOn(raw, last).value.openTime <= newest.openTime
    ensures newest == BarOn(raw, last).value
  {
    var bar, day := BarOn(raw, last).value, DateOf(newest.openTime);
    BarOnIsLatest(raw, last);
    BarOnIsLatest(raw, day);
    hide BarOn;
    assert DateOf(bar.openTime) == last;
    assert day >= last;
    assert newest.openTime == bar.openTime;
    var i :| 0 <= i < |raw| && raw[i] == newest;
    var j :| 0 <= j < |raw| && raw[j] == bar;
  }

  /** Main result: for every day of an aligned series, pricing as of that day from the same bars gives the
      aligned close, and the same fresh or stale status. */
  lemma AlignmentAgreesWithFetch(assetClass: AssetClass, start: int, raw: seq<RawBar>, n: nat, i: nat,
                                 answer: seq<RawBar>)
    requires start >= 1 && AlignUpTo(assetClass, start, raw, n).Success? && i < n
    requires DistinctOpenTimes(raw) && AnswersNewestFirst(answer, raw, start + i)
    ensures |AlignUpTo(assetClass, start, raw, n).value| == n
    ensures var bar := AlignUpTo(assetClass, start, raw, n).value[i];
            FetchPrice(answer, start + i) == Success(Priced(bar.close, bar.stale))
  {
    hide AlignUpTo, BarOn, AnswersNewestFirst, DistinctOpenTimes, DateOf;
    var last := CarriedFrom(assetClass, start, raw, n, i);
    BarOnIsLatest(raw, last);
    HeadIsNewest(answer, raw, start + i, BarOn(raw, last).value);
    NewestUpTo(raw, last, start + i, answer[0]);
  }

  // ----- The snapshot -----

  datatype PositionRow = PositionRow(assetId: AssetId, quantity: real)

  datatype CashRow = CashRow(currency: Currency, amount: real)

  /** What a valuation can look up: assets, and as-of prices of assets and currencies. */
  datatype Market = Market(
    num: Decimals,
    baseCurrency: Currency,
    assets: map<AssetId, Asset>,
    prices: map<AssetId, Result<Priced>>,
    rates: map<Currency, Result<Priced>>) {

    function Price(id: AssetId): Result<Priced> {
      GetOr(prices, id, Failure(KeyError))
    }

    /** `_convert`: an amount in the base currency. */
    function Convert(amount: real, currency: Currency): Result<Priced> {
      var rate :- GetOr(rates, currency, Failure(KeyError));
      Success(Priced(num.mul(amount, rate.price), rate.stale))
    }

    function ValuePosition(p: PositionRow): Result<Priced> {
      var asset :- Lookup(assets, p.assetId);
      var quote :- Price(p.assetId);
      var value := num.mul(p.quantity, quote.price);
      if asset.quoteCurrency == baseCurrency then Success(Priced(value, quote.stale))
      else
        var converted :- Convert(value, asset.quoteCurrency);
        Success(Priced(converted.price, CombineStatus(quote.stale, converted.stale)))
    }

    function ValueCash(c: CashRow): Result<Priced> {
      if c.currency == baseCurrency then Success(Priced(c.amount, false)) else Convert(c.amount, c.currency)
    }
  }

  /** `_combine_status`, a price being stale unless both are fresh. */
  function CombineStatus(x: bool, y: bool): bool {
    !(!x && !y)
  }

  /** Values accumulated over priced lines, and the status of each. */
  datatype Sum = Sum(value: real, statuses: seq<bool>)

  function PositionsUpTo(m: Market, rows: seq<PositionRow>, n: nat): Result<Sum>
    requires n <= |rows|
  {
    if n == 0 then Success(Sum(0.0, []))
    else
      match PositionsUpTo(m, rows, n - 1)
      case Failure(error) => Failure(error)
      case Success(sum) =>
        if rows[n - 1].quantity == 0.0 then Success(sum)
        else
          var line :- m.ValuePosition(rows[n - 1]);
          Success(Sum(m.num.add(sum.value, line.price), sum.statuses + [line.stale]))
  }

  function CashUpTo(m: Market, rows: seq<CashRow>, n: nat): Result<Sum>
    requires n <= |rows|
  {
    if n == 0 then Success(Sum(0.0, []))
    else
      match CashUpTo(m, rows, n - 1)
      case Failure(error) => Failure(error)
      case Success(sum) =>
        if rows[n - 1].amount == 0.0 then Success(sum)
        else
          var line :- m.ValueCash(rows[n - 1]);
          Success(Sum(m.num.add(sum.value, line.price), sum.statuses + [line.stale]))
  }

  /** The snapshot of the accumulated sums: stale as soon as one priced line is. */
  function SnapshotOf(m: Market, positions: seq<PositionRow>, cash: seq<CashRow>, asOf: int): Result<Snapshot> {
    var held :- PositionsUpTo(m, positions, |positions|);
    var liquid :- CashUpTo(m, cash, |cash|);
    Success(Snapshot(asOf, held.value, liquid.value, m.num.add(held.value, liquid.value),
                     true in held.statuses + liquid.statuses))
  }

  lemma {:induction false} PositionFailureSticks(m: Market, rows: seq<PositionRow>, k: nat, n: nat)
    requires k <= n <= |rows| && PositionsUpTo(m, rows, k).Failure?
    ensures PositionsUpTo(m, rows, n) == PositionsUpTo(m, rows, k)
    decreases n
  {
    if k < n {
      PositionFailureSticks(m, rows, k, n - 1);
    }
  }

  lemma {:induction false} CashFailureSticks(m: Market, rows: seq<CashRow>, k: nat, n: nat)
    requires k <= n <= |rows| && CashUpTo(m, rows, k).Failure?
    ensures CashUpTo(m, rows, n) == CashUpTo(m, rows, k)
    decreases n
  {
    if k < n {
      CashFailureSticks(m, rows, k, n - 1);
    }
  }

  /** `_compute_snapshot`. */
  method ComputeSnapshot(m: Market, positions: seq<PositionRow>, cash: seq<CashRow>, asOf: int)
    returns (r: Result<Snapshot>)
    ensures r == SnapshotOf(m, positions, cash, asOf)
  {
    var statuses: seq<bool> := [];
    var positionsValue := 0.0;
    for i := 0 to |positions|
      invariant PositionsUpTo(m, positions, i) == Success(Sum(positionsValue, statuses))
    {
      var position := positions[i];
      if position.quantity == 0.0 {
        continue;
      }
      var line := m.ValuePosition(position);
      if line.Failure? {
        PositionFailureSticks(m, positions, i + 1, |positions|);
        return Failure(line.error);
      }
      positionsValue := m.num.add(positionsValue, line.value.price);
      statuses := statuses + [line.value.stale];
    }

    ghost var held := statuses;
    ghost var liquid: seq<bool> := [];
    var cashValue := 0.0;
    for i := 0 to |cash|
      invariant CashUpTo(m, cash, i) == Success(Sum(cashValue, liquid)) && statuses == held + liquid
    {
      var row := cash[i];
      if row.amount == 0.0 {
        continue;
      }
      var line := m.ValueCash(row);
      if line.Failure? {
        CashFailureSticks(m, cash, i + 1, |cash|);
        return Failure(line.error);
      }
      cashValue := m.num.add(cashValue, line.value.price);
      statuses := statuses + [line.value.stale];
      liquid := liquid + [line.value.stale];
    }

    var stale := false;
    for i := 0 to |statuses|
      invariant stale <==> true in statuses[..i]
    {
      assert statuses[..i + 1] == statuses[..i] + [statuses[i]];
      stale := CombineStatus(stale, statuses[i]);
    }
    assert statuses[..|statuses|] == statuses;
    return Success(Snapshot(asOf, positionsValue, cashValue, m.num.add(positionsValue, cashValue), stale));
  }

  // ----- Agreement with the backtest -----

  /** The rows of a backtest's account, in member order. */
  function Rows(b: Engine.Backtest, positions: map<AssetId, real>): seq<PositionRow> {
    seq(|b.members|, i requires 0 <= i < |b.members| =>
      PositionRow(b.members[i].assetId, GetOr(positions, b.members[i].assetId, 0.0)))
  }

  /** The market quotes, as of day `day` of the backtest, what its aligned series show on that day. */
  ghost predicate QuotesSeries(m: Market, b: Engine.Backtest, day: nat) {
    && m.num == b.cfg.num && m.baseCurrency == b.cfg.baseCurrency && m.assets == b.assets
    && (forall id :: id in b.series && day < |b.series[id]| ==>
          m.Price(id) == Success(Priced(b.series[id][day].close, b.series[id][day].stale)))
    && forall c :: c in b.fx && day < |b.fx[c]| ==>
         c in m.rates && m.rates[c] == Success(Priced(b.fx[c][day].close, b.fx[c][day].stale))
  }

  lemma SameProduct(num: Decimals, quantity: real, price: real, rate: real)
    requires num.Exact()
    ensures num.mul(num.mul(quantity, price), rate) == num.mul(quantity, num.mul(price, rate))
  {
    assert quantity * price * rate == quantity * (price * rate);
  }

  /** One nonzero position is worth the same to both, at the same status. */
  lemma SamePosition(m: Market, b: Engine.Backtest, day: nat, id: AssetId, quantity: real)
    requires b.cfg.num.Exact() && QuotesSeries(m, b, day)
    requires Engine.At(b.series, id, day).Success? && Engine.PriceAt(b, id, day, Engine.Close).Success?
    ensures var quote := Engine.PriceAt(b, id, day, Engine.Close).value;
            m.ValuePosition(PositionRow(id, quantity))
            == Success(Priced(b.cfg.num.mul(quantity, quote.price),
                              b.series[id][day].stale || quote.fxStale == Some(true)))
  {
    var bar, asset := b.series[id][day], b.assets[id];
    if asset.quoteCurrency != b.cfg.baseCurrency {
      var rate := b.fx[asset.quoteCurrency][day];
      SameProduct(b.cfg.num, quantity, bar.close, rate.close);
      hide Decimals.Exact;
      assert m.rates[asset.quoteCurrency] == Success(Priced(rate.close, rate.stale));
    }
  }

  lemma {:induction false} SamePositions(m: Market, b: Engine.Backtest, positions: map<AssetId, real>, day: nat, n: nat)
    requires b.cfg.num.Exact() && QuotesSeries(m, b, day)
    requires n <= |b.members| && Engine.ValueUpTo(b, positions, day, n).Success?
    ensures var v := Engine.ValueUpTo(b, positions, day, n).value;
            && PositionsUpTo(m, Rows(b, positions), n).Success?
            && var sum := PositionsUpTo(m, Rows(b, positions), n).value;
               sum.value == v.positionsValue && (v.allFresh <==> true !in sum.statuses)
  {
    hide QuotesSeries, Engine.PriceAt, Decimals.Exact, Market.ValuePosition;
    if n > 0 {
      SamePositions(m, b, positions, day, n - 1);
      var id := b.members[n - 1].assetId;
      SamePosition(m, b, day, id, positions[id]);
      assert m.num == b.cfg.num by {
        SameArithmetic(m, b, day);
      }
    }
  }

  lemma SameArithmetic(m: Market, b: Engine.Backtest, day: nat)
    requires QuotesSeries(m, b, day)
    ensures m.num == b.cfg.num && m.baseCurrency == b.cfg.baseCurrency
  {
  }

  /** Main result: in exact arithmetic, valuing a backtest's account of any day live, from quotes that agree with
      the aligned series, gives the day's snapshot: same values, same NAV, same status. */
  lemma LiveSnapshotAgrees(m: Market, b: Engine.Backtest, s: Engine.State, day: nat)
    requires b.cfg.num.Exact() && QuotesSeries(m, b, day)
    requires Engine.ValueUpTo(b, s.positions, day, |b.members|).Success?
    ensures SnapshotOf(m, Rows(b, s.positions), [CashRow(b.cfg.baseCurrency, s.cash)], b.cfg.startDate + day)
         == Success(Engine.SnapshotAt(b, s, Engine.ValueUpTo(b, s.positions, day, |b.members|).value, day))
  {
    SamePositions(m, b, s.positions, day, |b.members|);
    SameArithmetic(m, b, day);
    hide QuotesSeries, Engine.ValueUpTo, PositionsUpTo;
    BaseCash(m, s.cash);
  }

  lemma BaseCash(m: Market, amount: real)
    requires m.num.Exact()
    ensures CashUpTo(m, [CashRow(m.baseCurrency, amount)], 1)
         == Success(if amount == 0.0 then Sum(0.0, []) else Sum(amount, [false]))
  {
    var cash := [CashRow(m.baseCurrency, amount)];
    assert CashUpTo(m, cash, 0) == Success(Sum(0.0, []));
    assert m.num.add(0.0, amount) == amount;
    var none: seq<bool> := [];
    assert none + [false] == [false];
    assert cash[0].amount != 0.0 ==> CashUpTo(m, cash, 1) == Success(Sum(m.num.add(0.0, amount), none + [false]));
  }

  // ----- From raw bars on -----

  /** The bars of a key and what the service answers about them as of a day. */
  datatype Feed = Feed(raw: seq<RawBar>, answer: seq<RawBar>)

  /** The feed's bars align to the series, and its answer is the service's as of the day. */
  ghost predicate Feeds(feed: Feed, assetClass: AssetClass, start: int, days: nat, series: seq<AlignedBar>, asOf: int)
    requires start >= 1
  {
    && DistinctOpenTimes(feed.raw) && Align(assetClass, start, start + days - 1, feed.raw) == Success(series)
    && AnswersNewestFirst(feed.answer, feed.raw, asOf)
  }

  /** Every series of the backtest is aligned from its feed, FX as crypto, and the market prices from the feeds'
      answers. */
  ghost predicate MarketOfFeeds(m: Market, b: Engine.Backtest, day: nat, feeds: map<AssetId, Feed>,
                                fxFeeds: map<Currency, Feed>)
    requires b.cfg.startDate >= 1
  {
    && m.num == b.cfg.num && m.baseCurrency == b.cfg.baseCurrency && m.assets == b.assets
    && (forall id :: id in b.series ==>
          && id in feeds && id in b.assets
          && Feeds(feeds[id], b.assets[id].assetClass, b.cfg.startDate, b.cfg.days, b.series[id], b.cfg.startDate + day)
          && m.Price(id) == FetchPrice(feeds[id].answer, b.cfg.startDate + day))
    && forall c :: c in b.fx ==>
         && c in fxFeeds && c in m.rates
         && Feeds(fxFeeds[c], Crypto, b.cfg.startDate, b.cfg.days, b.fx[c], b.cfg.startDate + day)
         && m.rates[c] == FetchPrice(fxFeeds[c].answer, b.cfg.startDate + day)
  }

  lemma FeedPrice(feed: Feed, assetClass: AssetClass, start: int, days: nat, series: seq<AlignedBar>, day: nat)
    requires start >= 1 && day < days && Feeds(feed, assetClass, start, days, series, start + day)
    ensures day < |series| && FetchPrice(feed.answer, start + day)
            == Success(Priced(series[day].close, series[day].stale))
  {
    hide AlignUpTo, AnswersNewestFirst, DistinctOpenTimes;
    AlignmentAgreesWithFetch(assetClass, start, feed.raw, days, day, feed.answer);
  }

  /** A market priced from the same bars quotes what the aligned series show. */
  lemma FeedsQuoteSeries(m: Market, b: Engine.Backtest, day: nat, feeds: map<AssetId, Feed>,
                         fxFeeds: map<Currency, Feed>)
    requires b.cfg.startDate >= 1 && day < b.cfg.days && MarketOfFeeds(m, b, day, feeds, fxFeeds)
    ensures QuotesSeries(m, b, day)
  {
    hide Feeds, FetchPrice, Market.Price;
    forall id | id in b.series && day < |b.series[id]|
      ensures m.Price(id) == Success(Priced(b.series[id][day].close, b.series[id][day].stale))
    {
      FeedPrice(feeds[id], b.assets[id].assetClass, b.cfg.startDate, b.cfg.days, b.series[id], day);
    }
    forall c | c in b.fx && day < |b.fx[c]|
      ensures c in m.rates && m.rates[c] == Success(Priced(b.fx[c][day].close, b.fx[c][day].stale))
    {
      FeedPrice(fxFeeds[c], Crypto, b.cfg.startDate, b.cfg.days, b.fx[c], day);
    }
  }

  /** Main result: valuing a backtest's account live, as of any of its days and from the very bars its series were
      aligned from, gives the day's snapshot: same values, same NAV, same status. */
  lemma LiveSnapshotOfSameBars(m: Market, b: Engine.Backtest, s: Engine.State, day: nat, feeds: map<AssetId, Feed>,
                               fxFeeds: map<Currency, Feed>)
    requires b.cfg.startDate >= 1 && day < b.cfg.days && MarketOfFeeds(m, b, day, feeds, fxFeeds) && b.cfg.num.Exact()
    requires Engine.ValueUpTo(b, s.positions, day, |b.members|).Success?
    ensures SnapshotOf(m, Rows(b, s.positions), [CashRow(b.cfg.baseCurrency, s.cash)], b.cfg.startDate + day)
         == Success(Engine.SnapshotAt(b, s, Engine.ValueUpTo(b, s.positions, day, |b.members|).value, day))
  {
    hide MarketOfFeeds, QuotesSeries, Engine.ValueUpTo, SnapshotOf, Decimals.Exact;
    FeedsQuoteSeries(m, b, day, feeds, fxFeeds);
    LiveSnapshotAgrees(m, b, s, day);
  }
}
