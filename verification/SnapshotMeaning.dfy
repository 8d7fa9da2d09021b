/** What a live snapshot says, on the fields of the market, in exact arithmetic. */
module SnapshotMeaning {
  import opened Common
  import opened Valuation

  /** A currency can be converted: it is the base currency, or its rate is known. */
  predicate Convertible(m: Market, currency: Currency) {
    currency == m.baseCurrency || (currency in m.rates && m.rates[currency].Success?)
  }

  function RateOf(m: Market, currency: Currency): real
    requires Convertible(m, currency)
  {
    if currency == m.baseCurrency then 1.0 else m.rates[currency].value.price
  }

  predicate RateStale(m: Market, currency: Currency)
    requires Convertible(m, currency)
  {
    currency != m.baseCurrency && m.rates[currency].value.stale
  }

  /** A position can be priced: its asset is known, with a price and a convertible currency. */
  predicate Priceable(m: Market, id: AssetId) {
    && id in m.assets && id in m.prices && m.prices[id].Success?
    && Convertible(m, m.assets[id].quoteCurrency)
  }

  function PriceOf(m: Market, id: AssetId): real
    requires Priceable(m, id)
  {
    m.prices[id].value.price
  }

  /** Everything that is not zero can be priced. */
  predicate AllPriceable(m: Market, rows: seq<PositionRow>) {
    forall i :: 0 <= i < |rows| && rows[i].quantity != 0.0 ==> Priceable(m, rows[i].assetId)
  }

  predicate AllConvertible(m: Market, rows: seq<CashRow>) {
    forall i :: 0 <= i < |rows| && rows[i].amount != 0.0 ==> Convertible(m, rows[i].currency)
  }

  /** What a position is worth in the base currency. */
  function RowWorth(m: Market, row: PositionRow): real
    requires row.quantity != 0.0 ==> Priceable(m, row.assetId)
  {
    if row.quantity == 0.0 then 0.0
    else Worth(Worth(row.quantity, PriceOf(m, row.assetId)), RateOf(m, m.assets[row.assetId].quoteCurrency))
  }

  function CashWorth(m: Market, row: CashRow): real
    requires row.amount != 0.0 ==> Convertible(m, row.currency)
  {
    if row.amount == 0.0 then 0.0 else Worth(row.amount, RateOf(m, row.currency))
  }

  function TotalWorth(m: Market, rows: seq<PositionRow>): real
    requires AllPriceable(m, rows)
  {
    if rows == [] then 0.0 else TotalWorth(m, rows[..|rows| - 1]) + RowWorth(m, rows[|rows| - 1])
  }

  function TotalCash(m: Market, rows: seq<CashRow>): real
    requires AllConvertible(m, rows)
  {
    if rows == [] then 0.0 else TotalCash(m, rows[..|rows| - 1]) + CashWorth(m, rows[|rows| - 1])
  }

  /** A position that is not zero has a stale price or a stale rate. */
  predicate StalePosition(m: Market, row: PositionRow)
    requires row.quantity != 0.0 ==> Priceable(m, row.assetId)
  {
    row.quantity != 0.0
    && (m.prices[row.assetId].value.stale || RateStale(m, m.assets[row.assetId].quoteCurrency))
  }

  predicate StaleCash(m: Market, row: CashRow)
    requires row.amount != 0.0 ==> Convertible(m, row.currency)
  {
    row.amount != 0.0 && RateStale(m, row.currency)
  }

  lemma ExactLine(num: Decimals, x: real, y: real)
    requires num.Exact()
    ensures num.mul(x, y) == Worth(x, y)
  {
  }

  lemma PositionLine(m: Market, row: PositionRow)
    requires m.num.Exact() && row.quantity != 0.0
    ensures m.ValuePosition(row).Success? <==> Priceable(m, row.assetId)
    ensures Priceable(m, row.assetId) ==>
              m.ValuePosition(row).value == Priced(RowWorth(m, row), StalePosition(m, row))
  {
    if Priceable(m, row.assetId) {
      var value := Worth(row.quantity, PriceOf(m, row.assetId));
      var rate := RateOf(m, m.assets[row.assetId].quoteCurrency);
      ExactLine(m.num, row.quantity, PriceOf(m, row.assetId));
      ExactLine(m.num, value, rate);
      TimesOne(value);
      hide Decimals.Exact, Worth;
    }
  }

  lemma TimesOne(x: real)
    ensures Worth(x, 1.0) == x
  {
  }

  lemma CashLine(m: Market, row: CashRow)
    requires m.num.Exact() && row.amount != 0.0
    ensures m.ValueCash(row).Success? <==> Convertible(m, row.currency)
    ensures Convertible(m, row.currency) ==> m.ValueCash(row).value == Priced(CashWorth(m, row), StaleCash(m, row))
  {
    if Convertible(m, row.currency) {
      ExactLine(m.num, row.amount, RateOf(m, row.currency));
      TimesOne(row.amount);
      hide Decimals.Exact, Worth;
    }
  }

  lemma {:induction false} PositionsMean(m: Market, rows: seq<PositionRow>, n: nat)
    requires m.num.Exact() && n <= |rows|
    ensures PositionsUpTo(m, rows, n).Success? <==> AllPriceable(m, rows[..n])
    ensures AllPriceable(m, rows[..n]) ==>
              var sum := PositionsUpTo(m, rows, n).value;
              && sum.value == TotalWorth(m, rows[..n])
              && (true in sum.statuses <==> exists i :: 0 <= i < n && StalePosition(m, rows[..n][i]))
  {
    hide Decimals.Exact, RowWorth, Priceable, Market.ValuePosition;
    if n > 0 {
      PositionsMean(m, rows, n - 1);
      var row, before, now := rows[n - 1], rows[..n - 1], rows[..n];
      assert now[..n - 1] == before && now[n - 1] == row;
      assert forall i :: 0 <= i < n - 1 ==> now[i] == before[i];
      if row.quantity != 0.0 {
        PositionLine(m, row);
        if AllPriceable(m, now) {
          assert AllPriceable(m, before);
          ExactSum(m.num, TotalWorth(m, before), RowWorth(m, row));
        }
      } else {
        assert AllPriceable(m, now) <==> AllPriceable(m, before);
        ZeroRow(m, row);
      }
    }
  }

  lemma ZeroRow(m: Market, row: PositionRow)
    requires row.quantity == 0.0
    ensures RowWorth(m, row) == 0.0
  {
  }

  lemma ExactSum(num: Decimals, x: real, y: real)
    requires num.Exact()
    ensures num.add(x, y) == x + y
  {
  }

  lemma {:induction false} CashMeans(m: Market, rows: seq<CashRow>, n: nat)
    requires m.num.Exact() && n <= |rows|
    ensures CashUpTo(m, rows, n).Success? <==> AllConvertible(m, rows[..n])
    ensures AllConvertible(m, rows[..n]) ==>
              var sum := CashUpTo(m, rows, n).value;
              && sum.value == TotalCash(m, rows[..n])
              && (true in sum.statuses <==> exists i :: 0 <= i < n && StaleCash(m, rows[..n][i]))
  {
    hide Decimals.Exact, CashWorth, Convertible, Market.ValueCash;
    if n > 0 {
      CashMeans(m, rows, n - 1);
      var row, before, now := rows[n - 1], rows[..n - 1], rows[..n];
      assert now[..n - 1] == before && now[n - 1] == row;
      assert forall i :: 0 <= i < n - 1 ==> now[i] == before[i];
      if row.amount != 0.0 {
        CashLine(m, row);
        if AllConvertible(m, now) {
          assert AllConvertible(m, before);
          ExactSum(m.num, TotalCash(m, before), CashWorth(m, row));
        }
      } else {
        assert AllConvertible(m, now) <==> AllConvertible(m, before);
        ZeroCash(m, row);
      }
    }
  }

  lemma ZeroCash(m: Market, row: CashRow)
    requires row.amount == 0.0
    ensures CashWorth(m, row) == 0.0
  {
  }

  /** Main result: in exact arithmetic a live snapshot exists if and only if everything that is not zero can be priced
      and converted; it adds up the worth of every position and every cash amount in the base currency, and is stale
      exactly when a price or a rate that it uses is. */
  lemma SnapshotMeans(m: Market, positions: seq<PositionRow>, cash: seq<CashRow>, asOf: int)
    requires m.num.Exact()
    ensures SnapshotOf(m, positions, cash, asOf).Success? <==> AllPriceable(m, positions) && AllConvertible(m, cash)
    ensures AllPriceable(m, positions) && AllConvertible(m, cash) ==>
              var s := SnapshotOf(m, positions, cash, asOf).value;
              && s.valuationDate == asOf && s.positionsValue == TotalWorth(m, positions)
              && s.cashValue == TotalCash(m, cash) && s.nav == s.positionsValue + s.cashValue
              && (s.stale <==>
                    || (exists i :: 0 <= i < |positions| && StalePosition(m, positions[i]))
                    || (exists i :: 0 <= i < |cash| && StaleCash(m, cash[i])))
  {
    PositionsMean(m, positions, |positions|);
    CashMeans(m, cash, |cash|);
    assert positions[..|positions|] == positions && cash[..|cash|] == cash;
    if AllPriceable(m, positions) && AllConvertible(m, cash) {
      ExactSum(m.num, TotalWorth(m, positions), TotalCash(m, cash));
    }
    hide Decimals.Exact, TotalWorth, TotalCash, PositionsUpTo, CashUpTo, AllPriceable, AllConvertible, StalePosition,
         StaleCash;
  }
}
