/** FIFO lot matching (backend/application/backtest/metrics.py), in exact arithmetic. */
module Fifo {
  import opened Common
  import opened Domain

  datatype Lot = Lot(quantity: real, price: real)

  /** A stretch of a lot closed by a sell. */
  datatype Match = Match(assetId: AssetId, quantity: real, buyPrice: real, sellPrice: real)

  function Gain(m: Match): real {
    m.quantity * (m.sellPrice - m.buyPrice)
  }

  // ----- Matching one sell -----

  /** What a sell does to the open lots: the lots left, the matches in order, the quantity unmatched. */
  datatype Closing = Closing(lots: seq<Lot>, matches: seq<Match>, remaining: real)

  function CloseLots(id: AssetId, lots: seq<Lot>, remaining: real, sellPrice: real): Closing
    decreases |lots|, if remaining > 0.0 then 1 else 0
  {
    if remaining <= 0.0 || lots == [] then Closing(lots, [], remaining)
    else
      var matched := Min(lots[0].quantity, remaining);
      var left := lots[0].quantity - matched;
      var rest := CloseLots(id, if left == 0.0 then lots[1..] else [Lot(left, lots[0].price)] + lots[1..],
                            remaining - matched, sellPrice);
      rest.(matches := [Match(id, matched, lots[0].price, sellPrice)] + rest.matches)
  }

  /** The books of the matcher: open lots per asset, oldest first, and every match made. */
  datatype Books = Books(open: map<AssetId, seq<Lot>>, matches: seq<Match>) {
    function Lots(id: AssetId): seq<Lot> {
      GetOr(open, id, [])
    }
  }

  predicate IsFill(t: TradeRecord) {
    t.status.Filled? && t.tradeDate.Some? && t.fillPrice.Some?
  }

  function PostTrade(b: Books, t: TradeRecord): Books {
    if !IsFill(t) then b
    else if t.side.Buy? then b.(open := b.open[t.assetId := b.Lots(t.assetId) + [Lot(t.quantity, t.fillPrice.value)]])
    else
      var c := CloseLots(t.assetId, b.Lots(t.assetId), t.quantity, t.fillPrice.value);
      Books(b.open[t.assetId := c.lots], b.matches + c.matches)
  }

  function MatchAll(trades: seq<TradeRecord>): Books {
    if trades == [] then Books(map[], []) else PostTrade(MatchAll(trades[..|trades| - 1]), trades[|trades| - 1])
  }

  // ----- Sums -----

  function Quantity(lots: seq<Lot>): real {
    if lots == [] then 0.0 else Quantity(lots[..|lots| - 1]) + lots[|lots| - 1].quantity
  }

  function Cost(lots: seq<Lot>): real {
    if lots == [] then 0.0
    else Cost(lots[..|lots| - 1]) + Worth(lots[|lots| - 1].quantity, lots[|lots| - 1].price)
  }

  function Realized(ms: seq<Match>): real {
    if ms == [] then 0.0 else Realized(ms[..|ms| - 1]) + Gain(ms[|ms| - 1])
  }

  /** Quantity of `id` closed by the matches. */
  function Matched(ms: seq<Match>, id: AssetId): real {
    if ms == [] then 0.0
    else Matched(ms[..|ms| - 1], id) + if ms[|ms| - 1].assetId == id then ms[|ms| - 1].quantity else 0.0
  }

  /** What the matched quantities sold for. */
  function Proceeds(ms: seq<Match>): real {
    if ms == [] then 0.0
    else Proceeds(ms[..|ms| - 1]) + Worth(ms[|ms| - 1].quantity, ms[|ms| - 1].sellPrice)
  }

  /** What the matched quantities were bought for. */
  function ConsumedCost(ms: seq<Match>): real {
    if ms == [] then 0.0
    else ConsumedCost(ms[..|ms| - 1]) + Worth(ms[|ms| - 1].quantity, ms[|ms| - 1].buyPrice)
  }

  lemma {:induction false} SplitLots(x: seq<Lot>, y: seq<Lot>)
    ensures Quantity(x + y) == Quantity(x) + Quantity(y) && Cost(x + y) == Cost(x) + Cost(y)
  {
    if y == [] {
      assert x + y == x;
    } else {
      SplitLots(x, y[..|y| - 1]);
      assert (x + y)[..|x + y| - 1] == x + y[..|y| - 1];
    }
  }

  lemma {:induction false} SplitMatches(x: seq<Match>, y: seq<Match>, id: AssetId)
    ensures Realized(x + y) == Realized(x) + Realized(y) && Matched(x + y, id) == Matched(x, id) + Matched(y, id)
    ensures Proceeds(x + y) == Proceeds(x) + Proceeds(y) && ConsumedCost(x + y) == ConsumedCost(x) + ConsumedCost(y)
  {
    if y == [] {
      assert x + y == x;
    } else {
      SplitMatches(x, y[..|y| - 1], id);
      assert (x + y)[..|x + y| - 1] == x + y[..|y| - 1];
    }
  }

  lemma OneLot(l: Lot)
    ensures Quantity([l]) == l.quantity && Cost([l]) == Worth(l.quantity, l.price)
  {
    assert [l][..0] == [];
  }

  lemma OneMatch(m: Match, id: AssetId)
    ensures Realized([m]) == Gain(m) && Matched([m], id) == if m.assetId == id then m.quantity else 0.0
    ensures Proceeds([m]) == Worth(m.quantity, m.sellPrice) && ConsumedCost([m]) == Worth(m.quantity, m.buyPrice)
  {
    assert [m][..0] == [];
  }

  lemma GainIsDifference(m: Match)
    ensures Gain(m) == Worth(m.quantity, m.sellPrice) - Worth(m.quantity, m.buyPrice)
  {
  }

  lemma WorthSplit(a: real, b: real, price: real)
    ensures Worth(a, price) + Worth(b, price) == Worth(a + b, price)
  {
  }

  /** The sum of the gains is what the matched quantities sold for less what they cost. */
  lemma {:induction false} RealizedIsProceedsLessCost(ms: seq<Match>)
    ensures Realized(ms) == Proceeds(ms) - ConsumedCost(ms)
  {
    if ms != [] {
      RealizedIsProceedsLessCost(ms[..|ms| - 1]);
      GainIsDifference(ms[|ms| - 1]);
    }
  }

  // ----- Conservation -----

  predicate Positive(lots: seq<Lot>) {
    forall l :: l in lots ==> l.quantity > 0.0
  }

  /** The lots a closing goes on with after taking `matched` from the first one. */
  function AfterMatch(lots: seq<Lot>, matched: real): seq<Lot>
    requires lots != []
  {
    var left := lots[0].quantity - matched;
    if left == 0.0 then lots[1..] else [Lot(left, lots[0].price)] + lots[1..]
  }

  lemma PrependMatch(m: Match, ms: seq<Match>, id: AssetId)
    ensures Matched([m] + ms, id) == (if m.assetId == id then m.quantity else 0.0) + Matched(ms, id)
    ensures Proceeds([m] + ms) == Worth(m.quantity, m.sellPrice) + Proceeds(ms)
    ensures ConsumedCost([m] + ms) == Worth(m.quantity, m.buyPrice) + ConsumedCost(ms)
  {
    SplitMatches([m], ms, id);
    OneMatch(m, id);
  }

  /** A closing keeps no empty lot, and leaves a remainder only when the lots run out. */
  lemma {:induction false} ClosingKeepsPositive(id: AssetId, lots: seq<Lot>, remaining: real, sellPrice: real)
    requires Positive(lots) && remaining >= 0.0
    ensures var c := CloseLots(id, lots, remaining, sellPrice);
            Positive(c.lots) && 0.0 <= c.remaining <= remaining && (c.remaining > 0.0 ==> c.lots == [])
    decreases |lots|, if remaining > 0.0 then 1 else 0
  {
    if remaining > 0.0 && lots != [] {
      var matched := Min(lots[0].quantity, remaining);
      assert lots[0] in lots && lots[0].quantity > 0.0;
      HeadLot(lots, matched);
      ClosingKeepsPositive(id, AfterMatch(lots, matched), remaining - matched, sellPrice);
    }
  }

  /** Closing moves quantity and cost from the open lots to the matches, all of the sold asset. */
  lemma {:induction false} ClosingConserves(id: AssetId, lots: seq<Lot>, remaining: real, sellPrice: real,
                                            other: AssetId)
    requires Positive(lots) && remaining >= 0.0
    ensures var c := CloseLots(id, lots, remaining, sellPrice);
            && Matched(c.matches, other) == (if other == id then remaining - c.remaining else 0.0)
            && Quantity(lots) == Quantity(c.lots) + (remaining - c.remaining)
            && Cost(lots) == Cost(c.lots) + ConsumedCost(c.matches)
            && Proceeds(c.matches) == Worth(remaining - c.remaining, sellPrice)
    decreases |lots|, if remaining > 0.0 then 1 else 0
  {
    if remaining > 0.0 && lots != [] {
      var matched := Min(lots[0].quantity, remaining);
      assert lots[0] in lots && lots[0].quantity > 0.0;
      var tail := AfterMatch(lots, matched);
      var m := Match(id, matched, lots[0].price, sellPrice);
      var rest := CloseLots(id, tail, remaining - matched, sellPrice);
      assert CloseLots(id, lots, remaining, sellPrice) == rest.(matches := [m] + rest.matches);
      HeadLot(lots, matched);
      hide *;
      ClosingConserves(id, tail, remaining - matched, sellPrice, other);
      WorthSplit(matched, remaining - matched - rest.remaining, sellPrice);
      PrependMatch(m, rest.matches, other);
      assert matched + (remaining - matched - rest.remaining) == remaining - rest.remaining;
    } else {
      assert Worth(0.0, sellPrice) == 0.0;
    }
  }

  lemma HeadLot(lots: seq<Lot>, matched: real)
    requires lots != [] && Positive(lots) && matched <= lots[0].quantity
    ensures var tail := AfterMatch(lots, matched);
            && Positive(tail)
            && Quantity(lots) == matched + Quantity(tail)
            && Cost(lots) == Worth(matched, lots[0].price) + Cost(tail)
  {
    var left := lots[0].quantity - matched;
    assert lots == [lots[0]] + lots[1..];
    SplitLots([lots[0]], lots[1..]);
    OneLot(lots[0]);
    SplitLots([Lot(left, lots[0].price)], lots[1..]);
    OneLot(Lot(left, lots[0].price));
    WorthSplit(matched, left, lots[0].price);
    assert Worth(0.0, lots[0].price) == 0.0;
  }

  /** Every fill has a positive quantity. */
  predicate PositiveFills(trades: seq<TradeRecord>) {
    forall t :: t in trades && IsFill(t) ==> t.quantity > 0.0
  }

  function Bought(trades: seq<TradeRecord>, id: AssetId): real {
    if trades == [] then 0.0
    else
      var t := trades[|trades| - 1];
      Bought(trades[..|trades| - 1], id) + if IsFill(t) && t.side.Buy? && t.assetId == id then t.quantity else 0.0
  }

  function Sold(trades: seq<TradeRecord>, id: AssetId): real {
    if trades == [] then 0.0
    else
      var t := trades[|trades| - 1];
      Sold(trades[..|trades| - 1], id) + if IsFill(t) && t.side.Sell? && t.assetId == id then t.quantity else 0.0
  }

  /** Posting a fill touches the lots of its own asset only. */
  lemma PostTradeFrame(before: Books, t: TradeRecord)
    requires IsFill(t)
    ensures var after, lots := PostTrade(before, t), before.Lots(t.assetId);
            && (forall other :: other != t.assetId ==> after.Lots(other) == before.Lots(other))
            && (t.side.Buy? ==>
                  && after.Lots(t.assetId) == lots + [Lot(t.quantity, t.fillPrice.value)]
                  && after.matches == before.matches)
            && (t.side.Sell? ==>
                  && after.Lots(t.assetId) == CloseLots(t.assetId, lots, t.quantity, t.fillPrice.value).lots
                  && after.matches == before.matches
                     + CloseLots(t.assetId, lots, t.quantity, t.fillPrice.value).matches)
  {
    hide CloseLots;
  }

  /** One fill keeps lots positive and moves quantity between bought, matched, open and sold. */
  lemma TradeKeepsQuantity(before: Books, t: TradeRecord, id: AssetId)
    requires IsFill(t) && t.quantity > 0.0 && Positive(before.Lots(t.assetId)) && Positive(before.Lots(id))
    ensures var after := PostTrade(before, t);
            && Positive(after.Lots(id))
            && Matched(after.matches, id) + Quantity(after.Lots(id))
               == Matched(before.matches, id) + Quantity(before.Lots(id))
                  + (if t.side.Buy? && t.assetId == id then t.quantity else 0.0)
            && Matched(after.matches, id) - Matched(before.matches, id)
               <= if t.side.Sell? && t.assetId == id then t.quantity else 0.0
  {
    PostTradeFrame(before, t);
    hide PostTrade, Quantity, Matched, CloseLots, Books.Lots;
    var lots, price := before.Lots(t.assetId), t.fillPrice.value;
    if t.side.Buy? {
      SplitLots(lots, [Lot(t.quantity, price)]);
      OneLot(Lot(t.quantity, price));
    } else {
      ClosingKeepsPositive(t.assetId, lots, t.quantity, price);
      ClosingConserves(t.assetId, lots, t.quantity, price, id);
      SplitMatches(before.matches, CloseLots(t.assetId, lots, t.quantity, price).matches, id);
    }
  }

  /** Main result: for any sequence of positive fills, per asset, what was bought is what was matched
      plus what is open; no more is matched than was sold; and no empty lot is kept. */
  lemma {:induction false} QuantityConserved(trades: seq<TradeRecord>, id: AssetId)
    requires PositiveFills(trades)
    ensures var b := MatchAll(trades);
            && Positive(b.Lots(id))
            && Bought(trades, id) == Matched(b.matches, id) + Quantity(b.Lots(id))
            && Matched(b.matches, id) <= Sold(trades, id)
  {
    hide PostTrade, Positive;
    if trades == [] {
      NothingMatched(id);
    } else {
      var n := |trades| - 1;
      QuantityConserved(trades[..n], id);
      assert trades[n] in trades;
      if IsFill(trades[n]) {
        QuantityConserved(trades[..n], trades[n].assetId);
        TradeKeepsQuantity(MatchAll(trades[..n]), trades[n], id);
      } else {
        PostNothing(MatchAll(trades[..n]), trades[n]);
      }
    }
  }

  lemma NothingMatched(id: AssetId)
    ensures MatchAll([]).Lots(id) == [] && MatchAll([]).matches == [] && Positive([])
  {
  }

  lemma PostNothing(before: Books, t: TradeRecord)
    requires !IsFill(t)
    ensures PostTrade(before, t) == before
  {
  }

  // ----- Money -----

  function BuyTotal(trades: seq<TradeRecord>): real {
    if trades == [] then 0.0
    else
      var t := trades[|trades| - 1];
      BuyTotal(trades[..|trades| - 1]) + if IsFill(t) && t.side.Buy? then Worth(t.quantity, t.fillPrice.value) else 0.0
  }

  function SellTotal(trades: seq<TradeRecord>): real {
    if trades == [] then 0.0
    else
      var t := trades[|trades| - 1];
      SellTotal(trades[..|trades| - 1])
        + if IsFill(t) && t.side.Sell? then Worth(t.quantity, t.fillPrice.value) else 0.0
  }

  /** Sum of the open lots' costs over the first n ids. */
  function OpenCost(ids: seq<AssetId>, b: Books, n: nat): real
    requires n <= |ids|
  {
    if n == 0 then 0.0 else OpenCost(ids, b, n - 1) + Cost(b.Lots(ids[n - 1]))
  }

  /** Every sell is covered by the lots open at that moment, and every fill is on one of `ids`. */
  predicate CoveredFills(ids: seq<AssetId>, trades: seq<TradeRecord>) {
    trades == [] ||
    var n := |trades| - 1;
    var t := trades[n];
    && CoveredFills(ids, trades[..n])
    && (IsFill(t) ==>
          && t.quantity > 0.0 && t.assetId in ids
          && (t.side.Sell? ==> t.quantity <= Quantity(MatchAll(trades[..n]).Lots(t.assetId))))
  }

  lemma {:induction false} CoveredArePositive(ids: seq<AssetId>, trades: seq<TradeRecord>)
    requires CoveredFills(ids, trades)
    ensures PositiveFills(trades)
  {
    if trades != [] {
      var n := |trades| - 1;
      CoveredArePositive(ids, trades[..n]);
      forall t | t in trades && IsFill(t)
        ensures t.quantity > 0.0
      {
        if t != trades[n] {
          assert t in trades[..n];
        }
      }
    }
  }

  lemma {:induction false} OneAssetsLots(ids: seq<AssetId>, b: Books, b': Books, id: AssetId, n: nat)
    requires n <= |ids| && NoRepeats(ids)
    requires forall other :: other != id ==> b'.Lots(other) == b.Lots(other)
    ensures OpenCost(ids, b', n) == OpenCost(ids, b, n)
              + if id in ids[..n] then Cost(b'.Lots(id)) - Cost(b.Lots(id)) else 0.0
  {
    if n > 0 {
      OneAssetsLots(ids, b, b', id, n - 1);
      assert ids[..n] == ids[..n - 1] + [ids[n - 1]];
      if ids[n - 1] == id {
        assert id !in ids[..n - 1];
      }
    }
  }

  /** A sell no larger than the open quantity leaves nothing unmatched. */
  lemma CoveredInFull(id: AssetId, lots: seq<Lot>, quantity: real, sellPrice: real)
    requires Positive(lots) && 0.0 < quantity <= Quantity(lots)
    ensures CloseLots(id, lots, quantity, sellPrice).remaining == 0.0
  {
    ClosingKeepsPositive(id, lots, quantity, sellPrice);
    ClosingConserves(id, lots, quantity, sellPrice, id);
    assert Quantity([]) == 0.0;
  }

  lemma BuyConserves(lots: seq<Lot>, quantity: real, price: real)
    ensures Cost(lots + [Lot(quantity, price)]) == Cost(lots) + Worth(quantity, price)
  {
    SplitLots(lots, [Lot(quantity, price)]);
    OneLot(Lot(quantity, price));
  }

  lemma SellConserves(id: AssetId, lots: seq<Lot>, quantity: real, price: real, matches: seq<Match>)
    requires Positive(lots) && 0.0 < quantity <= Quantity(lots)
    ensures var c := CloseLots(id, lots, quantity, price);
            Realized(matches + c.matches) - Cost(c.lots) == Realized(matches) - Cost(lots) + Worth(quantity, price)
  {
    hide *;
    var c := CloseLots(id, lots, quantity, price);
    ClosingConserves(id, lots, quantity, price, id);
    SplitMatches(matches, c.matches, id);
    RealizedIsProceedsLessCost(c.matches);
    CoveredInFull(id, lots, quantity, price);
    assert quantity - c.remaining == quantity;
  }

  /** One covered trade changes the open cost and the realized sum by what it cost or sold for. */
  lemma TradeConserves(ids: seq<AssetId>, before: Books, t: TradeRecord)
    requires NoRepeats(ids) && IsFill(t) && t.assetId in ids && t.quantity > 0.0 && Positive(before.Lots(t.assetId))
    requires t.side.Sell? ==> t.quantity <= Quantity(before.Lots(t.assetId))
    ensures var after := PostTrade(before, t);
            var notional := Worth(t.quantity, t.fillPrice.value);
            Realized(after.matches) - OpenCost(ids, after, |ids|)
            == Realized(before.matches) - OpenCost(ids, before, |ids|) + if t.side.Sell? then notional else -notional
  {
    hide PostTrade, OpenCost, Realized, Quantity, Cost, Worth, Positive, NoRepeats, Books.Lots;
    var after, id := PostTrade(before, t), t.assetId;
    assert ids[..|ids|] == ids;
    PostTradeFrame(before, t);
    OneAssetsLots(ids, before, after, id, |ids|);
    if t.side.Buy? {
      BuyConserves(before.Lots(id), t.quantity, t.fillPrice.value);
    } else {
      SellConserves(id, before.Lots(id), t.quantity, t.fillPrice.value, before.matches);
    }
  }

  /** Main result: over any covered sequence of fills, realized gains less the cost of the open lots
      equals everything sold less everything bought. */
  lemma {:induction false} MoneyConserved(ids: seq<AssetId>, trades: seq<TradeRecord>)
    requires NoRepeats(ids) && CoveredFills(ids, trades)
    ensures Realized(MatchAll(trades).matches) - OpenCost(ids, MatchAll(trades), |ids|)
            == SellTotal(trades) - BuyTotal(trades)
  {
    if trades == [] {
      NothingOpen(ids, |ids|);
    } else {
      var n := |trades| - 1;
      MoneyConserved(ids, trades[..n]);
      if IsFill(trades[n]) {
        CoveredArePositive(ids, trades[..n]);
        QuantityConserved(trades[..n], trades[n].assetId);
        TradeConserves(ids, MatchAll(trades[..n]), trades[n]);
      }
    }
  }

  lemma {:induction false} NothingOpen(ids: seq<AssetId>, n: nat)
    requires n <= |ids|
    ensures OpenCost(ids, Books(map[], []), n) == 0.0
  {
    if n > 0 {
      NothingOpen(ids, n - 1);
    }
  }

  /** Main result: for any sequence of positive fills, covered or not, everything paid for lots is either
      the cost of matched quantities or still the cost of open lots. */
  lemma {:induction false} CostConserved(ids: seq<AssetId>, trades: seq<TradeRecord>)
    requires NoRepeats(ids) && PositiveFills(trades)
    requires forall t :: t in trades && IsFill(t) ==> t.assetId in ids
    ensures ConsumedCost(MatchAll(trades).matches) + OpenCost(ids, MatchAll(trades), |ids|) == BuyTotal(trades)
  {
    if trades == [] {
      NothingOpen(ids, |ids|);
    } else {
      var n := |trades| - 1;
      CostConserved(ids, trades[..n]);
      assert trades[n] in trades;
      if IsFill(trades[n]) {
        QuantityConserved(trades[..n], trades[n].assetId);
        TradeMovesCost(ids, MatchAll(trades[..n]), trades[n]);
      }
    }
  }

  lemma TradeMovesCost(ids: seq<AssetId>, before: Books, t: TradeRecord)
    requires NoRepeats(ids) && IsFill(t) && t.assetId in ids && t.quantity > 0.0 && Positive(before.Lots(t.assetId))
    ensures var after := PostTrade(before, t);
            ConsumedCost(after.matches) + OpenCost(ids, after, |ids|)
            == ConsumedCost(before.matches) + OpenCost(ids, before, |ids|)
               + if t.side.Buy? then Worth(t.quantity, t.fillPrice.value) else 0.0
  {
    hide PostTrade, OpenCost, ConsumedCost, Quantity, Cost, Worth, Positive, NoRepeats, Books.Lots, CloseLots;
    var after, id := PostTrade(before, t), t.assetId;
    assert ids[..|ids|] == ids;
    PostTradeFrame(before, t);
    OneAssetsLots(ids, before, after, id, |ids|);
    var lots, price := before.Lots(id), t.fillPrice.value;
    if t.side.Buy? {
      BuyConserves(lots, t.quantity, price);
    } else {
      ClosingConserves(id, lots, t.quantity, price, id);
      SplitMatches(before.matches, CloseLots(id, lots, t.quantity, price).matches, id);
    }
  }

  /** In a covered sequence the open lots are exactly what was bought and not sold. */
  lemma {:induction false} OpenIsBoughtLessSold(ids: seq<AssetId>, trades: seq<TradeRecord>, id: AssetId)
    requires CoveredFills(ids, trades)
    ensures Quantity(MatchAll(trades).Lots(id)) == Bought(trades, id) - Sold(trades, id)
    ensures Positive(MatchAll(trades).Lots(id))
  {
    CoveredArePositive(ids, trades);
    QuantityConserved(trades, id);
    if trades != [] {
      var n := |trades| - 1;
      var before, t := MatchAll(trades[..n]), trades[n];
      OpenIsBoughtLessSold(ids, trades[..n], id);
      if IsFill(t) && t.side.Buy? {
        SplitLots(before.Lots(t.assetId), [Lot(t.quantity, t.fillPrice.value)]);
        OneLot(Lot(t.quantity, t.fillPrice.value));
      } else if IsFill(t) && t.assetId == id {
        ClosingKeepsPositive(id, before.Lots(id), t.quantity, t.fillPrice.value);
        ClosingConserves(id, before.Lots(id), t.quantity, t.fillPrice.value, id);
        CoveredInFull(id, before.Lots(id), t.quantity, t.fillPrice.value);
      }
    }
  }

  // ----- The statistics -----

  function Wins(ms: seq<Match>): seq<real> {
    if ms == [] then []
    else if Gain(ms[|ms| - 1]) > 0.0 then Wins(ms[..|ms| - 1]) + [Gain(ms[|ms| - 1])]
    else Wins(ms[..|ms| - 1])
  }

  function Losses(ms: seq<Match>): seq<real> {
    if ms == [] then []
    else if Gain(ms[|ms| - 1]) < 0.0 then Losses(ms[..|ms| - 1]) + [Gain(ms[|ms| - 1])]
    else Losses(ms[..|ms| - 1])
  }

  function Ties(ms: seq<Match>): nat {
    if ms == [] then 0 else Ties(ms[..|ms| - 1]) + if Gain(ms[|ms| - 1]) == 0.0 then 1 else 0
  }

  function Sum(xs: seq<real>): real {
    if xs == [] then 0.0 else Sum(xs[..|xs| - 1]) + xs[|xs| - 1]
  }

  datatype Stats = Stats(winRate: Option<real>, profitLossRatio: Option<real>, closed: nat, wins: nat, losses: nat)

  function StatsOf(ms: seq<Match>): Stats {
    var wins, losses := Wins(ms), Losses(ms);
    if ms == [] then Stats(None, None, 0, 0, 0)
    else
      Stats(Some(|wins| as real / |ms| as real),
            if wins == [] || losses == [] then None else Ratio(wins, losses),
            |ms|, |wins|, |losses|)
  }

  function Quotient(x: real, y: real): real
    requires y != 0.0
  {
    x / y
  }

  function Mean(xs: seq<real>): real
    requires xs != []
  {
    Quotient(Sum(xs), |xs| as real)
  }

  /** Average win over average loss; a zero average loss would be a division by zero. */
  function Ratio(wins: seq<real>, losses: seq<real>): Option<real>
    requires wins != [] && losses != []
  {
    if Mean(losses) == 0.0 then None else Some(Quotient(Mean(wins), Abs(Mean(losses))))
  }

  lemma {:induction false} LossesAreNegative(ms: seq<Match>)
    ensures forall i :: 0 <= i < |Losses(ms)| ==> Losses(ms)[i] < 0.0
    ensures forall i :: 0 <= i < |Wins(ms)| ==> Wins(ms)[i] > 0.0
    ensures |Wins(ms)| + |Losses(ms)| + Ties(ms) == |ms|
    ensures Sum(Wins(ms)) + Sum(Losses(ms)) == Realized(ms)
  {
    if ms != [] {
      var n := |ms| - 1;
      LossesAreNegative(ms[..n]);
      assert (Wins(ms[..n]) + [Gain(ms[n])])[..|Wins(ms[..n])|] == Wins(ms[..n]);
      assert (Losses(ms[..n]) + [Gain(ms[n])])[..|Losses(ms[..n])|] == Losses(ms[..n]);
    }
  }

  lemma {:induction false} NegativeSum(xs: seq<real>)
    requires xs != [] && forall i :: 0 <= i < |xs| ==> xs[i] < 0.0
    ensures Sum(xs) < 0.0
  {
    if |xs| > 1 {
      NegativeSum(xs[..|xs| - 1]);
    } else {
      assert xs[..0] == [];
    }
  }

  lemma NegativeQuotient(x: real, y: real)
    requires x < 0.0 && y > 0.0
    ensures Quotient(x, y) < 0.0
  {
    assert Quotient(x, y) * y == x;
  }

  lemma NegativeMean(xs: seq<real>)
    requires xs != [] && forall i :: 0 <= i < |xs| ==> xs[i] < 0.0
    ensures Mean(xs) < 0.0
  {
    NegativeSum(xs);
    NegativeQuotient(Sum(xs), |xs| as real);
  }

  /** The ratio never divides by zero: it is missing exactly when there are no wins or no losses. */
  lemma RatioDefined(ms: seq<Match>)
    ensures StatsOf(ms).profitLossRatio.None? <==> Wins(ms) == [] || Losses(ms) == []
  {
    hide Quotient, Sum, Mean, Gain;
    LossesAreNegative(ms);
    if Losses(ms) != [] {
      NegativeMean(Losses(ms));
    }
  }

  function DateKey(t: TradeRecord): int {
    if t.tradeDate.Some? then t.tradeDate.value else 0
  }

  function Dated(trades: seq<TradeRecord>): seq<TradeRecord> {
    if trades == [] then []
    else if trades[|trades| - 1].tradeDate.Some? then Dated(trades[..|trades| - 1]) + [trades[|trades| - 1]]
    else Dated(trades[..|trades| - 1])
  }

  /** The fills in matching order: dated ones, stably sorted by date. */
  function Ordered(filled: seq<TradeRecord>): seq<TradeRecord> {
    SortedByKey(DateKey, Dated(filled))
  }

  lemma {:induction false} InsertKeeps(xs: seq<TradeRecord>, x: TradeRecord)
    requires IsFill(x) && forall t :: t in xs ==> IsFill(t)
    ensures forall t :: t in InsertByKey(DateKey, xs, x) ==> IsFill(t)
  {
    if xs != [] {
      InsertKeeps(xs[..|xs| - 1], x);
    }
  }

  lemma {:induction false} SortKeeps(xs: seq<TradeRecord>)
    requires forall t :: t in xs ==> IsFill(t)
    ensures forall t :: t in SortedByKey(DateKey, xs) ==> IsFill(t)
  {
    if xs != [] {
      SortKeeps(xs[..|xs| - 1]);
      InsertKeeps(SortedByKey(DateKey, xs[..|xs| - 1]), xs[|xs| - 1]);
    }
  }

  lemma {:induction false} DatedKeeps(xs: seq<TradeRecord>)
    requires forall t :: t in xs ==> t.status.Filled? && t.fillPrice.Some?
    ensures forall t :: t in Dated(xs) ==> IsFill(t)
  {
    if xs != [] {
      assert xs[|xs| - 1] in xs;
      DatedKeeps(xs[..|xs| - 1]);
    }
  }

  /** Appending one match to a list extends the sorted-out gains accordingly. */
  lemma NoGains()
    ensures Wins([]) == [] && Losses([]) == [] && Ties([]) == 0
  {
  }

  lemma AppendMatch(ms: seq<Match>, m: Match)
    ensures Wins(ms + [m]) == if Gain(m) > 0.0 then Wins(ms) + [Gain(m)] else Wins(ms)
    ensures Losses(ms + [m]) == if Gain(m) < 0.0 then Losses(ms) + [Gain(m)] else Losses(ms)
    ensures Ties(ms + [m]) == Ties(ms) + if Gain(m) == 0.0 then 1 else 0
  {
    assert (ms + [m])[..|ms|] == ms;
  }

  /** The gains of `more`, sorted out and appended, give the gains of `ms + more`. */
  lemma {:induction false} AppendMatches(ms: seq<Match>, more: seq<Match>)
    ensures Wins(ms + more) == Wins(ms) + Wins(more)
    ensures Losses(ms + more) == Losses(ms) + Losses(more)
    ensures Ties(ms + more) == Ties(ms) + Ties(more)
  {
    hide Gain, Wins, Losses, Ties;
    if more == [] {
      NoGains();
      assert ms + more == ms;
    } else {
      var n := |more| - 1;
      AppendMatches(ms, more[..n]);
      AppendMatch(more[..n], more[n]);
      AppendMatch(ms + more[..n], more[n]);
      assert more == more[..n] + [more[n]];
      assert ms + more == ms + more[..n] + [more[n]];
    }
  }

  /** Closing against nonempty lots matches the front one first. */
  lemma CloseFront(id: AssetId, lots: seq<Lot>, remaining: real, sellPrice: real)
    requires remaining > 0.0 && lots != []
    ensures var matched := Min(lots[0].quantity, remaining);
            var left := lots[0].quantity - matched;
            var rest := CloseLots(id, if left == 0.0 then lots[1..] else [Lot(left, lots[0].price)] + lots[1..],
                                  remaining - matched, sellPrice);
            var c := CloseLots(id, lots, remaining, sellPrice);
            c.lots == rest.lots && c.matches == [Match(id, matched, lots[0].price, sellPrice)] + rest.matches
  {
  }

  lemma CloseNothing(id: AssetId, lots: seq<Lot>, remaining: real, sellPrice: real)
    requires remaining <= 0.0 || lots == []
    ensures CloseLots(id, lots, remaining, sellPrice) == Closing(lots, [], remaining)
  {
  }

  /** One sell consumes the lots from the front and records the sign of each realized gain. */
  method CloseAgainst(ghost id: AssetId, open: seq<Lot>, quantity: real, sellPrice: real)
    returns (lots: seq<Lot>, wins: seq<real>, losses: seq<real>, ties: nat)
    ensures var c := CloseLots(id, open, quantity, sellPrice);
            lots == c.lots && wins == Wins(c.matches) && losses == Losses(c.matches) && ties == Ties(c.matches)
  {
    hide CloseLots, Wins, Losses, Ties;
    lots, wins, losses, ties := open, [], [], 0;
    var remaining := quantity;
    ghost var matches: seq<Match> := [];
    NoGains();
    while remaining > 0.0 && lots != []
      invariant var c, all := CloseLots(id, lots, remaining, sellPrice), CloseLots(id, open, quantity, sellPrice);
                c.lots == all.lots && matches + c.matches == all.matches
      invariant wins == Wins(matches) && losses == Losses(matches) && ties == Ties(matches)
      decreases |lots|, if remaining > 0.0 then 1 else 0
    {
      var lot := lots[0];
      var matched := Min(lot.quantity, remaining);
      var realized := matched * (sellPrice - lot.price);
      ghost var m := Match(id, matched, lot.price, sellPrice);
      assert realized == Gain(m);
      CloseFront(id, lots, remaining, sellPrice);
      ghost var before := matches;
      AppendMatch(matches, m);
      if realized > 0.0 {
        wins := wins + [realized];
      } else if realized < 0.0 {
        losses := losses + [realized];
      } else {
        ties := ties + 1;
      }
      matches := matches + [m];
      remaining := remaining - matched;
      var left := lot.quantity - matched;
      if left == 0.0 {
        lots := lots[1..];
      } else {
        lots := [Lot(left, lot.price)] + lots[1..];
      }
      ghost var rest := CloseLots(id, lots, remaining, sellPrice).matches;
      assert before + ([m] + rest) == matches + rest;
    }
    CloseNothing(id, lots, remaining, sellPrice);
    assert matches + [] == matches;
  }

  /** The counts and ratios of `_fifo_realized_pnl_stats`. */
  method Summarize(ghost ms: seq<Match>, wins: seq<real>, losses: seq<real>, ties: nat) returns (stats: Stats)
    requires wins == Wins(ms) && losses == Losses(ms) && ties == Ties(ms)
    ensures stats == StatsOf(ms)
  {
    hide Quotient, Sum, Mean, Wins, Losses, Ties;
    LossesAreNegative(ms);
    var closed := |wins| + |losses| + ties;
    if closed == 0 {
      return Stats(None, None, 0, 0, 0);
    }
    var ratio: Option<real> := None;
    if wins != [] && losses != [] {
      NegativeMean(losses);
      ratio := Some(Quotient(Mean(wins), Abs(Mean(losses))));
    }
    return Stats(Some(|wins| as real / closed as real), ratio, closed, |wins|, |losses|);
  }

  /** `_fifo_realized_pnl_stats`: per-asset queues of lots, consumed from the front. */
  method RealizedPnlStats(filled: seq<TradeRecord>) returns (stats: Stats)
    requires forall t :: t in filled ==> t.status.Filled? && t.fillPrice.Some?
    ensures stats == StatsOf(MatchAll(Ordered(filled)).matches)
  {
    var ordered := SortedByKey(DateKey, Dated(filled));
    DatedKeeps(filled);
    SortKeeps(Dated(filled));
    var openLots: map<AssetId, seq<Lot>> := map[];
    var wins: seq<real>, losses: seq<real>, ties: nat := [], [], 0;
    ghost var matches: seq<Match> := [];
    for i := 0 to |ordered|
      invariant Books(openLots, matches) == MatchAll(ordered[..i])
      invariant wins == Wins(matches) && losses == Losses(matches) && ties == Ties(matches)
    {
      assert ordered[..i + 1][..i] == ordered[..i];
      var trade := ordered[i];
      assert trade in ordered;
      var lots := GetOr(openLots, trade.assetId, []);
      if trade.side.Buy? {
        openLots := openLots[trade.assetId := lots + [Lot(trade.quantity, trade.fillPrice.value)]];
        continue;
      }
      var left, newWins, newLosses, newTies := CloseAgainst(trade.assetId, lots, trade.quantity, trade.fillPrice.value);
      ghost var closed := CloseLots(trade.assetId, lots, trade.quantity, trade.fillPrice.value).matches;
      AppendMatches(matches, closed);
      matches := matches + closed;
      wins, losses, ties := wins + newWins, losses + newLosses, ties + newTies;
      openLots := openLots[trade.assetId := left];
    }
    assert ordered[..|ordered|] == ordered;
    stats := Summarize(matches, wins, losses, ties);
  }
}
