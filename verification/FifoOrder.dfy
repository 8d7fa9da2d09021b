/** Which lots a sell closes: the oldest ones, and what the statistics of the matches are, by counting them. */
module FifoOrder {
  import opened Common
  import opened Domain
  import opened Fifo

  // ----- Oldest first -----

  /** The buys of an asset, in order. */
  function Buys(trades: seq<TradeRecord>, id: AssetId): seq<Lot> {
    if trades == [] then []
    else
      var before, t := Buys(trades[..|trades| - 1], id), trades[|trades| - 1];
      if IsFill(t) && t.side.Buy? && t.assetId == id then before + [Lot(t.quantity, t.fillPrice.value)] else before
  }

  /** What is left when so many units are taken from the front. */
  function Left(lots: seq<Lot>, units: real): seq<Lot> {
    if units <= 0.0 || lots == [] then lots
    else if lots[0].quantity <= units then Left(lots[1..], units - lots[0].quantity)
    else [Lot(lots[0].quantity - units, lots[0].price)] + lots[1..]
  }

  /** The units taken from the front. */
  function Taken(lots: seq<Lot>, units: real): seq<Lot> {
    if units <= 0.0 || lots == [] then []
    else if lots[0].quantity <= units then [lots[0]] + Taken(lots[1..], units - lots[0].quantity)
    else [Lot(units, lots[0].price)]
  }

  /** What the matches took, with what it was bought for. */
  function TakenBy(ms: seq<Match>): seq<Lot> {
    seq(|ms|, i requires 0 <= i < |ms| => Lot(ms[i].quantity, ms[i].buyPrice))
  }

  lemma TakenByFront(m: Match, ms: seq<Match>)
    ensures TakenBy([m] + ms) == [Lot(m.quantity, m.buyPrice)] + TakenBy(ms)
  {
  }

  lemma NoneLeft(id: AssetId, lots: seq<Lot>, remaining: real, sellPrice: real)
    requires remaining <= 0.0 || lots == []
    ensures CloseLots(id, lots, remaining, sellPrice) == Closing(lots, [], remaining)
  {
  }

  /** Main result: a sell takes its units from the front, lot by lot at what each was bought for, and leaves the
      rest. */
  lemma {:induction false} ClosesOldest(id: AssetId, lots: seq<Lot>, units: real, sellPrice: real)
    requires Positive(lots)
    ensures var c := CloseLots(id, lots, units, sellPrice);
            && c.lots == Left(lots, units) && TakenBy(c.matches) == Taken(lots, units)
            && forall i :: 0 <= i < |c.matches| ==> c.matches[i].assetId == id && c.matches[i].sellPrice == sellPrice
    decreases |lots|
  {
    if units > 0.0 && lots != [] {
      CloseFront(id, lots, units, sellPrice);
      assert lots[0].quantity > 0.0;
      if lots[0].quantity <= units {
        ClosesOldest(id, lots[1..], units - lots[0].quantity, sellPrice);
        TakenByFront(Match(id, lots[0].quantity, lots[0].price, sellPrice),
                     CloseLots(id, lots[1..], units - lots[0].quantity, sellPrice).matches);
      } else {
        NoneLeft(id, [Lot(lots[0].quantity - units, lots[0].price)] + lots[1..], 0.0, sellPrice);
        TakenByFront(Match(id, units, lots[0].price, sellPrice), []);
      }
      hide CloseLots;
    }
  }

  lemma {:induction false} LeftIsPositive(lots: seq<Lot>, units: real)
    requires Positive(lots)
    ensures Positive(Left(lots, units))
  {
    if units > 0.0 && lots != [] && lots[0].quantity <= units {
      LeftIsPositive(lots[1..], units - lots[0].quantity);
    }
  }

  /** Taking twice is taking the sum. */
  lemma {:induction false} LeftTwice(lots: seq<Lot>, x: real, y: real)
    requires Positive(lots) && x >= 0.0 && y >= 0.0
    ensures Left(Left(lots, x), y) == Left(lots, x + y)
    decreases |lots|
  {
    if lots != [] && x > 0.0 && y > 0.0 {
      assert lots[0].quantity > 0.0;
      if lots[0].quantity <= x {
        LeftTwice(lots[1..], x - lots[0].quantity, y);
      } else {
        var first := [Lot(lots[0].quantity - x, lots[0].price)] + lots[1..];
        assert first[1..] == lots[1..] && first[0].quantity == lots[0].quantity - x;
      }
    }
  }

  /** A lot added behind what is taken stays. */
  lemma {:induction false} LeftBehind(lots: seq<Lot>, lot: Lot, units: real)
    requires Positive(lots) && units <= Quantity(lots)
    ensures Left(lots + [lot], units) == Left(lots, units) + [lot]
    decreases |lots|
  {
    if units > 0.0 && lots != [] {
      assert (lots + [lot])[1..] == lots[1..] + [lot];
      assert lots == [lots[0]] + lots[1..];
      SplitLots([lots[0]], lots[1..]);
      OneLot(lots[0]);
      if lots[0].quantity <= units {
        LeftBehind(lots[1..], lot, units - lots[0].quantity);
      }
    }
  }

  lemma OneLot(lot: Lot)
    ensures Quantity([lot]) == lot.quantity
  {
    assert [lot][..0] == [];
  }

  /** Taking more than there is takes everything. */
  lemma {:induction false} LeftOfAll(lots: seq<Lot>, units: real)
    requires Positive(lots) && units >= Quantity(lots)
    ensures Left(lots, units) == []
    decreases |lots|
  {
    if lots != [] {
      assert lots == [lots[0]] + lots[1..];
      SplitLots([lots[0]], lots[1..]);
      OneLot(lots[0]);
      QuantityNotNegative(lots[1..]);
      assert lots[0].quantity > 0.0;
      LeftOfAll(lots[1..], units - lots[0].quantity);
    }
  }

  lemma {:induction false} QuantityNotNegative(lots: seq<Lot>)
    requires Positive(lots)
    ensures Quantity(lots) >= 0.0
  {
    if lots != [] {
      QuantityNotNegative(lots[..|lots| - 1]);
      assert lots[|lots| - 1].quantity > 0.0;
    }
  }

  lemma {:induction false} BuysAreBought(trades: seq<TradeRecord>, id: AssetId)
    requires PositiveFills(trades)
    ensures Quantity(Buys(trades, id)) == Bought(trades, id) && Positive(Buys(trades, id))
  {
    if trades != [] {
      var n := |trades| - 1;
      BuysAreBought(trades[..n], id);
      var t := trades[n];
      assert t in trades;
      if IsFill(t) && t.side.Buy? && t.assetId == id {
        var lot := Lot(t.quantity, t.fillPrice.value);
        SplitLots(Buys(trades[..n], id), [lot]);
        OneLot(lot);
      }
    }
  }

  /** A sell of the asset takes what it matches from the front. */
  lemma SellTakes(id: AssetId, lots: seq<Lot>, units: real, sellPrice: real)
    requires Positive(lots) && units > 0.0
    ensures var c := CloseLots(id, lots, units, sellPrice);
            && 0.0 <= Matched(c.matches, id) && c.lots == Left(lots, Matched(c.matches, id))
            && forall other :: other != id ==> Matched(c.matches, other) == 0.0
  {
    var c := CloseLots(id, lots, units, sellPrice);
    ClosesOldest(id, lots, units, sellPrice);
    ClosingKeepsPositive(id, lots, units, sellPrice);
    ClosingConserves(id, lots, units, sellPrice, id);
    forall other | other != id
      ensures Matched(c.matches, other) == 0.0
    {
      ClosingConserves(id, lots, units, sellPrice, other);
    }
    hide CloseLots, Left, Matched, Quantity, Cost, ConsumedCost, Proceeds, Worth, TakenBy, Taken, Positive;
    if c.remaining > 0.0 {
      NoQuantity();
      LeftOfAll(lots, units);
      LeftOfAll(lots, units - c.remaining);
    }
  }

  lemma NoQuantity()
    ensures Quantity([]) == 0.0
  {
  }

  lemma NothingTaken(lots: seq<Lot>)
    ensures Left(lots, 0.0) == lots
  {
  }

  lemma NotPosted(before: Books, t: TradeRecord)
    requires !IsFill(t)
    ensures PostTrade(before, t) == before
  {
  }

  lemma PostSold(before: Books, t: TradeRecord, id: AssetId)
    requires IsFill(t) && t.side.Sell?
    ensures var c := CloseLots(t.assetId, before.Lots(t.assetId), t.quantity, t.fillPrice.value);
            && PostTrade(before, t).matches == before.matches + c.matches
            && PostTrade(before, t).Lots(id) == if id == t.assetId then c.lots else before.Lots(id)
  {
    hide CloseLots;
  }

  lemma PostBought(before: Books, t: TradeRecord, id: AssetId)
    requires IsFill(t) && t.side.Buy?
    ensures PostTrade(before, t).matches == before.matches
    ensures PostTrade(before, t).Lots(id)
            == if id == t.assetId then before.Lots(id) + [Lot(t.quantity, t.fillPrice.value)] else before.Lots(id)
  {
  }

  /** One record keeps the open lots what is left of the buys. */
  lemma RecordKeepsOrder(before: Books, t: TradeRecord, buys: seq<Lot>, id: AssetId)
    requires IsFill(t) && t.quantity > 0.0
    requires Positive(buys) && Positive(before.Lots(t.assetId)) && 0.0 <= Matched(before.matches, id) <= Quantity(buys)
    requires before.Lots(id) == Left(buys, Matched(before.matches, id))
    ensures var after := PostTrade(before, t);
            && 0.0 <= Matched(after.matches, id)
            && after.Lots(id)
               == Left(if t.side.Buy? && t.assetId == id then buys + [Lot(t.quantity, t.fillPrice.value)] else buys,
                       Matched(after.matches, id))
  {
    hide PostTrade, CloseLots, Left, Matched, Quantity, Positive, Books.Lots;
    if t.side.Sell? {
      var price := t.fillPrice.value;
      var c := CloseLots(t.assetId, before.Lots(t.assetId), t.quantity, price);
      PostSold(before, t, id);
      SellTakes(t.assetId, before.Lots(t.assetId), t.quantity, price);
      SplitMatches(before.matches, c.matches, id);
      if t.assetId == id {
        LeftTwice(buys, Matched(before.matches, id), Matched(c.matches, id));
      }
    } else {
      PostBought(before, t, id);
      if t.assetId == id {
        LeftBehind(buys, Lot(t.quantity, t.fillPrice.value), Matched(before.matches, id));
      }
    }
  }

  /** Main result: whatever is sold, the open lots of an asset are its buys, in order, without as many units from the
      front as have been matched: the oldest are closed first. */
  lemma {:induction false} OldestFirst(trades: seq<TradeRecord>, id: AssetId)
    requires PositiveFills(trades)
    ensures 0.0 <= Matched(MatchAll(trades).matches, id)
    ensures MatchAll(trades).Lots(id) == Left(Buys(trades, id), Matched(MatchAll(trades).matches, id))
  {
    hide PostTrade, Left, Quantity, Positive;
    if trades == [] {
      NothingMatched(id);
      NothingTaken([]);
    } else {
      var n := |trades| - 1;
      var before, t := trades[..n], trades[n];
      assert t in trades;
      OldestFirst(before, id);
      BuysAreBought(before, id);
      QuantityConserved(before, id);
      QuantityConserved(before, t.assetId);
      QuantityNotNegative(MatchAll(before).Lots(id));
      if IsFill(t) {
        RecordKeepsOrder(MatchAll(before), t, Buys(before, id), id);
      } else {
        NotPosted(MatchAll(before), t);
      }
    }
  }

  // ----- The statistics, counted -----

  /** What a match earns. */
  function Earned(m: Match): real {
    m.quantity * (m.sellPrice - m.buyPrice)
  }

  function Winners(ms: seq<Match>): set<int> {
    set i | 0 <= i < |ms| && Earned(ms[i]) > 0.0
  }

  function Losers(ms: seq<Match>): set<int> {
    set i | 0 <= i < |ms| && Earned(ms[i]) < 0.0
  }

  /** Everything earned by matches that earn. */
  function TotalWon(ms: seq<Match>): real {
    if ms == [] then 0.0 else TotalWon(ms[..|ms| - 1]) + Max(Earned(ms[|ms| - 1]), 0.0)
  }

  /** Everything lost by matches that lose, as a positive number. */
  function TotalLost(ms: seq<Match>): real {
    if ms == [] then 0.0 else TotalLost(ms[..|ms| - 1]) + Max(-Earned(ms[|ms| - 1]), 0.0)
  }

  lemma OneMoreWinner(ms: seq<Match>, m: Match)
    ensures |Winners(ms + [m])| == |Winners(ms)| + if Earned(m) > 0.0 then 1 else 0
  {
    hide Earned;
    var more := ms + [m];
    assert forall i :: 0 <= i < |ms| ==> more[i] == ms[i];
    assert Winners(more) == if Earned(m) > 0.0 then Winners(ms) + {|ms|} else Winners(ms);
  }

  lemma OneMoreLoser(ms: seq<Match>, m: Match)
    ensures |Losers(ms + [m])| == |Losers(ms)| + if Earned(m) < 0.0 then 1 else 0
  {
    hide Earned;
    var more := ms + [m];
    assert forall i :: 0 <= i < |ms| ==> more[i] == ms[i];
    assert Losers(more) == if Earned(m) < 0.0 then Losers(ms) + {|ms|} else Losers(ms);
  }

  lemma OneMoreTotal(ms: seq<Match>, m: Match)
    ensures TotalWon(ms + [m]) == TotalWon(ms) + Max(Earned(m), 0.0)
    ensures TotalLost(ms + [m]) == TotalLost(ms) + Max(-Earned(m), 0.0)
  {
    hide Earned;
    assert (ms + [m])[..|ms|] == ms;
  }

  lemma SumMore(xs: seq<real>, x: real)
    ensures Sum(xs + [x]) == Sum(xs) + x
  {
    assert (xs + [x])[..|xs|] == xs;
  }

  lemma NothingCounted()
    ensures Winners([]) == {} && Losers([]) == {} && TotalWon([]) == TotalLost([]) == Sum([]) == 0.0
  {
  }

  lemma {:induction false} CountsAndTotals(ms: seq<Match>)
    ensures |Wins(ms)| == |Winners(ms)| && |Losses(ms)| == |Losers(ms)|
    ensures Sum(Wins(ms)) == TotalWon(ms) && Sum(Losses(ms)) == -TotalLost(ms)
  {
    hide Earned, Gain, Wins, Losses, Ties, Winners, Losers, TotalWon, TotalLost, Sum;
    if ms == [] {
      NoGains();
      NothingCounted();
    } else {
      var n := |ms| - 1;
      CountsAndTotals(ms[..n]);
      assert ms == ms[..n] + [ms[n]];
      SameEarned(ms[n]);
      AppendMatch(ms[..n], ms[n]);
      OneMoreWinner(ms[..n], ms[n]);
      OneMoreLoser(ms[..n], ms[n]);
      OneMoreTotal(ms[..n], ms[n]);
      SumMore(Wins(ms[..n]), Gain(ms[n]));
      SumMore(Losses(ms[..n]), Gain(ms[n]));
    }
  }

  lemma SameEarned(m: Match)
    ensures Gain(m) == Earned(m)
  {
  }

  /** The average win over the average loss. */
  predicate IsRatio(ratio: real, won: real, wins: nat, lost: real, losses: nat) {
    ratio * lost * wins as real == won * losses as real
  }

  /** One count is this share of the other. */
  predicate IsShare(share: real, part: nat, whole: nat) {
    share * whole as real == part as real
  }

  lemma RatioAlgebra(wins: real, w: real, losses: real, l: real, ratio: real)
    requires w > 0.0 && l > 0.0 && losses > 0.0 && ratio == (wins / w) / (losses / l)
    ensures ratio * losses * w == wins * l
  {
    var x, y := wins / w, losses / l;
    assert x * w == wins && y * l == losses;
    assert y > 0.0;
    assert ratio * y == x;
    assert ratio * (y * l) * w == (ratio * y) * l * w;
  }

  /** Main result: closed, winning and losing matches are counted; the win rate is the share of winning ones; and the
      ratio is the average win over the average loss, missing exactly when one of them is. */
  lemma StatsCount(ms: seq<Match>)
    ensures var s, w, l := StatsOf(ms), |Winners(ms)|, |Losers(ms)|;
            && s.closed == |ms| && s.wins == w && s.losses == l
            && (s.winRate.None? <==> ms == [])
            && (s.winRate.Some? ==> IsShare(s.winRate.value, w, |ms|))
            && (s.profitLossRatio.None? <==> w == 0 || l == 0)
            && (s.profitLossRatio.Some? ==> IsRatio(s.profitLossRatio.value, TotalWon(ms), w, TotalLost(ms), l))
  {
    hide Wins, Losses, Winners, Losers, TotalWon, TotalLost, Sum, Mean, Ratio, Gain, Ties, Quotient,
         IsRatio, IsShare;
    CountsAndTotals(ms);
    RatioDefined(ms);
    LossesAreNegative(ms);
    if ms != [] {
      RateOf(|Wins(ms)|, |ms|);
    }
    if Wins(ms) != [] && Losses(ms) != [] {
      RatioMeans(Wins(ms), Losses(ms));
    }
  }

  lemma RatioMeans(wins: seq<real>, losses: seq<real>)
    requires wins != [] && losses != [] && forall i :: 0 <= i < |losses| ==> losses[i] < 0.0
    ensures Ratio(wins, losses).Some?
    ensures IsRatio(Ratio(wins, losses).value, Sum(wins), |wins|, -Sum(losses), |losses|)
  {
    NegativeSum(losses);
    NegativeMean(losses);
    MeanOf(losses);
    RatioSolved(Sum(wins), |wins|, -Sum(losses), |losses|);
    hide Sum, IsRatio;
  }

  lemma RatioSolved(won: real, wins: nat, lost: real, losses: nat)
    requires wins > 0 && losses > 0 && lost > 0.0
    ensures lost / losses as real > 0.0
    ensures IsRatio((won / wins as real) / (lost / losses as real), won, wins, lost, losses)
  {
    var y := lost / losses as real;
    assert y * losses as real == lost;
    RatioAlgebra(won, wins as real, lost, losses as real, (won / wins as real) / y);
  }

  lemma MeanOf(losses: seq<real>)
    requires losses != [] && Mean(losses) < 0.0
    ensures Abs(Mean(losses)) == -Sum(losses) / |losses| as real
  {
    var n := |losses| as real;
    var m := Sum(losses) / n;
    assert m * n == Sum(losses);
    assert (-m) * n == -Sum(losses);
  }

  lemma RateOf(w: nat, n: nat)
    requires n > 0
    ensures IsShare(w as real / n as real, w, n)
  {
  }
}
