/** The running average cost: zero when flat, otherwise between the cheapest and the dearest buy since the position
    was last flat; and times the position it is always what was paid for what is still held. */
module AverageCost {
  import opened Common
  import opened Domain
  import opened Engine
  import opened RunFacts
  import opened LongOnly
  import opened Matching

  /** What the log says of one asset: the quantity, the buy prices since it was last flat, and what was paid for the
      quantity, a sell taking its share of that. */
  datatype Holding = Holding(quantity: real, buyPrices: seq<real>, paid: real)

  /** The part of an amount that goes with a part of the whole. */
  function Share(amount: real, whole: real, part: real): real {
    if whole == 0.0 then 0.0 else Worth(amount / whole, part)
  }

  function HoldingAfter(h: Holding, t: TradeRecord, id: AssetId): Holding {
    if !t.status.Filled? || t.fillPrice.None? || t.assetId != id then h
    else if t.side.Buy? then
      Holding(h.quantity + t.quantity, h.buyPrices + [t.fillPrice.value], h.paid + Worth(t.quantity, t.fillPrice.value))
    else if h.quantity - t.quantity == 0.0 then Holding(0.0, [], 0.0)
    else Holding(h.quantity - t.quantity, h.buyPrices, Share(h.paid, h.quantity, h.quantity - t.quantity))
  }

  function HoldingOf(trades: seq<TradeRecord>, id: AssetId): Holding {
    if trades == [] then Holding(0.0, [], 0.0)
    else HoldingAfter(HoldingOf(trades[..|trades| - 1], id), trades[|trades| - 1], id)
  }

  predicate Between(x: real, prices: seq<real>) {
    (exists i :: 0 <= i < |prices| && prices[i] <= x) && (exists j :: 0 <= j < |prices| && x <= prices[j])
  }

  predicate CostSane(quantity: real, cost: real, h: Holding) {
    && h.quantity == quantity && Worth(quantity, cost) == h.paid
    && (quantity == 0.0 ==> cost == 0.0 && h.buyPrices == [])
    && (quantity != 0.0 ==> Between(cost, h.buyPrices))
  }

  ghost predicate CostsSane(s: State) {
    forall id :: id in s.positions ==>
      id in s.averageCost && CostSane(s.positions[id], s.averageCost[id], HoldingOf(s.trades, id))
  }

  /** The new average after buying `delta` at `price`. */
  function Average(quantity: real, cost: real, delta: real, price: real): real
    requires quantity + delta != 0.0
  {
    (quantity * cost + delta * price) / (quantity + delta)
  }

  lemma WeightedAverage(q: real, cost: real, delta: real, price: real)
    requires q > 0.0 && delta > 0.0
    ensures var x := Average(q, cost, delta, price);
            (cost <= x || price <= x) && (x <= cost || x <= price)
  {
    var x := (q * cost + delta * price) / (q + delta);
    assert x * (q + delta) == q * cost + delta * price;
    assert q * (x - cost) == delta * (price - x);
    SameSign(q, x - cost, delta, price - x);
  }

  lemma SameSign(q: real, u: real, delta: real, v: real)
    requires q > 0.0 && delta > 0.0 && q * u == delta * v
    ensures u < 0.0 ==> v < 0.0
    ensures u > 0.0 ==> v > 0.0
  {
    if u < 0.0 {
      assert q * u < 0.0;
    }
    if u > 0.0 {
      assert q * u > 0.0;
    }
  }

  lemma FirstBuy(cost: real, delta: real, price: real)
    requires delta > 0.0
    ensures Average(0.0, cost, delta, price) == price
  {
    assert (delta * price) / delta == price;
  }

  /** A buy keeps the average inside the span of the buy prices. */
  lemma BuyKeepsSpan(quantity: real, cost: real, h: Holding, delta: real, price: real)
    requires CostSane(quantity, cost, h) && quantity >= 0.0 && delta > 0.0
    ensures CostSane(quantity + delta, Average(quantity, cost, delta, price),
                     Holding(h.quantity + delta, h.buyPrices + [price], h.paid + Worth(delta, price)))
  {
    AveragePays(quantity, cost, delta, price);
    hide Average, Worth;
    var x := Average(quantity, cost, delta, price);
    var prices := h.buyPrices + [price];
    assert prices[|h.buyPrices|] == price;
    if quantity == 0.0 {
      FirstBuy(cost, delta, price);
      assert x == price;
    } else {
      WeightedAverage(quantity, cost, delta, price);
      var i :| 0 <= i < |h.buyPrices| && h.buyPrices[i] <= cost;
      var j :| 0 <= j < |h.buyPrices| && cost <= h.buyPrices[j];
      assert prices[i] == h.buyPrices[i] && prices[j] == h.buyPrices[j];
    }
  }

  lemma SellKeepsSpan(quantity: real, cost: real, h: Holding, sold: real)
    requires CostSane(quantity, cost, h) && 0.0 < sold <= quantity
    ensures CostSane(quantity - sold, if quantity - sold == 0.0 then 0.0 else cost,
                     if h.quantity - sold == 0.0 then Holding(0.0, [], 0.0)
                     else Holding(h.quantity - sold, h.buyPrices, Share(h.paid, h.quantity, h.quantity - sold)))
  {
    ShareOfCost(quantity, cost, quantity - sold);
    hide Worth, Share;
  }

  lemma AveragePays(quantity: real, cost: real, delta: real, price: real)
    requires quantity + delta != 0.0
    ensures Worth(quantity + delta, Average(quantity, cost, delta, price))
            == Worth(quantity, cost) + Worth(delta, price)
  {
    var x := Average(quantity, cost, delta, price);
    assert x * (quantity + delta) == quantity * cost + delta * price;
  }

  lemma ShareOfCost(quantity: real, cost: real, part: real)
    requires quantity > 0.0
    ensures Share(Worth(quantity, cost), quantity, part) == Worth(part, cost)
    ensures Worth(0.0, cost) == 0.0 && Worth(0.0, 0.0) == 0.0
  {
    assert Worth(quantity, cost) / quantity == cost;
  }

  lemma HoldingStep(trades: seq<TradeRecord>, t: TradeRecord, id: AssetId)
    ensures HoldingOf(trades + [t], id) == HoldingAfter(HoldingOf(trades, id), t, id)
  {
    assert (trades + [t])[..|trades|] == trades;
  }

  lemma ExactBooks(num: Decimals, q: real, c: real, delta: real, price: real)
    requires num.Exact()
    ensures num.add(q, delta) == q + delta
    ensures q + delta != 0.0 ==>
              num.Divide(num.add(num.mul(q, c), num.mul(delta, price)), num.add(q, delta))
                == Success(Average(q, c, delta, price))
    ensures q + delta == 0.0 ==> num.Divide(num.add(num.mul(q, c), num.mul(delta, price)), num.add(q, delta)).Failure?
  {
  }

  /** What a fill does to the books of its asset. */
  lemma FillBooks(b: Backtest, s: State, p: PlannedOrder, day: nat) returns (t: TradeRecord)
    requires b.cfg.num.Exact() && FillOne(b, s, p, day).Success? && Covered(s.positions, p)
    ensures var s' := FillOne(b, s, p, day).value;
            && s'.trades == s.trades + [t] && t.assetId == p.assetId
            && (!t.status.Filled? ==> s'.positions == s.positions && s'.averageCost == s.averageCost)
            && (t.status.Filled? ==>
                  && t.fillPrice.Some? && 0.0 < t.quantity <= p.quantity && t.side == p.side
                  && p.assetId in s.positions && p.assetId in s.averageCost
                  && var q, c := s.positions[p.assetId], s.averageCost[p.assetId];
                     var q' := if t.side.Buy? then q + t.quantity else q - t.quantity;
                     && (t.side.Buy? ==> q + t.quantity != 0.0)
                     && s'.positions == s.positions[p.assetId := q']
                     && s'.averageCost == s.averageCost[p.assetId :=
                          if q' == 0.0 then 0.0
                          else if t.side.Buy? then Average(q, c, t.quantity, t.fillPrice.value)
                          else c])
  {
    hide FillsFit, SellsFit, Average, RoundToLot, ApplySlippage, ComputeCommission, PriceAt, SizeFill;
    FillOneEffect(b, s, p, day);
    ExactFits(b);
    SizedAtMostPlanned(b, p);
    var s' := FillOne(b, s, p, day).value;
    t := s'.trades[|s'.trades| - 1];
    var c := s.context[p.assetId];
    var quote := PriceAt(b, p.assetId, day, Open).value;
    var f := SimulateFill(b, p, quote.price, b.cfg.startDate + day, s.seqNo + 1, c).value;
    hide Decimals.Exact;
    assert Book(b, s, p, f).value == s';
    assert t == f.record;
    if t.status.Filled? {
      ExactBooks(b.cfg.num, s.positions[p.assetId], s.averageCost[p.assetId], f.positionDelta, t.fillPrice.value);
    }
  }

  lemma FillKeepsCosts(b: Backtest, s: State, p: PlannedOrder, day: nat)
    requires b.cfg.num.Exact() && FillOne(b, s, p, day).Success?
    requires NoShorts(s.positions) && Covered(s.positions, p) && CostsSane(s)
    ensures CostsSane(FillOne(b, s, p, day).value)
  {
    hide FillOne, Average, Decimals.Exact, CostSane, HoldingOf, Worth, Share;
    var t := FillBooks(b, s, p, day);
    var s' := FillOne(b, s, p, day).value;
    forall id | id in s'.positions
      ensures id in s'.averageCost && CostSane(s'.positions[id], s'.averageCost[id], HoldingOf(s'.trades, id))
    {
      HoldingStep(s.trades, t, id);
      if t.status.Filled? && id == p.assetId {
        if t.side.Buy? {
          BuyKeepsSpan(s.positions[id], s.averageCost[id], HoldingOf(s.trades, id), t.quantity, t.fillPrice.value);
        } else {
          SellKeepsSpan(s.positions[id], s.averageCost[id], HoldingOf(s.trades, id), t.quantity);
        }
      }
    }
  }

  lemma {:induction false} FillsKeepCosts(b: Backtest, s: State, day: nat, n: nat)
    requires b.cfg.num.Exact() && n <= |s.pending| && FillUpTo(b, s, day, n).Success? && Long(s) && CostsSane(s)
    ensures CostsSane(FillUpTo(b, s, day, n).value)
  {
    hide FillOne, CostsSane, FillsFit, SellsFit;
    if n > 0 {
      FillsKeepCosts(b, s, day, n - 1);
      ExactFits(b);
      FillUpToLong(b, s, day, n - 1);
      var before, p := FillUpTo(b, s, day, n - 1).value, s.pending[n - 1];
      assert p in s.pending;
      assert Covered(before.positions, p);
      FillKeepsCosts(b, before, p, day);
    }
  }

  lemma {:induction false} RefusalsKeepHoldings(before: seq<TradeRecord>, after: seq<TradeRecord>, id: AssetId)
    requires before <= after && forall i :: |before| <= i < |after| ==> !after[i].status.Filled?
    ensures HoldingOf(after, id) == HoldingOf(before, id)
    decreases |after|
  {
    if before != after {
      RefusalsKeepHoldings(before, after[..|after| - 1], id);
    }
  }

  lemma DayKeepsCosts(b: Backtest, n: nat)
    requires ExactLongOnly(b) && Ran(b, n + 1) && Ran(b, n) && Long(After(b, n)) && CostsSane(After(b, n))
    ensures CostsSane(After(b, n + 1))
  {
    hide RunTo, DayStep, Decide, FillUpTo, ReviewUpTo, LongOnlyStrategy, Decimals.Exact, FillOne;
    DayParts(b, n);
    DayEffect(b, n);
    FillsKeepCosts(b, After(b, n), n, |After(b, n).pending|);
    var f, s' := FilledAt(b, n), After(b, n + 1);
    forall id | id in s'.positions
      ensures id in s'.averageCost && CostSane(s'.positions[id], s'.averageCost[id], HoldingOf(s'.trades, id))
    {
      RefusalsKeepHoldings(f.trades, s'.trades, id);
    }
  }

  lemma StartsSane(b: Backtest)
    ensures Ran(b, 0) && CostsSane(After(b, 0))
  {
  }

  /** Main result: on every day of an exact long-only run each position equals what the log says is
      held, the average cost is zero when flat, and otherwise lies between the least and the
      greatest buy price since the position was last flat. */
  lemma {:induction false} AverageCostBounds(b: Backtest, n: nat)
    requires ExactLongOnly(b) && Ran(b, n)
    ensures CostsSane(After(b, n))
  {
    hide ExactLongOnly, LongOnlySetup, Ran, After, CostsSane, Long;
    if n == 0 {
      StartsSane(b);
    } else {
      RanEarlier(b, n - 1, n);
      ExactIsLongOnly(b);
      NeverShort(b, n - 1);
      AverageCostBounds(b, n - 1);
      DayKeepsCosts(b, n - 1);
    }
  }
}
