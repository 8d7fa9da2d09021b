/** Target weights against holdings (backend/backtest/rebalance.py). */
module Rebalance {
  import opened Common
  import opened Domain

  /** One rebalancing question: everything `diff_target_weights_to_orders` is given. */
  datatype Request = Request(
    targetWeights: Items<real>,
    currentQuantities: map<AssetId, real>,
    prices: map<AssetId, real>,
    nav: real,
    tradable: Items<AssetClass>,
    isStale: map<AssetId, bool>,
    threshold: real)
  {
    /** What the source asks of its callers: a price for every tradable asset. */
    predicate Priced() {
      forall i :: 0 <= i < |tradable| ==> tradable[i].0 in prices
    }

    function TargetWeight(id: AssetId): real {
      ItemOr(targetWeights, id, 0.0)
    }

    function Held(id: AssetId): real {
      GetOr(currentQuantities, id, 0.0)
    }

    /** A stale equity day yields no signal, and neither does an unusable price. */
    predicate Skips(id: AssetId, class_: AssetClass)
      requires id in prices
    {
      (!class_.Crypto? && GetOr(isStale, id, false)) || prices[id] <= 0.0
    }
  }

  /** The order the gap of one asset asks for, if any. */
  function OrderFor(num: Decimals, r: Request, id: AssetId, class_: AssetClass): Option<PlannedOrder>
    requires id in r.prices
  {
    if r.Skips(id, class_) then None
    else
      var price := r.prices[id];
      var currentValue := num.mul(r.Held(id), price);
      var targetValue := num.mul(r.TargetWeight(id), r.nav);
      var diff := num.Sub(targetValue, currentValue);
      if Abs(diff) < num.mul(r.threshold, r.nav) then None
      else
        var quantity := num.div(Abs(diff), price);
        if quantity <= 0.0 then None
        else Some(PlannedOrder(id, if diff > 0.0 then Buy else Sell, quantity, price))
  }

  /** The orders of the first `n` tradable assets, in order. */
  function OrdersUpTo(num: Decimals, r: Request, n: nat): seq<PlannedOrder>
    requires r.Priced() && n <= |r.tradable|
  {
    if n == 0 then []
    else
      var before := OrdersUpTo(num, r, n - 1);
      match OrderFor(num, r, r.tradable[n - 1].0, r.tradable[n - 1].1)
      case None => before
      case Some(o) => before + [o]
  }

  function Orders(num: Decimals, r: Request): Result<seq<PlannedOrder>>
    requires r.Priced()
  {
    if r.nav <= 0.0 then Success([])
    else if r.threshold < 0.0 then Failure(ValueError)
    else Success(OrdersUpTo(num, r, |r.tradable|))
  }

  /** The loop of the source, with its early `continue`s. */
  method DiffTargetWeightsToOrders(num: Decimals, r: Request) returns (result: Result<seq<PlannedOrder>>)
    requires r.Priced()
    ensures result == Orders(num, r)
  {
    if r.nav <= 0.0 {
      return Success([]);
    }
    if r.threshold < 0.0 {
      return Failure(ValueError);
    }
    var orders: seq<PlannedOrder> := [];
    for i := 0 to |r.tradable|
      invariant orders == OrdersUpTo(num, r, i)
    {
      var (id, class_) := r.tradable[i];
      ghost var asked := OrderFor(num, r, id, class_);
      assert OrdersUpTo(num, r, i + 1) == if asked.None? then orders else orders + [asked.value];
      if !class_.Crypto? && GetOr(r.isStale, id, false) {
        continue;
      }
      var price := r.prices[id];
      if price <= 0.0 {
        continue;
      }
      var currentValue := num.mul(r.Held(id), price);
      var targetValue := num.mul(r.TargetWeight(id), r.nav);
      var diff := num.Sub(targetValue, currentValue);
      if Abs(diff) < num.mul(r.threshold, r.nav) {
        continue;
      }
      var side := if diff > 0.0 then Buy else Sell;
      var quantity := num.div(Abs(diff), price);
      if quantity <= 0.0 {
        continue;
      }
      orders := orders + [PlannedOrder(id, side, quantity, price)];
    }
    return Success(orders);
  }

  /** Membership: an order is in the list exactly when some tradable asset asks for it. */
  lemma {:induction false} OrdersUpToComplete(num: Decimals, r: Request, n: nat, o: PlannedOrder)
    requires r.Priced() && n <= |r.tradable|
    ensures o in OrdersUpTo(num, r, n) <==>
            exists i :: 0 <= i < n && OrderFor(num, r, r.tradable[i].0, r.tradable[i].1) == Some(o)
  {
    if n > 0 {
      OrdersUpToComplete(num, r, n - 1, o);
    }
  }

  predicate OnePerAsset(orders: seq<PlannedOrder>) {
    forall i, j :: 0 <= i < j < |orders| ==> orders[i].assetId != orders[j].assetId
  }

  /** At most one order per asset. */
  lemma {:induction false} OneOrderPerAsset(num: Decimals, r: Request, n: nat)
    requires r.Priced() && n <= |r.tradable| && DistinctKeys(r.tradable)
    ensures OnePerAsset(OrdersUpTo(num, r, n))
  {
    if n > 0 {
      OneOrderPerAsset(num, r, n - 1);
      var before := OrdersUpTo(num, r, n - 1);
      forall o | o in before
        ensures o.assetId != r.tradable[n - 1].0
      {
        OrdersUpToComplete(num, r, n - 1, o);
        var k :| 0 <= k < n - 1 && OrderFor(num, r, r.tradable[k].0, r.tradable[k].1) == Some(o);
        assert r.tradable[k].0 != r.tradable[n - 1].0;
      }
    }
  }

  // ----- What an order achieves -----

  /** The change of position an order asks for. */
  function Signed(o: PlannedOrder): real {
    if o.side.Buy? then o.quantity else -o.quantity
  }

  lemma GapCloses(held: real, price: real, target: real, signed: real)
    requires signed * price == target - held * price
    ensures (held + signed) * price == target
  {
    assert (held + signed) * price == held * price + signed * price;
  }

  /** The order of any arithmetic, in the source's own operations. */
  lemma OrderFacts(num: Decimals, r: Request, id: AssetId, class_: AssetClass)
    requires id in r.prices
    ensures var price, gap := r.prices[id],
                              num.Sub(num.mul(r.TargetWeight(id), r.nav), num.mul(r.Held(id), r.prices[id]));
            && (OrderFor(num, r, id, class_).Some? <==>
                  && !r.Skips(id, class_) && Abs(gap) >= num.mul(r.threshold, r.nav) && num.div(Abs(gap), price) > 0.0)
            && (OrderFor(num, r, id, class_).Some? ==>
                  && price > 0.0
                  && OrderFor(num, r, id, class_).value
                     == PlannedOrder(id, if gap > 0.0 then Buy else Sell, num.div(Abs(gap), price), price))
  {
    hide Abs, Request.TargetWeight, Request.Held;
  }

  lemma ExactGap(num: Decimals, weight: real, nav: real, held: real, price: real)
    requires num.Exact()
    ensures var gap := num.Sub(num.mul(weight, nav), num.mul(held, price));
            gap == weight * nav - held * price && (price != 0.0 ==> num.div(Abs(gap), price) == Abs(gap) / price)
  {
    hide Abs;
    assert num.mul(weight, nav) == weight * nav;
    assert num.mul(held, price) == held * price;
  }

  /** What is missing to the target value. */
  function Gap(r: Request, id: AssetId): real
    requires id in r.prices
  {
    r.TargetWeight(id) * r.nav - r.Held(id) * r.prices[id]
  }

  lemma GapInOps(num: Decimals, r: Request, id: AssetId)
    requires num.Exact() && id in r.prices
    ensures num.Sub(num.mul(r.TargetWeight(id), r.nav), num.mul(r.Held(id), r.prices[id])) == Gap(r, id)
    ensures r.prices[id] > 0.0 ==> num.div(Abs(Gap(r, id)), r.prices[id]) == Abs(Gap(r, id)) / r.prices[id]
  {
    hide Abs, Request.TargetWeight, Request.Held;
    ExactGap(num, r.TargetWeight(id), r.nav, r.Held(id), r.prices[id]);
    hide Decimals.Exact;
  }

  lemma ExactProduct(num: Decimals, x: real, y: real)
    requires num.Exact()
    ensures num.mul(x, y) == x * y
  {
  }

  lemma GapOf(num: Decimals, r: Request, id: AssetId)
    requires num.Exact() && id in r.prices
    ensures num.Sub(num.mul(r.TargetWeight(id), r.nav), num.mul(r.Held(id), r.prices[id])) == Gap(r, id)
    ensures r.prices[id] > 0.0 ==>
              var size := num.div(Abs(Gap(r, id)), r.prices[id]);
              size * r.prices[id] == Abs(Gap(r, id)) && (size > 0.0 <==> Gap(r, id) != 0.0)
    ensures num.mul(r.threshold, r.nav) == r.threshold * r.nav
  {
    hide Decimals.Exact, Gap, Request.TargetWeight, Request.Held;
    GapInOps(num, r, id);
    ExactProduct(num, r.threshold, r.nav);
    if r.prices[id] > 0.0 {
      SignOfQuotient(Abs(Gap(r, id)), r.prices[id]);
    }
  }

  lemma SignOfQuotient(x: real, y: real)
    requires y > 0.0
    ensures x / y * y == x && (x / y > 0.0 <==> x > 0.0)
  {
    var q := x / y;
    assert q * y == x;
    SignOfProduct(q, y);
    SignOfProduct(-q, y);
  }

  /** Exactly when an asset is ordered, and what: its price is positive, it is not an equity on a stale day, and the gap
      between its target value and its value is neither zero nor below the threshold. */
  lemma OrderExactly(num: Decimals, r: Request, id: AssetId, class_: AssetClass)
    requires num.Exact() && id in r.prices
    ensures OrderFor(num, r, id, class_).Some? <==>
              && r.prices[id] > 0.0 && (class_.Crypto? || !GetOr(r.isStale, id, false))
              && Abs(Gap(r, id)) >= r.threshold * r.nav && Gap(r, id) != 0.0
    ensures OrderFor(num, r, id, class_).Some? ==>
              var o := OrderFor(num, r, id, class_).value;
              && o.assetId == id && o.side == (if Gap(r, id) > 0.0 then Buy else Sell)
              && o.estimatedPrice == r.prices[id] && o.quantity * r.prices[id] == Abs(Gap(r, id))
  {
    hide OrderFor, Gap, Abs, Request.TargetWeight, Request.Held, Decimals.Exact;
    OrderFacts(num, r, id, class_);
    GapOf(num, r, id);
  }

  /** An order has a positive size and price, and filled as planned it brings the position exactly
      to its target value. */
  lemma OrderHitsTarget(num: Decimals, r: Request, id: AssetId, class_: AssetClass)
    requires num.Exact() && id in r.prices && OrderFor(num, r, id, class_).Some?
    ensures var o := OrderFor(num, r, id, class_).value;
            && o.assetId == id && o.quantity > 0.0 && o.estimatedPrice == r.prices[id] > 0.0
            && (r.Held(id) + Signed(o)) * o.estimatedPrice == r.TargetWeight(id) * r.nav
  {
    hide OrderFor, Decimals.Exact, Request.TargetWeight, Request.Held;
    var o := OrderFor(num, r, id, class_).value;
    OrderFacts(num, r, id, class_);
    OrderExactly(num, r, id, class_);
    GapCloses(r.Held(id), r.prices[id], r.TargetWeight(id) * r.nav, Signed(o));
  }

  /** The holding is within the threshold of its target value, or exactly on it. */
  ghost predicate OnTarget(r: Request, id: AssetId)
    requires id in r.prices
  {
    var gap := Abs(r.TargetWeight(id) * r.nav - r.Held(id) * r.prices[id]);
    gap < r.threshold * r.nav || gap == 0.0
  }

  /** Without an order the asset is skipped, or within the threshold of its target. */
  lemma NoOrderMeansClose(num: Decimals, r: Request, id: AssetId, class_: AssetClass)
    requires num.Exact() && id in r.prices && OrderFor(num, r, id, class_).None? && !r.Skips(id, class_)
    ensures OnTarget(r, id)
  {
    hide OrderFor, Decimals.Exact, Request.TargetWeight, Request.Held;
    OrderExactly(num, r, id, class_);
  }

  lemma SignOfProduct(x: real, y: real)
    requires y > 0.0
    ensures x * y >= 0.0 <==> x >= 0.0
  {
    if x < 0.0 {
      assert (-x) * y > 0.0;
    }
  }

  /** A sell never asks for more than is held when the target weight is not negative. */
  lemma SellsAtMostHeld(num: Decimals, r: Request, id: AssetId, class_: AssetClass)
    requires num.Exact() && id in r.prices && OrderFor(num, r, id, class_).Some?
    requires r.nav > 0.0 && r.TargetWeight(id) >= 0.0
    ensures var o := OrderFor(num, r, id, class_).value;
            o.side.Sell? ==> o.quantity <= r.Held(id)
  {
    var o := OrderFor(num, r, id, class_).value;
    OrderHitsTarget(num, r, id, class_);
    assert r.TargetWeight(id) * r.nav >= 0.0;
    SignOfProduct(r.Held(id) + Signed(o), o.estimatedPrice);
  }

  /** An asset is bought only when its target value exceeds what is held. */
  lemma BuysOnlyBelowTarget(num: Decimals, r: Request, id: AssetId, class_: AssetClass)
    requires num.Exact() && id in r.prices
    requires r.TargetWeight(id) * r.nav <= r.Held(id) * r.prices[id]
    ensures var o := OrderFor(num, r, id, class_);
            o.Some? ==> o.value.side.Sell?
  {
  }

  // ----- Filling everything at the decision prices -----

  datatype Account = Account(quantities: map<AssetId, real>, cash: real)

  function Execute(a: Account, o: PlannedOrder): Account {
    Account(a.quantities[o.assetId := GetOr(a.quantities, o.assetId, 0.0) + Signed(o)],
            a.cash - Worth(Signed(o), o.estimatedPrice))
  }

  function ExecuteAll(a: Account, orders: seq<PlannedOrder>): Account {
    if orders == [] then a else Execute(ExecuteAll(a, orders[..|orders| - 1]), orders[|orders| - 1])
  }

  function ValueOf(q: map<AssetId, real>, prices: map<AssetId, real>, id: AssetId): real {
    Worth(GetOr(q, id, 0.0), GetOr(prices, id, 0.0))
  }

  /** Market value of the first n tradable assets. */
  function MarketValue(r: Request, q: map<AssetId, real>, n: nat): real
    requires n <= |r.tradable|
  {
    if n == 0 then 0.0 else MarketValue(r, q, n - 1) + ValueOf(q, r.prices, r.tradable[n - 1].0)
  }

  lemma ValueMoves(q: map<AssetId, real>, prices: map<AssetId, real>, id: AssetId, delta: real, other: AssetId)
    ensures ValueOf(q[id := GetOr(q, id, 0.0) + delta], prices, other)
         == ValueOf(q, prices, other) + if other == id then Worth(delta, GetOr(prices, id, 0.0)) else 0.0
  {
    var price, held := GetOr(prices, id, 0.0), GetOr(q, id, 0.0);
    assert (held + delta) * price == held * price + delta * price;
  }

  lemma {:induction false} OneAssetMoves(r: Request, q: map<AssetId, real>, id: AssetId, delta: real, n: nat)
    requires n <= |r.tradable| && DistinctKeys(r.tradable)
    ensures var q' := q[id := GetOr(q, id, 0.0) + delta];
            MarketValue(r, q', n) == MarketValue(r, q, n)
              + if exists i :: 0 <= i < n && r.tradable[i].0 == id then Worth(delta, GetOr(r.prices, id, 0.0)) else 0.0
  {
    if n > 0 {
      OneAssetMoves(r, q, id, delta, n - 1);
      ValueMoves(q, r.prices, id, delta, r.tradable[n - 1].0);
      hide ValueOf;
    }
  }

  /** The order list as the gap of each asset sees it. */
  ghost predicate Planned(num: Decimals, r: Request, o: PlannedOrder) {
    && r.Priced()
    && exists i :: 0 <= i < |r.tradable| && OrderFor(num, r, r.tradable[i].0, r.tradable[i].1) == Some(o)
  }

  lemma OrderIsPlanned(num: Decimals, r: Request, o: PlannedOrder)
    requires r.Priced()
    requires exists i :: 0 <= i < |r.tradable| && OrderFor(num, r, r.tradable[i].0, r.tradable[i].1) == Some(o)
    ensures Planned(num, r, o)
  {
  }

  lemma ExecuteKeepsNav(num: Decimals, r: Request, a: Account, o: PlannedOrder)
    requires num.Exact() && DistinctKeys(r.tradable) && Planned(num, r, o)
    ensures var a' := Execute(a, o);
            a'.cash + MarketValue(r, a'.quantities, |r.tradable|) == a.cash + MarketValue(r, a.quantities, |r.tradable|)
  {
    var i :| 0 <= i < |r.tradable| && OrderFor(num, r, r.tradable[i].0, r.tradable[i].1) == Some(o);
    OrderHitsTarget(num, r, r.tradable[i].0, r.tradable[i].1);
    hide OrderFor, Decimals.Exact, MarketValue, ValueOf, DistinctKeys, Planned, Signed, Worth;
    OneAssetMoves(r, a.quantities, o.assetId, Signed(o), |r.tradable|);
  }

  /** Filling at the decision prices moves money between cash and assets and loses none. */
  lemma {:induction false} ExecutionKeepsNav(num: Decimals, r: Request, a: Account, orders: seq<PlannedOrder>)
    requires num.Exact() && DistinctKeys(r.tradable)
    requires forall o :: o in orders ==> Planned(num, r, o)
    ensures var a' := ExecuteAll(a, orders);
            a'.cash + MarketValue(r, a'.quantities, |r.tradable|) == a.cash + MarketValue(r, a.quantities, |r.tradable|)
  {
    hide Planned, Decimals.Exact, MarketValue, DistinctKeys, Execute;
    if orders != [] {
      var n := |orders| - 1;
      ExecutionKeepsNav(num, r, a, orders[..n]);
      assert orders[n] in orders;
      ExecuteKeepsNav(num, r, ExecuteAll(a, orders[..n]), orders[n]);
    }
  }

  /** Each order moves its own asset once, and nothing else. */
  lemma {:induction false} ExecutedQuantity(a: Account, orders: seq<PlannedOrder>, id: AssetId)
    requires OnePerAsset(orders)
    ensures forall o :: o in orders && o.assetId == id ==>
              GetOr(ExecuteAll(a, orders).quantities, id, 0.0) == GetOr(a.quantities, id, 0.0) + Signed(o)
    ensures (forall o :: o in orders ==> o.assetId != id) ==>
              GetOr(ExecuteAll(a, orders).quantities, id, 0.0) == GetOr(a.quantities, id, 0.0)
  {
    if orders != [] {
      var n := |orders| - 1;
      ExecutedQuantity(a, orders[..n], id);
      assert orders[n] in orders;
      forall o | o in orders && o.assetId == id
        ensures GetOr(ExecuteAll(a, orders).quantities, id, 0.0) == GetOr(a.quantities, id, 0.0) + Signed(o)
      {
        if orders[n].assetId == id {
          assert forall x :: x in orders[..n] ==> x.assetId != id;
        } else {
          assert o in orders[..n];
        }
      }
    }
  }

  lemma SameHoldingSameOrder(num: Decimals, r: Request, r': Request, id: AssetId, class_: AssetClass)
    requires id in r.prices && r' == r.(currentQuantities := r'.currentQuantities) && r'.Held(id) == r.Held(id)
    ensures OrderFor(num, r', id, class_) == OrderFor(num, r, id, class_)
    ensures OnTarget(r', id) <==> OnTarget(r, id)
  {
  }

  lemma SettledByOrder(num: Decimals, r: Request, r': Request, id: AssetId, class_: AssetClass)
    requires num.Exact() && id in r.prices && r.nav > 0.0 && r.threshold >= 0.0
    requires OrderFor(num, r, id, class_).Some?
    requires r' == r.(currentQuantities := r'.currentQuantities)
    requires r'.Held(id) == r.Held(id) + Signed(OrderFor(num, r, id, class_).value)
    ensures OrderFor(num, r', id, class_).None? && OnTarget(r', id)
  {
    hide OrderFor, Signed, Decimals.Exact, OnTarget;
    OrderHitsTarget(num, r, id, class_);
    NoGapNoOrder(num, r', id, class_);
  }

  /** Once every order is filled at its price, no asset has a gap left that asks for an order. */
  lemma SettledAsset(num: Decimals, r: Request, r': Request, i: nat)
    requires num.Exact() && r.Priced() && DistinctKeys(r.tradable) && r.nav > 0.0 && r.threshold >= 0.0
             && i < |r.tradable|
    requires r'.currentQuantities == ExecuteAll(Account(r.currentQuantities, 0.0),
                                                OrdersUpTo(num, r, |r.tradable|)).quantities
    requires r' == r.(currentQuantities := r'.currentQuantities)
    ensures OrderFor(num, r', r'.tradable[i].0, r'.tradable[i].1).None?
    ensures !r.Skips(r.tradable[i].0, r.tradable[i].1) ==> OnTarget(r', r.tradable[i].0)
  {
    hide Decimals.Exact, OrderFor, ExecuteAll, OrdersUpTo, OnTarget, Request.Skips;
    var (id, class_) := r.tradable[i];
    var orders := OrdersUpTo(num, r, |r.tradable|);
    OneOrderPerAsset(num, r, |r.tradable|);
    ExecutedQuantity(Account(r.currentQuantities, 0.0), orders, id);
    var asked := OrderFor(num, r, id, class_);
    if asked.Some? {
      OrdersUpToComplete(num, r, |r.tradable|, asked.value);
      OrderHitsTarget(num, r, id, class_);
      SettledByOrder(num, r, r', id, class_);
    } else {
      forall o | o in orders
        ensures o.assetId != id
      {
        OrdersUpToComplete(num, r, |r.tradable|, o);
        var k :| 0 <= k < |r.tradable| && OrderFor(num, r, r.tradable[k].0, r.tradable[k].1) == Some(o);
        OrderHitsTarget(num, r, r.tradable[k].0, r.tradable[k].1);
        if k != i {
          assert r.tradable[k].0 != r.tradable[i].0;
        }
      }
      SameHoldingSameOrder(num, r, r', id, class_);
      if !r.Skips(id, class_) {
        NoOrderMeansClose(num, r, id, class_);
      }
    }
  }

  lemma NoGapNoOrder(num: Decimals, r: Request, id: AssetId, class_: AssetClass)
    requires num.Exact() && id in r.prices && r.nav > 0.0 && r.threshold >= 0.0
    requires r.Held(id) * r.prices[id] == r.TargetWeight(id) * r.nav
    ensures OrderFor(num, r, id, class_).None? && OnTarget(r, id)
  {
    hide OrderFor, Decimals.Exact, Request.TargetWeight, Request.Held;
    OrderExactly(num, r, id, class_);
  }

  lemma {:induction false} NoOrders(num: Decimals, r: Request, n: nat)
    requires r.Priced() && n <= |r.tradable|
    requires forall i :: 0 <= i < n ==> OrderFor(num, r, r.tradable[i].0, r.tradable[i].1).None?
    ensures OrdersUpTo(num, r, n) == []
  {
    if n > 0 {
      NoOrders(num, r, n - 1);
    }
  }

  /** Main result: filling every order at its decision price keeps NAV, brings every asset that was
      not skipped within the threshold of its target value, and leaves nothing to order, for
      every threshold including zero. */
  lemma RebalanceReachesFixedPoint(num: Decimals, r: Request, cash: real)
    requires num.Exact() && r.Priced() && DistinctKeys(r.tradable) && r.threshold >= 0.0
    requires r.nav > 0.0 && r.nav == cash + MarketValue(r, r.currentQuantities, |r.tradable|)
    ensures Orders(num, r).Success?
    ensures var a := ExecuteAll(Account(r.currentQuantities, cash), Orders(num, r).value);
            var r' := r.(currentQuantities := a.quantities);
            && a.cash + MarketValue(r, a.quantities, |r.tradable|) == r.nav
            && Orders(num, r') == Success([])
            && forall i :: 0 <= i < |r.tradable| && !r.Skips(r.tradable[i].0, r.tradable[i].1) ==>
                 OnTarget(r', r.tradable[i].0)
  {
    hide Decimals.Exact, OrderFor, ExecuteAll, OrdersUpTo, OnTarget, Request.Skips, Planned, MarketValue;
    var orders := OrdersUpTo(num, r, |r.tradable|);
    var a := ExecuteAll(Account(r.currentQuantities, cash), orders);
    var r' := r.(currentQuantities := a.quantities);
    forall o | o in orders
      ensures Planned(num, r, o)
    {
      OrdersUpToComplete(num, r, |r.tradable|, o);
      OrderIsPlanned(num, r, o);
    }
    ExecutionKeepsNav(num, r, Account(r.currentQuantities, cash), orders);
    CashIsIrrelevant(r.currentQuantities, cash, 0.0, orders);
    forall i | 0 <= i < |r.tradable|
      ensures OrderFor(num, r', r'.tradable[i].0, r'.tradable[i].1).None?
      ensures !r.Skips(r.tradable[i].0, r.tradable[i].1) ==> OnTarget(r', r.tradable[i].0)
    {
      SettledAsset(num, r, r', i);
    }
    NoOrders(num, r', |r.tradable|);
  }

  lemma {:induction false} CashIsIrrelevant(q: map<AssetId, real>, cash: real, cash': real, orders: seq<PlannedOrder>)
    ensures ExecuteAll(Account(q, cash), orders).quantities == ExecuteAll(Account(q, cash'), orders).quantities
  {
    if orders != [] {
      CashIsIrrelevant(q, cash, cash', orders[..|orders| - 1]);
    }
  }
}
