/** Nothing is dropped: every planned order ends as exactly one record of the trade log. */
module OrderLog {
  import opened Common
  import opened Domain
  import opened Engine
  import opened RunFacts
  import opened OrderFlow
  import Rebalance

  /** Records of the orders for `id` decided on `date`. */
  function Records(trades: seq<TradeRecord>, date: int, id: AssetId): nat {
    if trades == [] then 0
    else
      var t := trades[|trades| - 1];
      Records(trades[..|trades| - 1], date, id) + if t.decisionDate == date && t.assetId == id then 1 else 0
  }

  function OrdersFor(orders: seq<PlannedOrder>, id: AssetId): nat {
    if orders == [] then 0
    else OrdersFor(orders[..|orders| - 1], id) + if orders[|orders| - 1].assetId == id then 1 else 0
  }

  lemma RecordsStep(trades: seq<TradeRecord>, t: TradeRecord, date: int, id: AssetId)
    ensures Records(trades + [t], date, id) == Records(trades, date, id)
            + if t.decisionDate == date && t.assetId == id then 1 else 0
  {
    assert (trades + [t])[..|trades|] == trades;
  }

  lemma OrdersStep(orders: seq<PlannedOrder>, o: PlannedOrder, id: AssetId)
    ensures OrdersFor(orders + [o], id) == OrdersFor(orders, id) + if o.assetId == id then 1 else 0
  {
    assert (orders + [o])[..|orders|] == orders;
  }

  /** Reviewing one order logs it or queues it. */
  lemma ReviewCounts(b: Backtest, s: State, d: Decision, p: PlannedOrder, day: nat, date: int, id: AssetId)
    ensures var s' := ReviewOne(b, s, d, p, day);
            var one := if p.assetId == id then 1 else 0;
            && (date == b.cfg.startDate + day ==>
                  Records(s'.trades, date, id) + OrdersFor(s'.pending, id)
                    == Records(s.trades, date, id) + OrdersFor(s.pending, id) + one)
            && (date != b.cfg.startDate + day ==> Records(s'.trades, date, id) == Records(s.trades, date, id))
  {
    var s' := ReviewOne(b, s, d, p, day);
    var (verdict, quantity) := Review(b, d.portfolio, p);
    hide Review;
    if !verdict.approved || day + 1 == b.cfg.days {
      var t := s'.trades[|s'.trades| - 1];
      assert s'.trades == s.trades + [t];
      RecordsStep(s.trades, t, date, id);
    } else {
      OrdersStep(s.pending, p.(quantity := quantity), id);
    }
  }

  lemma {:induction false} ReviewUpToCounts(b: Backtest, s: State, d: Decision, day: nat, n: nat, date: int,
                                            id: AssetId)
    requires n <= |d.orders|
    ensures var s' := ReviewUpTo(b, s, d, day, n);
            && (date == b.cfg.startDate + day ==>
                  Records(s'.trades, date, id) + OrdersFor(s'.pending, id)
                  == Records(s.trades, date, id) + OrdersFor(s.pending, id) + OrdersFor(d.orders[..n], id))
            && (date != b.cfg.startDate + day ==> Records(s'.trades, date, id) == Records(s.trades, date, id))
  {
    hide ReviewOne;
    if n > 0 {
      ReviewUpToCounts(b, s, d, day, n - 1, date, id);
      ReviewCounts(b, ReviewUpTo(b, s, d, day, n - 1), d, d.orders[n - 1], day, date, id);
      assert d.orders[..n][..n - 1] == d.orders[..n - 1];
    }
  }

  /** Executing the queue logs each queued order once, under its decision date. */
  lemma {:induction false} FillUpToCounts(b: Backtest, s: State, day: nat, n: nat, decided: int, date: int, id: AssetId)
    requires n <= |s.pending| && FillUpTo(b, s, day, n).Success?
    requires forall p :: p in s.pending ==> p.assetId in s.context && s.context[p.assetId].decisionDate == decided
    ensures Records(FillUpTo(b, s, day, n).value.trades, date, id)
         == Records(s.trades, date, id) + if date == decided then OrdersFor(s.pending[..n], id) else 0
  {
    hide FillOne;
    if n > 0 {
      FillUpToCounts(b, s, day, n - 1, decided, date, id);
      FillUpToEffect(b, s, day, n - 1);
      var before, p := FillUpTo(b, s, day, n - 1).value, s.pending[n - 1];
      assert p in s.pending;
      FillOneEffect(b, before, p, day);
      assert s.pending[..n][..n - 1] == s.pending[..n - 1];
    }
  }

  /** What day n does to the counts. */
  lemma DayCounts(b: Backtest, n: nat, date: int, id: AssetId)
    requires Ran(b, n + 1)
    ensures Ran(b, n)
    ensures var s, s' := After(b, n), After(b, n + 1);
            && Records(s'.trades, date, id)
               == Records(s.trades, date, id)
                  + (if date == b.cfg.startDate + n - 1 then OrdersFor(s.pending, id) else 0)
                  + (if date == b.cfg.startDate + n
                     then OrdersFor(DecisionOn(b, n).orders, id) - OrdersFor(s'.pending, id) else 0)
  {
    hide RunTo, DayStep, Decide, FillUpTo, ReviewUpTo, Authorized;
    DayParts(b, n);
    var s, f, d := After(b, n), FilledAt(b, n), DecisionOn(b, n);
    if n > 0 {
      QueueIsSound(b, n - 1);
    } else {
      NothingAtStart(b);
    }
    FillUpToCounts(b, s, n, |s.pending|, b.cfg.startDate + n - 1, date, id);
    assert s.pending[..|s.pending|] == s.pending;
    ReviewUpToCounts(b, Record(b, f, d), d, n, |d.orders|, date, id);
    assert d.orders[..|d.orders|] == d.orders;
    assert f.pending == [];
  }

  lemma {:induction false} NoRecordsFromTheFuture(b: Backtest, n: nat, date: int, id: AssetId)
    requires Ran(b, n) && date >= b.cfg.startDate + n
    ensures Records(After(b, n).trades, date, id) == 0
  {
    hide Ran, After, DecisionOn;
    if n > 0 {
      DayCounts(b, n - 1, date, id);
      NoRecordsFromTheFuture(b, n - 1, date, id);
    } else {
      NothingAtStart(b);
    }
  }

  /** Of the orders a day planned for an asset, each is in the log or, until tomorrow, in the queue. */
  lemma {:induction false} LoggedOrQueued(b: Backtest, day: nat, n: nat, id: AssetId)
    requires day < n && Ran(b, n)
    ensures Ran(b, day + 1)
    ensures Records(After(b, n).trades, b.cfg.startDate + day, id)
            + (if n == day + 1 then OrdersFor(After(b, n).pending, id) else 0)
         == OrdersFor(DecisionOn(b, day).orders, id)
    decreases n
  {
    hide RunTo;
    DayCounts(b, n - 1, b.cfg.startDate + day, id);
    if n == day + 1 {
      NoRecordsFromTheFuture(b, day, b.cfg.startDate + day, id);
    } else {
      LoggedOrQueued(b, day, n - 1, id);
    }
  }

  /** In a completed run, the log holds exactly as many records of a day's decisions on an asset
      as the day planned orders for it. */
  lemma LogIsComplete(b: Backtest, day: nat, id: AssetId)
    requires Ran(b, b.cfg.days) && day < b.cfg.days
    ensures Ran(b, day + 1)
    ensures Records(After(b, b.cfg.days).trades, b.cfg.startDate + day, id) == OrdersFor(DecisionOn(b, day).orders, id)
  {
    hide RunTo;
    LoggedOrQueued(b, day, b.cfg.days, id);
    if day + 1 == b.cfg.days {
      QueueIsSound(b, day);
    }
  }

  /** Running numbers increase through the log, and never exceed the last one given out. */
  predicate Numbered(trades: seq<TradeRecord>, last: nat) {
    && (forall i, j :: 0 <= i < j < |trades| ==> trades[i].seqNo < trades[j].seqNo)
    && (forall i :: 0 <= i < |trades| ==> trades[i].seqNo <= last)
  }

  lemma {:induction false} FillNumbers(b: Backtest, s: State, day: nat, n: nat)
    requires n <= |s.pending| && FillUpTo(b, s, day, n).Success? && Numbered(s.trades, s.seqNo)
    ensures Numbered(FillUpTo(b, s, day, n).value.trades, FillUpTo(b, s, day, n).value.seqNo)
  {
    hide FillOne;
    if n > 0 {
      FillNumbers(b, s, day, n - 1);
      FillOneEffect(b, FillUpTo(b, s, day, n - 1).value, s.pending[n - 1], day);
    }
  }

  lemma ReviewOneNumbers(b: Backtest, s: State, d: Decision, p: PlannedOrder, day: nat)
    requires Numbered(s.trades, s.seqNo)
    ensures Numbered(ReviewOne(b, s, d, p, day).trades, ReviewOne(b, s, d, p, day).seqNo)
  {
    hide Review;
  }

  lemma {:induction false} ReviewNumbers(b: Backtest, s: State, d: Decision, day: nat, n: nat)
    requires n <= |d.orders| && Numbered(s.trades, s.seqNo)
    ensures Numbered(ReviewUpTo(b, s, d, day, n).trades, ReviewUpTo(b, s, d, day, n).seqNo)
  {
    hide ReviewOne;
    if n > 0 {
      ReviewNumbers(b, s, d, day, n - 1);
      ReviewOneNumbers(b, ReviewUpTo(b, s, d, day, n - 1), d, d.orders[n - 1], day);
    }
  }

  lemma DayNumbers(b: Backtest, n: nat)
    requires Ran(b, n + 1) && Ran(b, n) && Numbered(After(b, n).trades, After(b, n).seqNo)
    ensures Numbered(After(b, n + 1).trades, After(b, n + 1).seqNo)
  {
    hide RunTo, DayStep, Decide, FillUpTo, ReviewUpTo, ReviewOne, FillOne, Numbered;
    DayParts(b, n);
    var s, f, d := After(b, n), FilledAt(b, n), DecisionOn(b, n);
    FillNumbers(b, s, n, |s.pending|);
    ReviewNumbers(b, Record(b, f, d), d, n, |d.orders|);
  }

  /** The running numbers behind the trade ids never repeat. */
  lemma {:induction false} SeqNosIncrease(b: Backtest, n: nat)
    requires Ran(b, n)
    ensures Numbered(After(b, n).trades, After(b, n).seqNo)
  {
    hide Ran, After;
    if n > 0 {
      RanEarlier(b, n - 1, n);
      SeqNosIncrease(b, n - 1);
      DayNumbers(b, n - 1);
    } else {
      NothingAtStart(b);
    }
  }

  // ----- One order per asset and day -----

  lemma {:induction false} TradableFacts(b: Backtest, n: nat)
    requires n <= |b.members| && DistinctMembers(b.members) && TradableUpTo(b, n).Success?
    ensures var t := TradableUpTo(b, n).value;
            |t| == n && DistinctKeys(t) && forall i :: 0 <= i < n ==> t[i].0 == b.members[i].assetId
  {
    if n > 0 {
      TradableFacts(b, n - 1);
      var before := TradableUpTo(b, n - 1).value;
      assert !HasKey(before, b.members[n - 1].assetId);
      PutFresh(before, b.members[n - 1].assetId, b.assets[b.members[n - 1].assetId].assetClass);
    }
  }

  lemma TradableStep(b: Backtest, n: nat)
    requires n < |b.members| && DistinctMembers(b.members) && TradableUpTo(b, n + 1).Success?
    ensures TradableUpTo(b, n).Success? && b.members[n].assetId in b.assets
    ensures var id := b.members[n].assetId;
            TradableUpTo(b, n + 1).value == TradableUpTo(b, n).value + [(id, b.assets[id].assetClass)]
  {
    TradableFacts(b, n);
    var before := TradableUpTo(b, n).value;
    assert !HasKey(before, b.members[n].assetId);
    PutFresh(before, b.members[n].assetId, b.assets[b.members[n].assetId].assetClass);
  }

  /** Each member is tradable with its asset's class. */
  lemma {:induction false} TradableClass(b: Backtest, n: nat, k: nat)
    requires k < n <= |b.members| && DistinctMembers(b.members) && TradableUpTo(b, n).Success?
    ensures var t, id := TradableUpTo(b, n).value, b.members[k].assetId;
            |t| == n && id in b.assets && t[k] == (id, b.assets[id].assetClass)
    decreases n
  {
    hide TradableUpTo, DistinctMembers;
    TradableFacts(b, n);
    TradableStep(b, n - 1);
    if k < n - 1 {
      TradableClass(b, n - 1, k);
    } else {
      TradableFacts(b, n - 1);
    }
  }

  /** With distinct members a day plans at most one order per asset. */
  lemma PlansOncePerAsset(b: Backtest, s: State, day: nat)
    requires DistinctMembers(b.members) && Decide(b, s, day).Success?
    ensures Rebalance.OnePerAsset(Decide(b, s, day).value.orders)
  {
    var d := Decide(b, s, day).value;
    var tradable := TradableUpTo(b, |b.members|).value;
    TradableFacts(b, |b.members|);
    var request := RebalanceRequest(b, s, d.valuation, d.portfolio.snapshot.nav, d.output.targetWeights, tradable);
    assert Success(d.orders) == Rebalance.Orders(b.cfg.num, request);
    Rebalance.OneOrderPerAsset(b.cfg.num, request, |tradable|);
  }

  lemma {:induction false} OnePerAssetCount(orders: seq<PlannedOrder>, id: AssetId)
    requires Rebalance.OnePerAsset(orders)
    ensures OrdersFor(orders, id) == if exists o :: o in orders && o.assetId == id then 1 else 0
  {
    if orders != [] {
      var n := |orders| - 1;
      OnePerAssetCount(orders[..n], id);
      if orders[n].assetId == id {
        assert forall o :: o in orders[..n] ==> o.assetId != id;
        assert orders[n] in orders;
      } else {
        assert (exists o :: o in orders && o.assetId == id) ==> exists o :: o in orders[..n] && o.assetId == id;
      }
    }
  }

  /** Main result: a completed run's log has exactly one record for every planned order, and none
      for anything that was not planned. */
  lemma OneRecordPerPlannedOrder(b: Backtest, day: nat, id: AssetId)
    requires DistinctMembers(b.members) && Ran(b, b.cfg.days) && day < b.cfg.days
    ensures Ran(b, day + 1)
    ensures Records(After(b, b.cfg.days).trades, b.cfg.startDate + day, id)
         == if exists o :: o in DecisionOn(b, day).orders && o.assetId == id then 1 else 0
  {
    hide RunTo;
    LogIsComplete(b, day, id);
    DayParts(b, day);
    PlansOncePerAsset(b, FilledAt(b, day), day);
    OnePerAssetCount(DecisionOn(b, day).orders, id);
  }
}
