/** Exactly when a run goes short, for any arithmetic, strategy and risk policy. */
module ShortSales {
  import opened Common
  import opened Domain
  import opened Engine
  import opened RunFacts
  import opened LongOnly
  import Matching
  import OrderLog
  import Rebalance
  import ReconciledRuns

  /** Rounding keeps the sign of every sum. */
  ghost predicate SumsAreSigned(num: Decimals) {
    forall x, y :: num.add(x, y) >= 0.0 <==> x + y >= 0.0
  }

  /** A queued sell is filled at a size of at most what is held: the check that would have to be made before a fill. */
  predicate FillFits(b: Backtest, positions: map<AssetId, real>, p: PlannedOrder) {
    p.side.Sell? && p.assetId in positions ==>
      match SizeFill(b, p)
      case Success(Sized(quantity)) => quantity <= positions[p.assetId]
      case _ => true
  }

  predicate QueueFits(b: Backtest, s: State) {
    forall p :: p in s.pending ==> FillFits(b, s.positions, p)
  }

  // ----- One fill -----

  /** The position that a fill leaves. */
  function Moved(b: Backtest, held: real, p: PlannedOrder): real {
    match SizeFill(b, p)
    case Success(Sized(quantity)) => b.cfg.num.add(held, if p.side.Buy? then quantity else -quantity)
    case _ => held
  }

  lemma FillMoves(b: Backtest, s: State, p: PlannedOrder, day: nat)
    requires FillOne(b, s, p, day).Success? && p.assetId in s.positions
    ensures FillOne(b, s, p, day).value.positions == s.positions[p.assetId := Moved(b, s.positions[p.assetId], p)]
  {
    hide SizeFill, Matching.ApplySlippage, Matching.ComputeCommission, PriceAt;
    var c := s.context[p.assetId];
    var quote := PriceAt(b, p.assetId, day, Open).value;
    var f := SimulateFill(b, p, quote.price, b.cfg.startDate + day, s.seqNo + 1, c).value;
    assert FillOne(b, s, p, day) == Book(b, s, p, f);
    if f.record.status.Filled? {
      assert f.positionDelta == if p.side.Buy? then f.record.quantity else -f.record.quantity;
    } else {
      assert s.positions == s.positions[p.assetId := s.positions[p.assetId]];
    }
  }

  lemma SizedIsPositive(b: Backtest, p: PlannedOrder)
    requires p.quantity > 0.0 && SizeFill(b, p).Success? && SizeFill(b, p).value.Sized?
    ensures SizeFill(b, p).value.quantity > 0.0
  {
  }

  /** A fill leaves no short position exactly when it fits. */
  lemma MovedSign(b: Backtest, positions: map<AssetId, real>, p: PlannedOrder)
    requires SumsAreSigned(b.cfg.num) && p.quantity > 0.0 && p.assetId in positions && positions[p.assetId] >= 0.0
    ensures Moved(b, positions[p.assetId], p) >= 0.0 <==> FillFits(b, positions, p)
  {
    if SizeFill(b, p).Success? && SizeFill(b, p).value.Sized? {
      SizedIsPositive(b, p);
      hide SizeFill;
      var held, size := positions[p.assetId], SizeFill(b, p).value.quantity;
      var delta := if p.side.Buy? then size else -size;
      assert b.cfg.num.add(held, delta) >= 0.0 <==> held + delta >= 0.0;
    }
  }

  // ----- The fills of a day -----

  /** After the first n fills each asset is where its own order moved it. */
  lemma {:induction false} FillsMove(b: Backtest, s: State, day: nat, n: nat, id: AssetId)
    requires n <= |s.pending| && FillUpTo(b, s, day, n).Success? && Rebalance.OnePerAsset(s.pending)
    requires forall p :: p in s.pending ==> p.assetId in s.positions
    ensures var after := FillUpTo(b, s, day, n).value.positions;
            && after.Keys == s.positions.Keys
            && (id in s.positions && (forall i :: 0 <= i < n ==> s.pending[i].assetId != id) ==>
                after[id] == s.positions[id])
            && (forall i :: 0 <= i < n && s.pending[i].assetId == id ==>
                after[id] == Moved(b, s.positions[id], s.pending[i]))
  {
    hide FillOne, Moved;
    if n > 0 {
      FillsMove(b, s, day, n - 1, id);
      var before, p := FillUpTo(b, s, day, n - 1).value, s.pending[n - 1];
      assert p in s.pending;
      FillMoves(b, before, p, day);
    }
  }

  /** A day's fills leave no short position exactly when the queue fits. */
  lemma DayShort(b: Backtest, s: State, day: nat)
    requires SumsAreSigned(b.cfg.num) && ApplyPending(b, s, day).Success? && NoShorts(s.positions)
    requires Rebalance.OnePerAsset(s.pending)
             && forall p :: p in s.pending ==> p.assetId in s.positions && p.quantity > 0.0
    ensures NoShorts(ApplyPending(b, s, day).value.positions) <==> QueueFits(b, s)
  {
    hide FillUpTo, Moved, FillFits;
    var n := |s.pending|;
    var after := FillUpTo(b, s, day, n).value.positions;
    forall id
      ensures after.Keys == s.positions.Keys
      ensures id in s.positions && (forall i :: 0 <= i < n ==> s.pending[i].assetId != id) ==>
                after[id] == s.positions[id]
    {
      FillsMove(b, s, day, n, id);
    }
    forall i | 0 <= i < n
      ensures after[s.pending[i].assetId] >= 0.0 <==> FillFits(b, s.positions, s.pending[i])
    {
      assert s.pending[i] in s.pending;
      FillsMove(b, s, day, n, s.pending[i].assetId);
      MovedSign(b, s.positions, s.pending[i]);
    }
    assert ApplyPending(b, s, day).value.positions == after;
    if NoShorts(after) {
      forall p | p in s.pending
        ensures FillFits(b, s.positions, p)
      {
        var i :| 0 <= i < n && s.pending[i] == p;
        assert after[s.pending[i].assetId] >= 0.0;
      }
    } else {
      var id :| id in after && after[id] < 0.0;
      var i :| 0 <= i < n && s.pending[i].assetId == id;
      assert s.pending[i] in s.pending;
    }
  }

  // ----- Runs -----

  /** Queued orders are positive, one per asset, and on members. */
  ghost predicate TidyQueue(b: Backtest, s: State) {
    && Rebalance.OnePerAsset(s.pending)
    && s.positions.Keys == ZeroPerMember(b.members).Keys
    && forall p :: p in s.pending ==> p.quantity > 0.0 && p.assetId in s.positions
  }

  lemma MemberIsHeld(b: Backtest, k: nat)
    requires k < |b.members|
    ensures b.members[k].assetId in ZeroPerMember(b.members)
  {
  }

  lemma DayIsTidy(b: Backtest, n: nat)
    requires DistinctMembers(b.members) && Ran(b, n + 1)
    ensures TidyQueue(b, After(b, n + 1))
  {
    hide Ran, After, FilledAt, DecisionOn, Decide, DistinctMembers;
    DayDecision(b, n);
    DayReview(b, n);
    DayEffect(b, n);
    var f, d := FilledAt(b, n), DecisionOn(b, n);
    forall o | o in d.orders
      ensures o.quantity > 0.0 && o.assetId in ZeroPerMember(b.members)
    {
      var r := PlannedFor(b, f, n, o);
      var k :| 0 <= k < |b.members| && b.members[k].assetId == o.assetId;
      MemberIsHeld(b, k);
    }
    OrderLog.PlansOncePerAsset(b, f, n);
    ReconciledRuns.PositionKeys(b, n + 1);
    ReviewKeepsQueue(b, Record(b, f, d), d, n, |d.orders|);
    hide ReviewUpTo, ZeroPerMember;
    var s' := After(b, n + 1);
    forall p | p in s'.pending
      ensures p.quantity > 0.0 && p.assetId in s'.positions
    {
      var i :| 0 <= i < |d.orders| && QueuedFor(d.orders[i], p);
      assert d.orders[i] in d.orders;
    }
  }

  lemma RunIsTidy(b: Backtest, n: nat)
    requires DistinctMembers(b.members) && Ran(b, n)
    ensures TidyQueue(b, After(b, n))
  {
    if n > 0 {
      DayIsTidy(b, n - 1);
    }
  }

  /** No position is negative after the day's fills. */
  ghost predicate LongOn(b: Backtest, day: nat) {
    Ran(b, day + 1) && NoShorts(FilledAt(b, day).positions)
  }

  /** Every sell filled on the day is for at most what was held. */
  ghost predicate FitsOn(b: Backtest, day: nat) {
    Ran(b, day) && QueueFits(b, After(b, day))
  }

  lemma DayShortExactly(b: Backtest, n: nat)
    requires SumsAreSigned(b.cfg.num) && DistinctMembers(b.members) && Ran(b, n + 1) && Ran(b, n)
             && NoShorts(After(b, n).positions)
    ensures LongOn(b, n) <==> FitsOn(b, n)
    ensures LongOn(b, n) ==> NoShorts(After(b, n + 1).positions)
  {
    hide Ran, After, FilledAt, DecisionOn, DistinctMembers, SumsAreSigned, QueueFits, NoShorts, FillUpTo;
    RunIsTidy(b, n);
    DayFills(b, n);
    DayEffect(b, n);
    DayShort(b, After(b, n), n);
  }

  /** Main result, whatever the strategy, the risk policy and the prices: as long as rounding keeps the sign of sums,
      a run never holds a negative position if and only if every sell it fills is for at most what is held. */
  lemma {:induction false} ShortExactlyWhen(b: Backtest, n: nat)
    requires SumsAreSigned(b.cfg.num) && DistinctMembers(b.members) && Ran(b, n)
    ensures (forall day :: 0 <= day < n ==> LongOn(b, day)) <==> (forall day :: 0 <= day < n ==> FitsOn(b, day))
    ensures (forall day :: 0 <= day < n ==> LongOn(b, day)) ==> NoShorts(After(b, n).positions)
  {
    hide SumsAreSigned, DistinctMembers, Ran, After, LongOn, FitsOn, NoShorts;
    if n == 0 {
      StartsLong(b);
    } else {
      RanEarlier(b, n - 1, n);
      ShortExactlyWhen(b, n - 1);
      if forall day :: 0 <= day < n - 1 ==> LongOn(b, day) {
        DayShortExactly(b, n - 1);
      }
    }
  }
}
