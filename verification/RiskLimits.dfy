/** The risk gate as plain limits: when an order or a set of weights passes, in reals and asset prefixes, without the
    gate's own formulas. */
module RiskLimits {
  import opened Common
  import opened Domain
  import opened RiskPolicy

  // ----- One order -----

  /** The asset's membership: the last one given for it. */
  ghost predicate IsMember(p: PortfolioState, id: AssetId, m: Member) {
    exists k :: 0 <= k < |p.members| && p.members[k] == m && m.assetId == id
                && forall j :: k < j < |p.members| ==> p.members[j].assetId != id
  }

  ghost predicate IsMembership(p: PortfolioState, id: AssetId, m: Option<Member>) {
    if m.Some? then IsMember(p, id, m.value) else forall x :: !IsMember(p, id, x)
  }

  function HeldOf(p: PortfolioState, id: AssetId): real {
    if id in p.positions then p.positions[id].quantity else 0.0
  }

  /** The greatest share of the NAV the asset may have: the member's own, or that of its category. */
  predicate CapOf(r: Policy, id: AssetId, m: Option<Member>, cap: real) {
    if m.Some? && m.value.targetWeightMax.Some? then cap == m.value.targetWeightMax.value
    else ("equity:" <= id && cap == r.maxSingleEquityWeight)
         || (!("equity:" <= id) && "crypto:" <= id && cap == r.maxSingleCryptoWeight)
  }

  /** The assumed distance of a stop, by category. */
  predicate StopOf(r: Policy, id: AssetId, stop: real) {
    || ("equity:" <= id && stop == r.stopLossEquity)
    || (!("equity:" <= id) && "crypto:" <= id && stop == r.stopLossCrypto)
  }

  /** The account has fallen from its peak to the stop line or below. */
  predicate Stopped(r: Policy, nav: real) {
    r.drawdownStopLine <= 0.0
    || (r.peak.Some? && r.peak.value > 0.0 && r.peak.value - nav >= r.drawdownStopLine * r.peak.value)
  }

  predicate OthersFit(r: Policy, p: PortfolioState, id: AssetId) {
    HeldOf(p, id) != 0.0 || |set other
      | other in p.positions && p.positions[other].quantity != 0.0| < r.maxHeldPositions
  }

  ghost predicate CapFits(r: Policy, i: OrderIntent, p: PortfolioState) {
    forall m: Option<Member>, cap: real :: IsMembership(p, i.assetId, m) && CapOf(r, i.assetId, m, cap) ==>
      Max((HeldOf(p, i.assetId) + i.quantity) * i.estimatedPrice, 0.0) <= cap * p.snapshot.nav
  }

  ghost predicate RiskFits(r: Policy, i: OrderIntent, p: PortfolioState) {
    forall stop :: StopOf(r, i.assetId, stop) ==>
      i.quantity * i.estimatedPrice * stop <= r.maxOrderRisk * p.snapshot.nav
  }

  predicate CashFits(r: Policy, i: OrderIntent, p: PortfolioState) {
    p.snapshot.cashValue - i.quantity * i.estimatedPrice >= r.minCashWeight * p.snapshot.nav
  }

  /** What each rule asks of a buy of positive size and price in an account of positive NAV. */
  ghost predicate Meets(r: Policy, i: OrderIntent, p: PortfolioState, rule: Rule) {
    match rule
    case AssetMustBeMember => exists m :: IsMember(p, i.assetId, m)
    case RestrictedMemberBlocksBuy => forall m :: IsMember(p, i.assetId, m) ==> m.status != Restricted
    case MaxOrderRisk => RiskFits(r, i, p)
    case MaxSingleAssetWeight => CapFits(r, i, p)
    case CashFloor => CashFits(r, i, p)
    case MaxHeldPositions => OthersFit(r, p, i.assetId)
    case DrawdownStopLine => !Stopped(r, p.snapshot.nav)
    case _ => true
  }

  /** A non-restricted member, within its cap, the cash floor, the order's risk budget and the number of positions,
      while the account is above its stop line. */
  ghost predicate WithinLimits(r: Policy, i: OrderIntent, p: PortfolioState) {
    && (exists m :: IsMember(p, i.assetId, m) && m.status != Restricted)
    && CapFits(r, i, p) && CashFits(r, i, p) && RiskFits(r, i, p)
    && OthersFit(r, p, i.assetId) && !Stopped(r, p.snapshot.nav)
  }

  lemma {:induction false} MemberOfIs(members: seq<Member>, id: AssetId)
    ensures var m := MemberOf(members, id);
            && (m.None? ==> forall k :: 0 <= k < |members| ==> members[k].assetId != id)
            && (m.Some? ==> exists k :: 0 <= k < |members| && members[k] == m.value && m.value.assetId == id
                                        && forall j :: k < j < |members| ==> members[j].assetId != id)
  {
    if members != [] && members[|members| - 1].assetId != id {
      MemberOfIs(members[..|members| - 1], id);
    }
  }

  /** The member found is the one there is. */
  lemma FoundMember(p: PortfolioState, id: AssetId)
    ensures forall m :: IsMember(p, id, m) <==> MemberOf(p.members, id) == Some(m)
    ensures forall m :: IsMembership(p, id, m) <==> MemberOf(p.members, id) == m
  {
    MemberOfIs(p.members, id);
    hide MemberOf;
    forall m
      ensures IsMember(p, id, m) <==> MemberOf(p.members, id) == Some(m)
    {
      if IsMember(p, id, m) {
        var k :| 0 <= k < |p.members| && p.members[k] == m && m.assetId == id
                 && forall j :: k < j < |p.members| ==> p.members[j].assetId != id;
      }
    }
  }

  // ----- The formulas over the NAV -----

  lemma OverNav(x: real, limit: real, nav: real)
    requires nav > 0.0
    ensures x / nav <= limit <==> x <= limit * nav
    ensures x / nav < limit <==> x < limit * nav
  {
    var q := x / nav;
    assert q * nav == x;
    if q <= limit {
      Scaled(q, limit, nav);
    }
    if q >= limit {
      Scaled(limit, q, nav);
    }
    if q < limit {
      StrictlyScaled(q, limit, nav);
    }
    if q > limit {
      StrictlyScaled(limit, q, nav);
    }
  }

  lemma Scaled(x: real, y: real, z: real)
    requires x <= y && z > 0.0
    ensures x * z <= y * z
  {
    assert (y - x) * z >= 0.0;
  }

  lemma StrictlyScaled(x: real, y: real, z: real)
    requires x < y && z > 0.0
    ensures x * z < y * z
  {
    assert (y - x) * z > 0.0;
  }

  lemma RiskShare(num: Decimals, worth: real, nav: real, stop: real)
    requires num.Exact() && nav > 0.0
    ensures num.mul(num.div(worth, nav), stop) == worth * stop / nav
  {
    var share := worth / nav;
    assert num.div(worth, nav) == share && share * nav == worth;
    assert num.mul(share, stop) == share * stop;
    var risk := worth * stop / nav;
    assert risk * nav == worth * stop == share * stop * nav;
    assert (risk - share * stop) * nav == 0.0;
  }

  lemma ExactCash(num: Decimals, cash: real, worth: real, nav: real, floor: real)
    requires num.Exact() && nav > 0.0
    ensures num.div(num.Sub(cash, worth), nav) < floor <==> cash - worth < floor * nav
  {
    assert num.Sub(cash, worth) == cash - worth;
    assert num.div(cash - worth, nav) == (cash - worth) / nav;
    OverNav(cash - worth, floor, nav);
  }

  lemma ExactWorth(num: Decimals, quantity: real, price: real)
    requires num.Exact()
    ensures num.mul(quantity, price) == quantity * price
  {
  }

  lemma SignOfWorth(quantity: real, price: real)
    requires price > 0.0
    ensures quantity > 0.0 <==> quantity * price > 0.0
  {
    if quantity > 0.0 {
      StrictlyScaled(0.0, quantity, price);
    } else {
      Scaled(quantity, 0.0, price);
    }
  }

  /** What follows is about buys of positive size and price in accounts of positive NAV. */
  predicate Proper(i: OrderIntent, p: PortfolioState) {
    i.side.Buy? && i.quantity > 0.0 && i.estimatedPrice > 0.0 && p.snapshot.nav > 0.0
  }

  lemma CashRule(r: Policy, i: OrderIntent, p: PortfolioState)
    requires r.num.Exact() && Proper(i, p)
    ensures Violates(r, i, p, CashFloor) <==> !CashFits(r, i, p)
  {
    ExactWorth(r.num, i.quantity, i.estimatedPrice);
    ExactCash(r.num, p.snapshot.cashValue, i.quantity * i.estimatedPrice, p.snapshot.nav, r.minCashWeight);
    hide Decimals.Exact;
  }

  lemma RiskRule(r: Policy, i: OrderIntent, p: PortfolioState)
    requires r.num.Exact() && Proper(i, p)
    ensures Violates(r, i, p, MaxOrderRisk) <==> !RiskFits(r, i, p)
  {
    var nav, worth := p.snapshot.nav, i.quantity * i.estimatedPrice;
    ExactWorth(r.num, i.quantity, i.estimatedPrice);
    var stop := r.AssumedStopLoss(CategoryOf(i.assetId));
    assert forall x :: StopOf(r, i.assetId, x) <==> stop == Some(x);
    if stop.Some? {
      RiskShare(r.num, worth, nav, stop.value);
      OverNav(worth * stop.value, r.maxOrderRisk, nav);
      hide Decimals.Exact;
      assert CapitalAtRisk(r, i, p, stop.value) == worth * stop.value / nav;
      assert StopOf(r, i.assetId, stop.value);
    }
  }

  lemma PositionWorth(r: Policy, i: OrderIntent, p: PortfolioState)
    requires r.num.Exact() && Proper(i, p)
    ensures PostTradeValue(r, i, p) == Max((HeldOf(p, i.assetId) + i.quantity) * i.estimatedPrice, 0.0)
    ensures r.num.div(PostTradeValue(r, i, p), p.snapshot.nav) == PostTradeValue(r, i, p) / p.snapshot.nav
  {
    var quantity := HeldOf(p, i.assetId) + i.quantity;
    assert r.num.add(QuantityOf(p, i.assetId), i.quantity) == quantity;
    ExactWorth(r.num, quantity, i.estimatedPrice);
    SignOfWorth(quantity, i.estimatedPrice);
  }

  lemma CapRule(r: Policy, i: OrderIntent, p: PortfolioState)
    requires r.num.Exact() && Proper(i, p)
    ensures Violates(r, i, p, MaxSingleAssetWeight) <==> !CapFits(r, i, p)
  {
    var id, nav, member := i.assetId, p.snapshot.nav, MemberOf(p.members, i.assetId);
    FoundMember(p, id);
    PositionWorth(r, i, p);
    hide Decimals.Exact, IsMember, IsMembership, MemberOf, PostTradeValue;
    var cap := r.SingleAssetCap(CategoryOf(id), member);
    assert forall x :: CapOf(r, id, member, x) <==> cap == Some(x);
    var worth := Max((HeldOf(p, id) + i.quantity) * i.estimatedPrice, 0.0);
    if cap.Some? {
      OverNav(worth, cap.value, nav);
      assert CapOf(r, id, member, cap.value);
    }
  }

  lemma DrawdownRule(r: Policy, i: OrderIntent, p: PortfolioState)
    requires r.num.Exact() && Proper(i, p)
    ensures Violates(r, i, p, DrawdownStopLine) <==> Stopped(r, p.snapshot.nav)
  {
    StoppedExactly(r, p);
    hide Decimals.Exact;
  }

  lemma StoppedExactly(r: Policy, p: PortfolioState)
    requires r.num.Exact()
    ensures Drawdown(r, p) >= r.drawdownStopLine <==> Stopped(r, p.snapshot.nav)
  {
    var nav, line := p.snapshot.nav, r.drawdownStopLine;
    var peak := if r.peak.Some? && r.peak.value > 0.0 then r.peak.value else nav;
    if peak > 0.0 {
      assert r.num.Sub(peak, nav) == peak - nav;
      assert r.num.div(peak - nav, peak) == (peak - nav) / peak;
      OverNav(peak - nav, line, peak);
    }
  }

  lemma MemberRules(r: Policy, i: OrderIntent, p: PortfolioState)
    ensures Violates(r, i, p, AssetMustBeMember) <==> !Meets(r, i, p, AssetMustBeMember)
    ensures Violates(r, i, p, RestrictedMemberBlocksBuy) <==> !Meets(r, i, p, RestrictedMemberBlocksBuy)
  {
    FoundMember(p, i.assetId);
    hide IsMember, MemberOf;
    var member := MemberOf(p.members, i.assetId);
    if member.Some? {
      assert IsMember(p, i.assetId, member.value);
    }
  }

  /** The rules a buy is checked against. */
  lemma BuyRules(i: OrderIntent, p: PortfolioState)
    requires i.side.Buy?
    ensures forall rule :: rule in CheckedRules(i, p) <==>
              || rule.QuantityPositive? || rule.EstimatedPricePositive? || rule.AssetMustBeMember?
              || rule.RestrictedMemberBlocksBuy? || rule.MaxOrderRisk? || rule.MaxSingleAssetWeight? || rule.CashFloor?
              || (rule.MaxHeldPositions? && HeldOf(p, i.assetId) == 0.0) || rule.DrawdownStopLine?
  {
  }

  /** A rule that is checked is violated exactly when what it asks for is not met. */
  lemma RuleMeans(r: Policy, i: OrderIntent, p: PortfolioState, rule: Rule)
    requires r.num.Exact() && Proper(i, p)
    ensures rule in CheckedRules(i, p) && Violates(r, i, p, rule) <==> !Meets(r, i, p, rule)
  {
    BuyRules(i, p);
    hide CheckedRules, IsMember, CapFits, CashFits, RiskFits, Stopped, Decimals.Exact;
    match rule
    case AssetMustBeMember => MemberRules(r, i, p);
    case RestrictedMemberBlocksBuy => MemberRules(r, i, p);
    case MaxOrderRisk => RiskRule(r, i, p);
    case MaxSingleAssetWeight => CapRule(r, i, p);
    case CashFloor => CashRule(r, i, p);
    case DrawdownStopLine => DrawdownRule(r, i, p);
    case _ =>
  }

  /** Main result: in exact arithmetic a buy in an account of positive NAV is rejected by exactly the limits it
      breaks. */
  lemma RejectedExactly(r: Policy, i: OrderIntent, p: PortfolioState, rule: Rule)
    requires r.num.Exact() && Proper(i, p)
    ensures rule in CheckOrder(r, i, p).rejections <==> !Meets(r, i, p, rule)
  {
    ApprovedIff(r, i, p);
    RuleMeans(r, i, p, rule);
  }

  /** Main result: in exact arithmetic a buy is approved if and only if its size and price and the NAV are positive
      and it is within the limits: a non-restricted member, its cap, the cash floor, the risk budget, the number of
      positions and the stop line. */
  lemma BuyApprovedExactly(r: Policy, i: OrderIntent, p: PortfolioState)
    requires r.num.Exact() && i.side.Buy?
    ensures CheckOrder(r, i, p).approved <==> Proper(i, p) && WithinLimits(r, i, p)
  {
    ApprovedIff(r, i, p);
    BuyRules(i, p);
    hide CheckOrder, CheckedRules, IsMember, CapFits, CashFits, RiskFits, Stopped, OthersFit, Decimals.Exact;
    if Proper(i, p) {
      forall rule
        ensures rule in CheckedRules(i, p) && Violates(r, i, p, rule) <==> !Meets(r, i, p, rule)
      {
        RuleMeans(r, i, p, rule);
      }
      hide Violates;
      AllMet(r, i, p);
    } else {
      ImproperIsViolation(r, i, p);
    }
  }

  /** Meeting every rule is being within the limits. */
  lemma AllMet(r: Policy, i: OrderIntent, p: PortfolioState)
    ensures (forall rule :: Meets(r, i, p, rule)) <==> WithinLimits(r, i, p)
  {
    FoundMember(p, i.assetId);
    hide IsMember, MemberOf, CapFits, CashFits, RiskFits, Stopped, OthersFit;
    if forall rule :: Meets(r, i, p, rule) {
      assert Meets(r, i, p, AssetMustBeMember) && Meets(r, i, p, RestrictedMemberBlocksBuy)
             && Meets(r, i, p, MaxOrderRisk);
      assert Meets(r, i, p, MaxSingleAssetWeight) && Meets(r, i, p, CashFloor) && Meets(r, i, p, MaxHeldPositions);
      assert Meets(r, i, p, DrawdownStopLine);
    }
  }

  lemma ImproperIsViolation(r: Policy, i: OrderIntent, p: PortfolioState)
    requires i.side.Buy? && !Proper(i, p)
    ensures exists rule :: rule in CheckedRules(i, p) && Violates(r, i, p, rule)
  {
    BuyRules(i, p);
    hide CheckedRules;
    if i.quantity <= 0.0 {
      assert Violates(r, i, p, QuantityPositive);
    } else if i.estimatedPrice <= 0.0 {
      assert Violates(r, i, p, EstimatedPricePositive);
    } else {
      assert Violates(r, i, p, CashFloor);
    }
  }
}
