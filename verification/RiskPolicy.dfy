/** The rule-based risk gate (backend/domain/risk/simple_risk_policy.py). */
module RiskPolicy {
  import opened Common
  import opened Domain

  datatype Category = EquityAsset | CryptoAsset | CashAsset | OtherAsset

  /** The thresholds fixed at construction; `peak` is the injected peak NAV, when there is one. */
  datatype Policy = Policy(
    num: Decimals,
    maxSingleEquityWeight: real,
    maxSingleCryptoWeight: real,
    maxCryptoCategoryWeight: real,
    minCashWeight: real,
    maxOrderRisk: real,
    stopLossEquity: real,
    stopLossCrypto: real,
    maxHeldPositions: int,
    drawdownStopLine: real,
    peak: Option<real>)
  {
    /** What the constructor enforces. */
    predicate Valid() {
      && 0.0 <= maxSingleEquityWeight <= 1.0 && 0.0 <= maxSingleCryptoWeight <= 1.0
      && 0.0 <= maxCryptoCategoryWeight <= 1.0 && 0.0 <= minCashWeight <= 1.0
      && 0.0 <= maxOrderRisk <= 1.0 && 0.0 <= drawdownStopLine <= 1.0
      && 0.0 < stopLossEquity <= 1.0 && 0.0 < stopLossCrypto <= 1.0
      && maxHeldPositions > 0
      && (peak.Some? ==> peak.value >= 0.0)
    }

    function SingleAssetCap(c: Category, m: Option<Member>): Option<real> {
      if m.Some? && m.value.targetWeightMax.Some? then m.value.targetWeightMax
      else if c.EquityAsset? then Some(maxSingleEquityWeight)
      else if c.CryptoAsset? then Some(maxSingleCryptoWeight)
      else None
    }

    function AssumedStopLoss(c: Category): Option<real> {
      if c.EquityAsset? then Some(stopLossEquity) else if c.CryptoAsset? then Some(stopLossCrypto) else None
    }
  }

  function CategoryOf(id: AssetId): Category {
    if "equity:" <= id then EquityAsset
    else if "crypto:" <= id then CryptoAsset
    else if "cash:" <= id then CashAsset
    else OtherAsset
  }

  function MemberOf(members: seq<Member>, id: AssetId): Option<Member> {
    if members == [] then None
    else if members[|members| - 1].assetId == id then Some(members[|members| - 1])
    else MemberOf(members[..|members| - 1], id)
  }

  function QuantityOf(p: PortfolioState, id: AssetId): real {
    if id in p.positions then p.positions[id].quantity else 0.0
  }

  function HeldCount(p: PortfolioState): nat {
    |set id | id in p.positions && p.positions[id].quantity != 0.0|
  }

  /** `_current_drawdown`: no drawdown without a usable peak, and none at a new high. */
  function Drawdown(r: Policy, p: PortfolioState): real {
    var nav := p.snapshot.nav;
    var peak := if r.peak.Some? && r.peak.value > 0.0 then r.peak.value else nav;
    if peak <= 0.0 then 0.0
    else Max(r.num.div(r.num.Sub(peak, nav), peak), 0.0)
  }

  // ----- check_order -----

  function Notional(r: Policy, i: OrderIntent): real {
    if i.quantity > 0.0 && i.estimatedPrice > 0.0 then r.num.mul(i.quantity, i.estimatedPrice) else 0.0
  }

  function PostTradeValue(r: Policy, i: OrderIntent, p: PortfolioState): real {
    var quantity := r.num.add(QuantityOf(p, i.assetId), i.quantity);
    if quantity > 0.0 then r.num.mul(quantity, i.estimatedPrice) else 0.0
  }

  function PostTradeWeight(r: Policy, i: OrderIntent, p: PortfolioState): real {
    r.num.div(PostTradeValue(r, i, p), p.snapshot.nav)
  }

  function CapitalAtRisk(r: Policy, i: OrderIntent, p: PortfolioState, stopLoss: real): real {
    r.num.mul(r.num.div(Notional(r, i), p.snapshot.nav), stopLoss)
  }

  function PostTradeCashWeight(r: Policy, i: OrderIntent, p: PortfolioState): real {
    r.num.div(r.num.Sub(p.snapshot.cashValue, Notional(r, i)), p.snapshot.nav)
  }

  /** When each rule rejects an order. */
  predicate Violates(r: Policy, i: OrderIntent, p: PortfolioState, rule: Rule) {
    var category := CategoryOf(i.assetId);
    var member := MemberOf(p.members, i.assetId);
    var nav := p.snapshot.nav;
    match rule
    case QuantityPositive => i.quantity <= 0.0
    case EstimatedPricePositive => i.estimatedPrice <= 0.0
    case AssetMustBeMember => member.None?
    case RestrictedMemberBlocksBuy => member.Some? && member.value.status.Restricted?
    case MaxOrderRisk =>
      var stopLoss := r.AssumedStopLoss(category);
      stopLoss.Some? && (nav <= 0.0 || CapitalAtRisk(r, i, p, stopLoss.value) > r.maxOrderRisk)
    case MaxSingleAssetWeight =>
      var cap := r.SingleAssetCap(category, member);
      cap.Some? && (nav <= 0.0 || PostTradeWeight(r, i, p) > cap.value)
    case CashFloor => nav <= 0.0 || PostTradeCashWeight(r, i, p) < r.minCashWeight
    case MaxHeldPositions => HeldCount(p) >= r.maxHeldPositions
    case DrawdownStopLine => Drawdown(r, p) >= r.drawdownStopLine
    case _ => false
  }

  /** The rules an order is checked against, in order. */
  function CheckedRules(i: OrderIntent, p: PortfolioState): seq<Rule> {
    var always := [QuantityPositive] + [EstimatedPricePositive];
    if i.side.Sell? then always
    else
      var buy := always + [AssetMustBeMember] + [RestrictedMemberBlocksBuy] + [MaxOrderRisk] + [MaxSingleAssetWeight]
          + [CashFloor];
      (if QuantityOf(p, i.assetId) == 0.0 then buy + [MaxHeldPositions] else buy) + [DrawdownStopLine]
  }

  /** The violated rules among `rules`, in order. */
  function Violated(r: Policy, i: OrderIntent, p: PortfolioState, rules: seq<Rule>): seq<Rule> {
    if rules == [] then []
    else
      var n := |rules| - 1;
      Violated(r, i, p, rules[..n]) + if Violates(r, i, p, rules[n]) then [rules[n]] else []
  }

  /** The verdict: every applicable rule is checked, every violated one is reported. */
  function CheckOrder(r: Policy, i: OrderIntent, p: PortfolioState): RiskCheckResult {
    var checked := CheckedRules(i, p);
    var rejections := Violated(r, i, p, checked);
    RiskCheckResult(rejections == [], rejections, checked)
  }

  lemma ViolatedStep(r: Policy, i: OrderIntent, p: PortfolioState, rules: seq<Rule>, rule: Rule)
    ensures Violated(r, i, p, rules + [rule])
         == if Violates(r, i, p, rule) then Violated(r, i, p, rules) + [rule] else Violated(r, i, p, rules)
  {
    assert (rules + [rule])[..|rules|] == rules;
  }

  /** The rules that only a buy can break. */
  method RunBuyChecks(r: Policy, i: OrderIntent, p: PortfolioState, before: RiskCheckResult)
    returns (checked: seq<Rule>, reasons: seq<Rule>)
    requires i.side.Buy? && before.checked == [QuantityPositive] + [EstimatedPricePositive]
    requires before.rejections == Violated(r, i, p, before.checked)
    ensures checked == CheckedRules(i, p) && reasons == Violated(r, i, p, checked)
  {
    hide Violated, CapitalAtRisk, PostTradeWeight, PostTradeCashWeight, HeldCount, Drawdown, MemberOf, CategoryOf,
         QuantityOf;
    checked, reasons := before.checked, before.rejections;
    var category := CategoryOf(i.assetId);
    var member := MemberOf(p.members, i.assetId);
    var nav := p.snapshot.nav;

    ViolatedStep(r, i, p, checked, AssetMustBeMember);
    checked := checked + [AssetMustBeMember];
    if member.None? {
      reasons := reasons + [AssetMustBeMember];
    }
    assert reasons == Violated(r, i, p, checked);

    ViolatedStep(r, i, p, checked, RestrictedMemberBlocksBuy);
    checked := checked + [RestrictedMemberBlocksBuy];
    if member.Some? && member.value.status.Restricted? {
      reasons := reasons + [RestrictedMemberBlocksBuy];
    }
    assert reasons == Violated(r, i, p, checked);

    ViolatedStep(r, i, p, checked, MaxOrderRisk);
    checked := checked + [MaxOrderRisk];
    var stopLoss := r.AssumedStopLoss(category);
    if stopLoss.Some? {
      if nav <= 0.0 || CapitalAtRisk(r, i, p, stopLoss.value) > r.maxOrderRisk {
        reasons := reasons + [MaxOrderRisk];
      }
    }
    assert reasons == Violated(r, i, p, checked);

    ViolatedStep(r, i, p, checked, MaxSingleAssetWeight);
    checked := checked + [MaxSingleAssetWeight];
    var cap := r.SingleAssetCap(category, member);
    if cap.Some? {
      if nav <= 0.0 || PostTradeWeight(r, i, p) > cap.value {
        reasons := reasons + [MaxSingleAssetWeight];
      }
    }
    assert reasons == Violated(r, i, p, checked);

    ViolatedStep(r, i, p, checked, CashFloor);
    checked := checked + [CashFloor];
    if nav <= 0.0 || PostTradeCashWeight(r, i, p) < r.minCashWeight {
      reasons := reasons + [CashFloor];
    }
    assert reasons == Violated(r, i, p, checked);

    if QuantityOf(p, i.assetId) == 0.0 {
      ViolatedStep(r, i, p, checked, MaxHeldPositions);
      checked := checked + [MaxHeldPositions];
      if HeldCount(p) >= r.maxHeldPositions {
        reasons := reasons + [MaxHeldPositions];
      }
    }
    assert reasons == Violated(r, i, p, checked);

    ViolatedStep(r, i, p, checked, DrawdownStopLine);
    checked := checked + [DrawdownStopLine];
    if Drawdown(r, p) >= r.drawdownStopLine {
      reasons := reasons + [DrawdownStopLine];
    }
  }

  /** `check_order`, rule by rule. */
  method RunOrderChecks(r: Policy, i: OrderIntent, p: PortfolioState) returns (result: RiskCheckResult)
    ensures result == CheckOrder(r, i, p)
  {
    var checked: seq<Rule>, reasons: seq<Rule> := [], [];
    ViolatedStep(r, i, p, checked, QuantityPositive);
    checked := checked + [QuantityPositive];
    assert checked == [QuantityPositive];
    if i.quantity <= 0.0 {
      reasons := reasons + [QuantityPositive];
    }
    ViolatedStep(r, i, p, checked, EstimatedPricePositive);
    checked := checked + [EstimatedPricePositive];
    if i.estimatedPrice <= 0.0 {
      reasons := reasons + [EstimatedPricePositive];
    }
    if i.side.Buy? {
      checked, reasons := RunBuyChecks(r, i, p, RiskCheckResult(reasons == [], reasons, checked));
    }
    result := RiskCheckResult(reasons == [], reasons, checked);
  }

  // ----- Properties of the gate -----

  lemma {:induction false} ViolatedMembers(r: Policy, i: OrderIntent, p: PortfolioState, rules: seq<Rule>, rule: Rule)
    ensures rule in Violated(r, i, p, rules) <==> rule in rules && Violates(r, i, p, rule)
  {
    if rules != [] {
      ViolatedMembers(r, i, p, rules[..|rules| - 1], rule);
    }
  }

  /** An order is approved exactly when it violates none of the rules it is checked against. */
  lemma ApprovedIff(r: Policy, i: OrderIntent, p: PortfolioState)
    ensures CheckOrder(r, i, p).approved <==> forall rule :: rule in CheckedRules(i, p) ==> !Violates(r, i, p, rule)
    ensures forall rule :: rule in CheckOrder(r, i, p).rejections <==>
              rule in CheckedRules(i, p) && Violates(r, i, p, rule)
  {
    forall rule
      ensures rule in CheckOrder(r, i, p).rejections <==> rule in CheckedRules(i, p) && Violates(r, i, p, rule)
    {
      ViolatedMembers(r, i, p, CheckedRules(i, p), rule);
    }
    var rejections := CheckOrder(r, i, p).rejections;
    assert rejections != [] ==> rejections[0] in rejections;
  }

  /** Selling is never blocked: any sell of a positive quantity at a positive price is approved. */
  lemma SellsApproved(r: Policy, i: OrderIntent, p: PortfolioState)
    requires i.side.Sell?
    ensures CheckOrder(r, i, p).approved <==> i.quantity > 0.0 && i.estimatedPrice > 0.0
  {
    ApprovedIff(r, i, p);
    assert CheckedRules(i, p) == [QuantityPositive, EstimatedPricePositive];
    assert QuantityPositive in CheckedRules(i, p) && EstimatedPricePositive in CheckedRules(i, p);
  }

  lemma ScaleUp(a: real, b: real, c: real)
    requires a <= b && c > 0.0
    ensures a * c <= b * c && a / c <= b / c
  {
    assert (b - a) * c >= 0.0;
    assert b / c - a / c == (b - a) / c;
    assert (b - a) / c >= 0.0;
  }

  lemma PostTradeValueGrows(r: Policy, small: OrderIntent, big: OrderIntent, p: PortfolioState)
    requires r.num.Exact() && big.estimatedPrice > 0.0
    requires small == big.(quantity := small.quantity) && small.quantity <= big.quantity
    ensures PostTradeValue(r, small, p) <= PostTradeValue(r, big, p)
  {
    var price, q0, q1 := big.estimatedPrice, QuantityOf(p, big.assetId) + small.quantity,
                         QuantityOf(p, big.assetId) + big.quantity;
    ScaleUp(q0, q1, price);
    if q1 > 0.0 {
      ScaleUp(0.0, q1, price);
    }
  }

  lemma NotionalGrows(r: Policy, small: OrderIntent, big: OrderIntent)
    requires r.num.Exact() && big.estimatedPrice > 0.0
    requires small == big.(quantity := small.quantity) && 0.0 < small.quantity <= big.quantity
    ensures Notional(r, small) <= Notional(r, big)
  {
    ScaleUp(small.quantity, big.quantity, big.estimatedPrice);
  }

  lemma DivideMonotone(num: Decimals, a: real, b: real, c: real)
    requires num.Exact() && a <= b && c > 0.0
    ensures num.div(a, c) <= num.div(b, c) && num.mul(a, c) <= num.mul(b, c)
  {
    ScaleUp(a, b, c);
  }

  /** A smaller buy has no more notional, weight or capital at risk, and leaves no less cash. */
  lemma SmallerBuyIsLighter(r: Policy, small: OrderIntent, big: OrderIntent, p: PortfolioState, stopLoss: real)
    requires r.num.Exact() && p.snapshot.nav > 0.0 && stopLoss > 0.0
    requires small == big.(quantity := small.quantity) && 0.0 < small.quantity <= big.quantity
             && big.estimatedPrice > 0.0
    ensures CapitalAtRisk(r, small, p, stopLoss) <= CapitalAtRisk(r, big, p, stopLoss)
    ensures PostTradeWeight(r, small, p) <= PostTradeWeight(r, big, p)
    ensures PostTradeCashWeight(r, small, p) >= PostTradeCashWeight(r, big, p)
  {
    var num, nav := r.num, p.snapshot.nav;
    NotionalGrows(r, small, big);
    PostTradeValueGrows(r, small, big, p);
    var cash0, cash1 := num.Sub(p.snapshot.cashValue, Notional(r, small)),
                        num.Sub(p.snapshot.cashValue, Notional(r, big));
    assert cash1 <= cash0;
    hide Decimals.Exact, Notional, PostTradeValue;
    DivideMonotone(num, Notional(r, small), Notional(r, big), nav);
    DivideMonotone(num, num.div(Notional(r, small), nav), num.div(Notional(r, big), nav), stopLoss);
    DivideMonotone(num, PostTradeValue(r, small, p), PostTradeValue(r, big, p), nav);
    DivideMonotone(num, cash1, cash0, nav);
  }

  /** Buy approval is downward closed in quantity: whatever is approved is approved for less. */
  lemma BuyApprovalDownwardClosed(r: Policy, i: OrderIntent, p: PortfolioState, smaller: real)
    requires r.num.Exact() && r.Valid() && i.side.Buy? && 0.0 < smaller <= i.quantity
    requires CheckOrder(r, i, p).approved
    ensures CheckOrder(r, i.(quantity := smaller), p).approved
  {
    var small := i.(quantity := smaller);
    ApprovedIff(r, i, p);
    ApprovedIff(r, small, p);
    assert EstimatedPricePositive in CheckedRules(i, p) && CashFloor in CheckedRules(i, p);
    assert !Violates(r, i, p, CashFloor) && !Violates(r, i, p, EstimatedPricePositive);
    var stopLoss := r.AssumedStopLoss(CategoryOf(i.assetId));
    SmallerBuyIsLighter(r, small, i, p, if stopLoss.Some? then stopLoss.value else 1.0);
    hide Decimals.Exact, CapitalAtRisk, PostTradeWeight, PostTradeCashWeight;
    forall rule | rule in CheckedRules(small, p)
      ensures !Violates(r, small, p, rule)
    {
      assert rule in CheckedRules(i, p);
      assert !Violates(r, i, p, rule);
    }
  }
}
