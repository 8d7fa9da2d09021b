/** The portfolio-level gate on target weights (`check_target_weights` of
    backend/domain/risk/simple_risk_policy.py), and what of it the strategy's own output always passes. */
module WeightGate {
  import opened Common
  import opened Domain
  import opened RiskPolicy
  import S = Strategy
  import TargetWeights

  /** Total weight of one category. */
  function CategoryTotal(num: Decimals, t: Items<real>, c: Category): real {
    if t == [] then 0.0
    else
      var before, x := CategoryTotal(num, t[..|t| - 1], c), t[|t| - 1];
      if CategoryOf(x.0) == c then num.add(before, x.1) else before
  }

  /** Positions the weights would hold. */
  function HoldingsOf(t: Items<real>): nat {
    if t == [] then 0
    else HoldingsOf(t[..|t| - 1]) + if !CategoryOf(t[|t| - 1].0).CashAsset? && t[|t| - 1].1 > 0.0 then 1 else 0
  }

  predicate OverCap(r: Policy, p: PortfolioState, x: (AssetId, real)) {
    var cap := r.SingleAssetCap(CategoryOf(x.0), MemberOf(p.members, x.0));
    cap.Some? && x.1 > cap.value
  }

  /** A restricted member that is not held is given weight. */
  predicate NewRestricted(t: Items<real>, p: PortfolioState, m: Member) {
    m.status.Restricted? && ItemOr(t, m.assetId, 0.0) > 0.0 && QuantityOf(p, m.assetId) == 0.0
  }

  function CurrentCashWeight(num: Decimals, p: PortfolioState): real {
    if p.snapshot.nav > 0.0 then num.div(p.snapshot.cashValue, p.snapshot.nav) else 1.0
  }

  /** When each rule rejects a set of weights. */
  predicate Breaks(r: Policy, t: Items<real>, p: PortfolioState, rule: Rule) {
    match rule
    case WeightsNonNegative => exists i :: 0 <= i < |t| && t[i].1 < 0.0
    case WeightsSumToOne => SumItems(r.num, t) != 1.0
    case MaxSingleAssetWeight => exists i :: 0 <= i < |t| && OverCap(r, p, t[i])
    case MaxCryptoCategoryWeight => CategoryTotal(r.num, t, CryptoAsset) > r.maxCryptoCategoryWeight
    case CashFloor => CategoryTotal(r.num, t, CashAsset) < r.minCashWeight
    case MaxHeldPositions => HoldingsOf(t) > r.maxHeldPositions
    case RestrictedNoNewPosition => exists i :: 0 <= i < |p.members| && NewRestricted(t, p, p.members[i])
    case DrawdownStopLine =>
      Drawdown(r, p) >= r.drawdownStopLine && CategoryTotal(r.num, t, CashAsset) < CurrentCashWeight(r.num, p)
    case _ => false
  }

  const WEIGHT_RULES: seq<Rule> :=
    [WeightsNonNegative] + [WeightsSumToOne] + [MaxSingleAssetWeight] + [MaxCryptoCategoryWeight] + [CashFloor]
      + [MaxHeldPositions]
    + [RestrictedNoNewPosition] + [DrawdownStopLine]

  /** The broken rules among `rules`, in order. */
  function Broken(r: Policy, t: Items<real>, p: PortfolioState, rules: seq<Rule>): seq<Rule> {
    if rules == [] then []
    else
      var n := |rules| - 1;
      Broken(r, t, p, rules[..n]) + if Breaks(r, t, p, rules[n]) then [rules[n]] else []
  }

  lemma BrokenStep(r: Policy, t: Items<real>, p: PortfolioState, rules: seq<Rule>, rule: Rule)
    ensures Broken(r, t, p, rules + [rule])
         == if Breaks(r, t, p, rule) then Broken(r, t, p, rules) + [rule] else Broken(r, t, p, rules)
  {
    assert (rules + [rule])[..|rules|] == rules;
  }

  /** The sums that the checks take over the weights. */
  method Totals(r: Policy, t: Items<real>) returns (total: real, crypto: real, cash: real, held: nat)
    ensures total == SumItems(r.num, t) && held == HoldingsOf(t)
    ensures crypto == CategoryTotal(r.num, t, CryptoAsset) && cash == CategoryTotal(r.num, t, CashAsset)
  {
    total, crypto, cash, held := 0.0, 0.0, 0.0, 0;
    for i := 0 to |t|
      invariant total == SumItems(r.num, t[..i]) && held == HoldingsOf(t[..i])
      invariant crypto == CategoryTotal(r.num, t[..i], CryptoAsset) && cash == CategoryTotal(r.num, t[..i], CashAsset)
    {
      assert t[..i + 1][..i] == t[..i];
      var (id, weight) := t[i];
      total := r.num.add(total, weight);
      match CategoryOf(id) {
        case CryptoAsset => crypto := r.num.add(crypto, weight);
        case CashAsset => cash := r.num.add(cash, weight);
        case _ =>
      }
      if !CategoryOf(id).CashAsset? && weight > 0.0 {
        held := held + 1;
      }
    }
    assert t[..|t|] == t;
  }

  /** The rules on single weights, on their sum and on the crypto share. */
  method CheckSizes(r: Policy, t: Items<real>, p: PortfolioState, total: real, crypto: real)
    returns (checked: seq<Rule>, reasons: seq<Rule>)
    requires total == SumItems(r.num, t) && crypto == CategoryTotal(r.num, t, CryptoAsset)
    ensures checked == [WeightsNonNegative] + [WeightsSumToOne] + [MaxSingleAssetWeight] + [MaxCryptoCategoryWeight]
    ensures reasons == Broken(r, t, p, checked)
  {
    checked, reasons := [], [];
    assert reasons == Broken(r, t, p, checked);
    hide Broken, CategoryTotal, HoldingsOf, SumItems, Drawdown, OverCap, NewRestricted, CurrentCashWeight;

    BrokenStep(r, t, p, checked, WeightsNonNegative);
    checked := checked + [WeightsNonNegative];
    if exists i :: 0 <= i < |t| && t[i].1 < 0.0 {
      reasons := reasons + [WeightsNonNegative];
    }
    assert reasons == Broken(r, t, p, checked);

    BrokenStep(r, t, p, checked, WeightsSumToOne);
    checked := checked + [WeightsSumToOne];
    if total != 1.0 {
      reasons := reasons + [WeightsSumToOne];
    }
    assert reasons == Broken(r, t, p, checked);

    BrokenStep(r, t, p, checked, MaxSingleAssetWeight);
    checked := checked + [MaxSingleAssetWeight];
    if exists i :: 0 <= i < |t| && OverCap(r, p, t[i]) {
      reasons := reasons + [MaxSingleAssetWeight];
    }
    assert reasons == Broken(r, t, p, checked);

    BrokenStep(r, t, p, checked, MaxCryptoCategoryWeight);
    checked := checked + [MaxCryptoCategoryWeight];
    if crypto > r.maxCryptoCategoryWeight {
      reasons := reasons + [MaxCryptoCategoryWeight];
    }
    assert reasons == Broken(r, t, p, checked);
    assert checked == [WeightsNonNegative] + [WeightsSumToOne] + [MaxSingleAssetWeight] + [MaxCryptoCategoryWeight];
  }

  /** `check_target_weights`, rule by rule. */
  method CheckTargetWeights(r: Policy, t: Items<real>, p: PortfolioState) returns (result: RiskCheckResult)
    ensures var rejections := Broken(r, t, p, WEIGHT_RULES);
            result == RiskCheckResult(rejections == [], rejections, WEIGHT_RULES)
  {
    hide Broken, CategoryTotal, HoldingsOf, SumItems, Drawdown, OverCap, NewRestricted, CurrentCashWeight;
    var total, crypto, cash, held := Totals(r, t);
    var checked, reasons := CheckSizes(r, t, p, total, crypto);

    BrokenStep(r, t, p, checked, CashFloor);
    checked := checked + [CashFloor];
    if cash < r.minCashWeight {
      reasons := reasons + [CashFloor];
    }
    assert reasons == Broken(r, t, p, checked);

    BrokenStep(r, t, p, checked, MaxHeldPositions);
    checked := checked + [MaxHeldPositions];
    if held > r.maxHeldPositions {
      reasons := reasons + [MaxHeldPositions];
    }
    assert reasons == Broken(r, t, p, checked);

    BrokenStep(r, t, p, checked, RestrictedNoNewPosition);
    checked := checked + [RestrictedNoNewPosition];
    if exists i :: 0 <= i < |p.members| && NewRestricted(t, p, p.members[i]) {
      reasons := reasons + [RestrictedNoNewPosition];
    }
    assert reasons == Broken(r, t, p, checked);

    BrokenStep(r, t, p, checked, DrawdownStopLine);
    checked := checked + [DrawdownStopLine];
    if Drawdown(r, p) >= r.drawdownStopLine && cash < CurrentCashWeight(r.num, p) {
      reasons := reasons + [DrawdownStopLine];
    }
    assert reasons == Broken(r, t, p, checked);
    result := RiskCheckResult(reasons == [], reasons, checked);
  }

  /** Exactly the broken rules are reported, and the weights are approved when there are none. */
  lemma {:induction false} BrokenMembers(r: Policy, t: Items<real>, p: PortfolioState, rules: seq<Rule>, rule: Rule)
    ensures rule in Broken(r, t, p, rules) <==> rule in rules && Breaks(r, t, p, rule)
  {
    hide Breaks;
    if rules != [] {
      BrokenMembers(r, t, p, rules[..|rules| - 1], rule);
    }
  }

  /** Main result: the two gates agree where they overlap. On a day with positive NAV the weights that the strategy
      generates break neither the sign rule, nor the sum rule, nor the restricted-member rule, for any policy. */
  lemma StrategyPassesItsRules(r: Policy, a: Analysis, p: PortfolioState)
    requires r.num.Exact() && DistinctMembers(p.members) && TargetWeights.CapsAreFractions(p.members)
             && TargetWeights.NoCashMember(p)
    requires p.snapshot.nav > 0.0 && TargetWeights.NothingShort(p) && TargetWeights.NoNegativeClose(a)
             && S.GenerateTargets(r.num, a, p).Success?
    ensures var t := S.GenerateTargets(r.num, a, p).value.targetWeights;
            !Breaks(r, t, p, WeightsNonNegative) && !Breaks(r, t, p, WeightsSumToOne)
              && !Breaks(r, t, p, RestrictedNoNewPosition)
  {
    var t := S.GenerateTargets(r.num, a, p).value.targetWeights;
    TargetWeights.GeneratedWeightsSound(r.num, a, p);
    forall i | 0 <= i < |p.members| && p.members[i].status.Restricted?
      ensures !NewRestricted(t, p, p.members[i])
    {
      TargetWeights.NoNewExposure(r.num, a, p, i);
      if QuantityOf(p, p.members[i].assetId) == 0.0 {
        UnheldHasNoWeight(r.num, a, p, p.members[i].assetId);
      }
    }
    hide S.GenerateTargets, SumItems, NewRestricted;
  }

  lemma UnheldHasNoWeight(num: Decimals, a: Analysis, p: PortfolioState, id: AssetId)
    requires S.CurrentWeights(num, p, a).Success? && QuantityOf(p, id) == 0.0
    ensures GetOr(S.CurrentWeights(num, p, a).value, id, 0.0) == 0.0
  {
  }
}
