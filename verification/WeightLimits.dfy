/** The gate on target weights as plain limits on shares, without the gate's own sums. */
module WeightLimits {
  import opened Common
  import opened Domain
  import opened RiskPolicy
  import opened RiskLimits
  import opened WeightGate

  /** The weight of all assets whose identifier starts with the prefix. */
  function Share(t: Items<real>, prefix: string): real {
    if t == [] then 0.0 else (if prefix <= t[0].0 then t[0].1 else 0.0) + Share(t[1..], prefix)
  }

  /** The places of the weights that are positions to hold. */
  function Holdings(t: Items<real>): set<int> {
    set i | 0 <= i < |t| && !("cash:" <= t[i].0) && t[i].1 > 0.0
  }

  ghost predicate CapsKept(r: Policy, t: Items<real>, p: PortfolioState) {
    forall i, m: Option<Member>, cap: real ::
      0 <= i < |t| && IsMembership(p, t[i].0, m) && CapOf(r, t[i].0, m, cap) ==> t[i].1 <= cap
  }

  predicate NothingNewRestricted(t: Items<real>, p: PortfolioState) {
    forall k, i :: 0 <= k < |p.members| && 0 <= i < |t| && p.members[k].status == Restricted
                   && HeldOf(p, p.members[k].assetId) == 0.0 && t[i].0 == p.members[k].assetId ==>
      t[i].1 <= 0.0
  }

  /** What each rule asks of the weights. */
  ghost predicate Keeps(r: Policy, t: Items<real>, p: PortfolioState, rule: Rule) {
    match rule
    case WeightsNonNegative => forall i :: 0 <= i < |t| ==> t[i].1 >= 0.0
    case WeightsSumToOne => Share(t, "") == 1.0
    case MaxSingleAssetWeight => CapsKept(r, t, p)
    case MaxCryptoCategoryWeight => Share(t, "crypto:") <= r.maxCryptoCategoryWeight
    case CashFloor => Share(t, "cash:") >= r.minCashWeight
    case MaxHeldPositions => |Holdings(t)| <= r.maxHeldPositions
    case RestrictedNoNewPosition => NothingNewRestricted(t, p)
    case DrawdownStopLine =>
      Stopped(r, p.snapshot.nav) ==>
        if p.snapshot.nav > 0.0 then Share(t, "cash:") * p.snapshot.nav >= p.snapshot.cashValue
        else Share(t, "cash:") >= 1.0
    case _ => true
  }

  lemma {:induction false} ShareAppended(t: Items<real>, x: (AssetId, real), prefix: string)
    ensures Share(t + [x], prefix) == Share(t, prefix) + if prefix <= x.0 then x.1 else 0.0
  {
    if t != [] {
      ShareAppended(t[1..], x, prefix);
      assert (t + [x])[1..] == t[1..] + [x];
    } else {
      assert (t + [x])[1..] == [];
    }
  }

  lemma Categories(id: AssetId)
    ensures CategoryOf(id).CryptoAsset? <==> "crypto:" <= id
    ensures CategoryOf(id).CashAsset? <==> "cash:" <= id
    ensures CategoryOf(id).EquityAsset? <==> "equity:" <= id
  {
    if "equity:" <= id {
      assert id[0] == 'e';
    }
    if "crypto:" <= id {
      assert id[0] == 'c' && id[1] == 'r';
    }
    if "cash:" <= id {
      assert id[0] == 'c' && id[1] == 'a';
    }
  }

  lemma ExactSum(num: Decimals, x: real, y: real)
    requires num.Exact()
    ensures num.add(x, y) == x + y
  {
  }

  lemma {:induction false} TotalsAreShares(num: Decimals, t: Items<real>)
    requires num.Exact()
    ensures SumItems(num, t) == Share(t, "")
    ensures CategoryTotal(num, t, CryptoAsset) == Share(t, "crypto:")
    ensures CategoryTotal(num, t, CashAsset) == Share(t, "cash:")
  {
    hide Decimals.Exact, Share, CategoryOf;
    if t == [] {
      NoShare();
    } else {
      var n := |t| - 1;
      TotalsAreShares(num, t[..n]);
      assert t == t[..n] + [t[n]];
      ShareAppended(t[..n], t[n], "");
      ShareAppended(t[..n], t[n], "crypto:");
      ShareAppended(t[..n], t[n], "cash:");
      Categories(t[n].0);
      ExactSum(num, SumItems(num, t[..n]), t[n].1);
      ExactSum(num, CategoryTotal(num, t[..n], CryptoAsset), t[n].1);
      ExactSum(num, CategoryTotal(num, t[..n], CashAsset), t[n].1);
    }
  }

  lemma NoShare()
    ensures forall prefix :: Share([], prefix) == 0.0
  {
  }

  lemma {:induction false} HoldingsCount(t: Items<real>)
    ensures HoldingsOf(t) == |Holdings(t)|
  {
    hide CategoryOf;
    if t != [] {
      var n := |t| - 1;
      HoldingsCount(t[..n]);
      Categories(t[n].0);
      if !("cash:" <= t[n].0) && t[n].1 > 0.0 {
        assert Holdings(t) == Holdings(t[..n]) + {n};
      } else {
        assert Holdings(t) == Holdings(t[..n]);
      }
    }
  }

  lemma CapsRule(r: Policy, t: Items<real>, p: PortfolioState)
    ensures Breaks(r, t, p, MaxSingleAssetWeight) <==> !CapsKept(r, t, p)
  {
    hide IsMember, IsMembership, MemberOf, CategoryOf;
    forall i | 0 <= i < |t|
      ensures OverCap(r, p, t[i]) <==>
                exists m, cap :: IsMembership(p, t[i].0, m) && CapOf(r, t[i].0, m, cap) && t[i].1 > cap
    {
      FoundMember(p, t[i].0);
      Categories(t[i].0);
      var m := MemberOf(p.members, t[i].0);
      var cap := r.SingleAssetCap(CategoryOf(t[i].0), m);
      assert forall x :: CapOf(r, t[i].0, m, x) <==> cap == Some(x);
      assert cap.Some? ==> CapOf(r, t[i].0, m, cap.value);
    }
    hide OverCap, CapOf;
  }

  lemma RestrictedRule(r: Policy, t: Items<real>, p: PortfolioState)
    requires DistinctKeys(t)
    ensures Breaks(r, t, p, RestrictedNoNewPosition) <==> !NothingNewRestricted(t, p)
  {
    forall k | 0 <= k < |p.members|
      ensures ItemOr(t, p.members[k].assetId, 0.0) > 0.0
              <==> exists i :: 0 <= i < |t| && t[i].0 == p.members[k].assetId && t[i].1 > 0.0
    {
      PositiveItem(t, p.members[k].assetId);
    }
    hide ItemOr;
  }

  lemma PositiveItem(t: Items<real>, id: AssetId)
    requires DistinctKeys(t)
    ensures ItemOr(t, id, 0.0) > 0.0 <==> exists i :: 0 <= i < |t| && t[i].0 == id && t[i].1 > 0.0
  {
    if HasKey(t, id) {
      var i :| 0 <= i < |t| && t[i].0 == id;
      ItemAt(t, i, 0.0);
    } else {
      ItemAbsent(t, id, 0.0);
    }
  }

  lemma StopRule(r: Policy, t: Items<real>, p: PortfolioState)
    requires r.num.Exact()
    ensures Breaks(r, t, p, DrawdownStopLine) <==> !Keeps(r, t, p, DrawdownStopLine)
  {
    StoppedExactly(r, p);
    TotalsAreShares(r.num, t);
    var nav, cash := p.snapshot.nav, p.snapshot.cashValue;
    if nav > 0.0 {
      assert r.num.div(cash, nav) == cash / nav;
      OverNav(cash, Share(t, "cash:"), nav);
    }
    hide Decimals.Exact, Share, CategoryTotal, Stopped, Drawdown;
  }

  /** A checked rule is broken exactly when what it asks for is not kept. */
  lemma RuleMeans(r: Policy, t: Items<real>, p: PortfolioState, rule: Rule)
    requires r.num.Exact() && DistinctKeys(t)
    ensures rule in WEIGHT_RULES && Breaks(r, t, p, rule) <==> !Keeps(r, t, p, rule)
  {
    TotalsAreShares(r.num, t);
    HoldingsCount(t);
    CapsRule(r, t, p);
    RestrictedRule(r, t, p);
    StopRule(r, t, p);
    WeightRules();
    hide Decimals.Exact, Share, Holdings, CapsKept, NothingNewRestricted, SumItems, CategoryTotal, HoldingsOf, Stopped,
         Drawdown, OverCap, NewRestricted;
  }

  lemma WeightRules()
    ensures forall rule :: rule in WEIGHT_RULES <==>
              || rule.WeightsNonNegative? || rule.WeightsSumToOne? || rule.MaxSingleAssetWeight?
              || rule.MaxCryptoCategoryWeight? || rule.CashFloor? || rule.MaxHeldPositions?
              || rule.RestrictedNoNewPosition? || rule.DrawdownStopLine?
  {
  }

  /** Main result: in exact arithmetic the gate on target weights reports exactly the limits that the weights do not
      keep. */
  lemma ReportedExactly(r: Policy, t: Items<real>, p: PortfolioState, rule: Rule)
    requires r.num.Exact() && DistinctKeys(t)
    ensures rule in Broken(r, t, p, WEIGHT_RULES) <==> !Keeps(r, t, p, rule)
  {
    BrokenMembers(r, t, p, WEIGHT_RULES, rule);
    RuleMeans(r, t, p, rule);
    hide Breaks, Keeps, Broken;
  }
}
