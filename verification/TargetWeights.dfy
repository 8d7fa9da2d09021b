/** What the strategy promises about its weights: they sum to one and lie in [0, 1] exactly
    when no desired weight is negative, and scaling never raises a weight. */
module TargetWeights {
  import opened Common
  import opened Domain
  import opened Strategy

  lemma {:induction false} ScaledFacts(num: Decimals, d: Items<real>, f: real)
    requires num.Exact()
    ensures var s := Scaled(num, d, f);
            && |s| == |d|
            && (forall i :: 0 <= i < |d| ==> s[i].0 == d[i].0 && s[i].1 == num.mul(d[i].1, f))
            && SumItems(num, s) == num.mul(SumItems(num, d), f)
  {
    hide Decimals.Exact;
    Distribute(num, 0.0, 0.0, f);
    if d != [] {
      var n := |d| - 1;
      ScaledFacts(num, d[..n], f);
      var before := Scaled(num, d[..n], f);
      assert (before + [(d[n].0, num.mul(d[n].1, f))])[..n] == before;
      Distribute(num, SumItems(num, d[..n]), d[n].1, f);
    }
  }

  lemma Distribute(num: Decimals, x: real, y: real, f: real)
    requires num.Exact()
    ensures num.mul(num.add(x, y), f) == num.add(num.mul(x, f), num.mul(y, f)) && num.mul(0.0, f) == 0.0
  {
    assert num.mul(x + y, f) == (x + y) * f;
    assert num.mul(x, f) == x * f && num.mul(y, f) == y * f;
  }

  lemma ScaleFactor(num: Decimals, rawTotal: real)
    requires num.Exact() && rawTotal > 1.0
    ensures var f := num.div(1.0, rawTotal);
            0.0 < f < 1.0 && num.mul(rawTotal, f) == 1.0
  {
    assert 0.0 < 1.0 / rawTotal < 1.0;
    assert rawTotal * (1.0 / rawTotal) == 1.0;
  }

  lemma ShrinksTowardZero(num: Decimals, w: real, f: real)
    requires num.Exact() && 0.0 < f < 1.0
    ensures w >= 0.0 ==> 0.0 <= num.mul(w, f) <= w
    ensures w < 0.0 ==> num.mul(w, f) < 0.0
  {
    assert w >= 0.0 ==> 0.0 <= w * f <= w;
    assert w < 0.0 ==> w * f < 0.0;
  }

  /** The weights before cash: same assets, same signs, never above the desired ones, total at most 1. */
  lemma AssetWeightsFacts(num: Decimals, d: Items<real>)
    requires num.Exact()
    ensures var w := AssetWeights(num, d);
            && |w| == |d|
            && (forall i :: 0 <= i < |d| ==> w[i].0 == d[i].0)
            && (forall i :: 0 <= i < |d| ==>
                (d[i].1 >= 0.0 ==> 0.0 <= w[i].1 <= d[i].1) && (d[i].1 < 0.0 ==> w[i].1 < 0.0))
            && SumItems(num, w) <= 1.0
            && (SumItems(num, d) > 1.0 ==> SumItems(num, w) == 1.0)
  {
    hide Decimals.Exact;
    var rawTotal := SumItems(num, d);
    if rawTotal > 1.0 {
      var f := num.div(1.0, rawTotal);
      ScaleFactor(num, rawTotal);
      ScaledFacts(num, d, f);
      forall i | 0 <= i < |d|
        ensures (d[i].1 >= 0.0 ==> 0.0 <= num.mul(d[i].1, f) <= d[i].1) && (d[i].1 < 0.0 ==> num.mul(d[i].1, f) < 0.0)
      {
        ShrinksTowardZero(num, d[i].1, f);
      }
    }
  }

  lemma {:induction false} SameKeysLookup(d: Items<real>, w: Items<real>, k: AssetId)
    requires DistinctKeys(d) && |w| == |d| && forall i :: 0 <= i < |d| ==> w[i].0 == d[i].0
    ensures DistinctKeys(w) && (HasKey(w, k) <==> HasKey(d, k))
    ensures !HasKey(d, k) ==> ItemOr(d, k, 0.0) == ItemOr(w, k, 0.0) == 0.0
    ensures forall i :: 0 <= i < |d| && d[i].0 == k ==> ItemOr(d, k, 0.0) == d[i].1 && ItemOr(w, k, 0.0) == w[i].1
  {
    if HasKey(w, k) {
      var i :| 0 <= i < |w| && w[i].0 == k;
      assert d[i].0 == k;
    }
    if HasKey(d, k) {
      var i :| 0 <= i < |d| && d[i].0 == k;
      assert w[i].0 == k;
      ItemAt(d, i, 0.0);
      ItemAt(w, i, 0.0);
    } else {
      ItemAbsent(d, k, 0.0);
      ItemAbsent(w, k, 0.0);
    }
  }

  /** The built weights are the asset weights plus the cash residual. */
  lemma BuiltTargets(num: Decimals, d: Items<real>, currency: Currency)
    requires num.Exact() && DistinctKeys(d) && !HasKey(d, CashId(currency))
    ensures var w := AssetWeights(num, d);
            var cash := 1.0 - SumItems(num, w);
            && cash >= 0.0
            && BuildTargetWeights(num, d, currency) == Success(Nonzero(w) + [(CashId(currency), cash)])
  {
    var w := AssetWeights(num, d);
    AssetWeightsFacts(num, d);
    SameKeysLookup(d, w, CashId(currency));
    NonzeroLookup(w, CashId(currency));
    NonzeroSum(num, w);
    var cash := num.Sub(1.0, SumItems(num, w));
    PutFresh(Nonzero(w), CashId(currency), cash);
    assert (Nonzero(w) + [(CashId(currency), cash)])[..|Nonzero(w)|] == Nonzero(w);
  }

  lemma {:induction false} NonzeroComplete(d: Items<real>, x: (AssetId, real))
    requires x in d && x.1 != 0.0
    ensures x in Nonzero(d)
  {
    if x != d[|d| - 1] {
      NonzeroComplete(d[..|d| - 1], x);
    }
  }

  /** With a currency of its own for cash, generation never fails its sum check, and the weights
      are all in [0, 1] exactly when no desired weight is negative. */
  lemma TargetsSoundIff(num: Decimals, d: Items<real>, currency: Currency)
    requires num.Exact() && DistinctKeys(d) && !HasKey(d, CashId(currency))
    ensures BuildTargetWeights(num, d, currency).Success?
    ensures var t := BuildTargetWeights(num, d, currency).value;
            && SumItems(num, t) == 1.0
            && ((forall i :: 0 <= i < |t| ==> 0.0 <= t[i].1 <= 1.0) <==> NonNegative(d))
  {
    var w := AssetWeights(num, d);
    var cash := 1.0 - SumItems(num, w);
    BuiltTargets(num, d, currency);
    AssetWeightsFacts(num, d);
    NonzeroLookup(w, CashId(currency));
    hide BuildTargetWeights, AssetWeights, Decimals.Exact, DistinctKeys;
    var nonzero := Nonzero(w);
    var t := nonzero + [(CashId(currency), cash)];
    if NonNegative(d) {
      NonNegativeSum(num, w);
      forall i | 0 <= i < |t|
        ensures 0.0 <= t[i].1 <= 1.0
      {
        if i < |nonzero| {
          assert nonzero[i] in nonzero;
          var j :| 0 <= j < |w| && w[j] == nonzero[i];
        }
      }
    } else {
      var i :| 0 <= i < |d| && d[i].1 < 0.0;
      NonzeroComplete(w, w[i]);
      var j :| 0 <= j < |nonzero| && nonzero[j] == w[i];
      assert t[j].1 < 0.0;
    }
  }

  /** Scaling never raises a weight: where a non-negative weight was desired, what is targeted lies between 0 and it. */
  lemma TargetAtMostDesired(num: Decimals, d: Items<real>, currency: Currency, id: AssetId)
    requires num.Exact() && DistinctKeys(d) && !HasKey(d, CashId(currency)) && id != CashId(currency)
    requires ItemOr(d, id, 0.0) >= 0.0
    ensures BuildTargetWeights(num, d, currency).Success?
    ensures 0.0 <= ItemOr(BuildTargetWeights(num, d, currency).value, id, 0.0) <= ItemOr(d, id, 0.0)
  {
    var w := AssetWeights(num, d);
    BuiltTargets(num, d, currency);
    AssetWeightsFacts(num, d);
    SameKeysLookup(d, w, id);
    NonzeroLookup(w, id);
    var t := BuildTargetWeights(num, d, currency).value;
    assert t[..|t| - 1] == Nonzero(w);
    if HasKey(d, id) {
      var i :| 0 <= i < |d| && d[i].0 == id;
      assert d[i].1 >= 0.0;
    }
  }

  // ----- Desired weights of the members -----

  lemma NextMemberIsNew(members: seq<Member>, d: Items<real>, n: nat)
    requires n < |members| && DistinctMembers(members) && |d| == n
             && forall i :: 0 <= i < n ==> d[i].0 == members[i].assetId
    ensures !HasKey(d, members[n].assetId)
  {
  }

  lemma {:induction false} DesiredFacts(members: seq<Member>, a: Analysis, current: map<AssetId, real>, n: nat)
    requires n <= |members| && DistinctMembers(members)
    ensures var d := DesiredUpTo(members, a, current, n);
            && |d| == n && DistinctKeys(d)
            && forall i :: 0 <= i < n ==>
                 d[i] == (members[i].assetId,
                          DesiredWeight(members[i], AnalysisOf(a, members[i].assetId),
                                        GetOr(current, members[i].assetId, 0.0)))
  {
    hide DesiredWeight, AnalysisOf, GetOr, Put, HasKey;
    if n > 0 {
      DesiredFacts(members, a, current, n - 1);
      var before := DesiredUpTo(members, a, current, n - 1);
      var m := members[n - 1];
      NextMemberIsNew(members, before, n - 1);
      PutFresh(before, m.assetId, DesiredWeight(m, AnalysisOf(a, m.assetId), GetOr(current, m.assetId, 0.0)));
    }
  }

  /** Weight caps are null or fractions. */
  predicate CapsAreFractions(members: seq<Member>) {
    forall i :: 0 <= i < |members| && members[i].targetWeightMax.Some? ==>
        0.0 <= members[i].targetWeightMax.value <= 1.0
  }

  /** No member is named like the cash key. */
  predicate NoCashMember(p: PortfolioState) {
    forall i :: 0 <= i < |p.members| ==> p.members[i].assetId != CashId(p.baseCurrency)
  }

  /** Nothing is held short. */
  predicate NothingShort(p: PortfolioState) {
    forall id :: id in p.positions ==> p.positions[id].quantity >= 0.0
  }

  /** No analysed close is negative. */
  predicate NoNegativeClose(a: Analysis) {
    forall id :: id in a.assets ==> a.assets[id].close >= 0.0
  }

  /** What is not short and not priced below zero has a non-negative current weight. */
  lemma CurrentWeightNonNegative(num: Decimals, p: PortfolioState, a: Analysis, id: AssetId)
    requires num.Exact() && p.snapshot.nav > 0.0 && NothingShort(p) && CurrentWeights(num, p, a).Success?
    requires id in a.assets ==> a.assets[id].close >= 0.0
    ensures GetOr(CurrentWeights(num, p, a).value, id, 0.0) >= 0.0
  {
    var w := CurrentWeights(num, p, a).value;
    if id in w {
      assert w[id] == num.div(num.mul(p.positions[id].quantity, a.assets[id].close), p.snapshot.nav);
      NonNegativeQuotient(p.positions[id].quantity, a.assets[id].close, p.snapshot.nav);
    }
  }

  lemma CurrentWeightsNonNegative(num: Decimals, p: PortfolioState, a: Analysis)
    requires num.Exact() && p.snapshot.nav > 0.0 && NothingShort(p) && NoNegativeClose(a)
             && CurrentWeights(num, p, a).Success?
    ensures forall id :: id in CurrentWeights(num, p, a).value ==> CurrentWeights(num, p, a).value[id] >= 0.0
  {
    var w := CurrentWeights(num, p, a).value;
    hide CurrentWeights;
    forall id | id in w
      ensures w[id] >= 0.0
    {
      CurrentWeightNonNegative(num, p, a, id);
    }
  }

  lemma NonNegativeQuotient(q: real, price: real, nav: real)
    requires q >= 0.0 && price >= 0.0 && nav > 0.0
    ensures q * price >= 0.0 && (q * price) / nav >= 0.0
  {
    assert q * price >= 0.0;
  }

  lemma DesiredNonNegative(num: Decimals, p: PortfolioState, a: Analysis, current: map<AssetId, real>)
    requires DistinctMembers(p.members) && CapsAreFractions(p.members)
    requires forall id :: id in current ==> current[id] >= 0.0
    ensures NonNegative(DesiredUpTo(p.members, a, current, |p.members|))
  {
    DesiredFacts(p.members, a, current, |p.members|);
  }

  /** On a day with positive NAV the generated weights are sound: in [0, 1], summing to exactly 1. */
  lemma GeneratedWeightsSound(num: Decimals, a: Analysis, p: PortfolioState)
    requires num.Exact() && DistinctMembers(p.members) && CapsAreFractions(p.members) && NoCashMember(p)
    requires p.snapshot.nav > 0.0 && NothingShort(p) && NoNegativeClose(a) && GenerateTargets(num, a, p).Success?
    ensures var t := GenerateTargets(num, a, p).value.targetWeights;
            && SumItems(num, t) == 1.0
            && forall i :: 0 <= i < |t| ==> 0.0 <= t[i].1 <= 1.0
  {
    var current := CurrentWeights(num, p, a).value;
    var d := DesiredUpTo(p.members, a, current, |p.members|);
    CurrentWeightsNonNegative(num, p, a);
    DesiredFacts(p.members, a, current, |p.members|);
    DesiredNonNegative(num, p, a, current);
    assert !HasKey(d, CashId(p.baseCurrency));
    TargetsSoundIff(num, d, p.baseCurrency);
  }

  /** Generation fails only for want of a price or of a NAV. */
  lemma GenerationSucceedsIff(num: Decimals, a: Analysis, p: PortfolioState)
    requires num.Exact() && DistinctMembers(p.members) && NoCashMember(p)
    ensures GenerateTargets(num, a, p).Success? <==>
            (HeldAssets(p) == {} || (p.snapshot.nav != 0.0 && HeldAssets(p) <= a.assets.Keys))
  {
    if CurrentWeights(num, p, a).Success? {
      var d := DesiredUpTo(p.members, a, CurrentWeights(num, p, a).value, |p.members|);
      DesiredFacts(p.members, a, CurrentWeights(num, p, a).value, |p.members|);
      assert !HasKey(d, CashId(p.baseCurrency));
      TargetsSoundIff(num, d, p.baseCurrency);
    }
  }

  /** A member's target lies between 0 and its desired weight, if it is not priced below zero. */
  lemma MemberTarget(num: Decimals, a: Analysis, p: PortfolioState, k: nat)
    requires num.Exact() && DistinctMembers(p.members) && CapsAreFractions(p.members) && NoCashMember(p)
    requires p.snapshot.nav > 0.0 && NothingShort(p) && GenerateTargets(num, a, p).Success?
    requires k < |p.members| && (p.members[k].assetId in a.assets ==> a.assets[p.members[k].assetId].close >= 0.0)
    ensures var m := p.members[k];
            var current := GetOr(CurrentWeights(num, p, a).value, m.assetId, 0.0);
            && current >= 0.0
            && 0.0 <= ItemOr(GenerateTargets(num, a, p).value.targetWeights, m.assetId, 0.0)
                   <= DesiredWeight(m, AnalysisOf(a, m.assetId), current)
  {
    var id := p.members[k].assetId;
    var current := CurrentWeights(num, p, a).value;
    var d := DesiredUpTo(p.members, a, current, |p.members|);
    CurrentWeightNonNegative(num, p, a, id);
    DesiredFacts(p.members, a, current, |p.members|);
    assert !HasKey(d, CashId(p.baseCurrency));
    assert d[k].0 == id;
    ItemAt(d, k, 0.0);
    hide DesiredUpTo, BuildTargetWeights, CurrentWeights;
    TargetAtMostDesired(num, d, p.baseCurrency, id);
  }

  /** Whatever its caps and prices elsewhere, the strategy never targets a negative weight for an asset that is not
      priced below zero. */
  lemma TargetNonNegative(num: Decimals, a: Analysis, p: PortfolioState, id: AssetId)
    requires num.Exact() && DistinctMembers(p.members) && CapsAreFractions(p.members) && NoCashMember(p)
    requires p.snapshot.nav > 0.0 && NothingShort(p) && GenerateTargets(num, a, p).Success?
    requires id in a.assets ==> a.assets[id].close >= 0.0
    ensures ItemOr(GenerateTargets(num, a, p).value.targetWeights, id, 0.0) >= 0.0
  {
    if k: nat :| k < |p.members| && p.members[k].assetId == id {
      MemberTarget(num, a, p, k);
    } else {
      var current := CurrentWeights(num, p, a).value;
      var d := DesiredUpTo(p.members, a, current, |p.members|);
      DesiredFacts(p.members, a, current, |p.members|);
      assert !HasKey(d, id) && !HasKey(d, CashId(p.baseCurrency));
      ItemAbsent(d, id, 0.0);
      hide DesiredUpTo, CurrentWeights;
      if id == CashId(p.baseCurrency) {
        BuiltTargets(num, d, p.baseCurrency);
        hide BuildTargetWeights, AssetWeights;
      } else {
        hide BuildTargetWeights;
        TargetAtMostDesired(num, d, p.baseCurrency, id);
      }
    }
  }

  /** A member that must not be bought (restricted, blacklisted, or short of history) is never
      targeted above its current weight, whatever the scaling. */
  lemma NoNewExposure(num: Decimals, a: Analysis, p: PortfolioState, k: nat)
    requires num.Exact() && DistinctMembers(p.members) && CapsAreFractions(p.members) && NoCashMember(p)
    requires p.snapshot.nav > 0.0 && NothingShort(p) && GenerateTargets(num, a, p).Success?
    requires k < |p.members| && (p.members[k].assetId in a.assets ==> a.assets[p.members[k].assetId].close >= 0.0)
    requires Frozen(p.members[k], AnalysisOf(a, p.members[k].assetId))
             || !SufficientHistory(AnalysisOf(a, p.members[k].assetId))
    ensures var id := p.members[k].assetId;
            0.0 <= ItemOr(GenerateTargets(num, a, p).value.targetWeights, id, 0.0)
                <= GetOr(CurrentWeights(num, p, a).value, id, 0.0)
  {
    hide GenerateTargets, CurrentWeights;
    MemberTarget(num, a, p, k);
  }

  lemma GeneratedFromCurrent(num: Decimals, a: Analysis, p: PortfolioState)
    requires GenerateTargets(num, a, p).Success?
    ensures CurrentWeights(num, p, a).Success?
  {
    hide CurrentWeights, BuildTargetWeights;
  }

  lemma WeightBelowCurrent(weight: real, held: real, price: real, nav: real)
    requires nav > 0.0 && weight <= (held * price) / nav
    ensures weight * nav <= held * price
  {
    var current := (held * price) / nav;
    assert current * nav == held * price;
    assert (current - weight) * nav >= 0.0;
    assert (current - weight) * nav == current * nav - weight * nav;
  }

  lemma CurrentWeightOf(num: Decimals, p: PortfolioState, a: Analysis, id: AssetId)
    requires num.Exact() && id in p.positions && id in a.assets && p.snapshot.nav > 0.0
             && CurrentWeights(num, p, a).Success?
    ensures GetOr(CurrentWeights(num, p, a).value, id, 0.0)
         == (p.positions[id].quantity * a.assets[id].close) / p.snapshot.nav
  {
    var w := CurrentWeights(num, p, a).value;
    if p.positions[id].quantity == 0.0 {
      assert 0.0 * a.assets[id].close == 0.0;
      assert 0.0 / p.snapshot.nav == 0.0;
      assert id !in w;
    } else {
      assert id in HeldAssets(p);
      assert w[id] == num.div(num.mul(p.positions[id].quantity, a.assets[id].close), p.snapshot.nav);
    }
  }

  /** A member that must not be bought is never targeted above the value of what is held. */
  lemma NoTargetAboveHolding(num: Decimals, a: Analysis, p: PortfolioState, k: nat)
    requires num.Exact() && DistinctMembers(p.members) && CapsAreFractions(p.members) && NoCashMember(p)
    requires p.snapshot.nav > 0.0 && NothingShort(p) && GenerateTargets(num, a, p).Success?
    requires k < |p.members| && p.members[k].assetId in p.positions && p.members[k].assetId in a.assets
    requires a.assets[p.members[k].assetId].close >= 0.0
    requires Frozen(p.members[k], AnalysisOf(a, p.members[k].assetId))
             || !SufficientHistory(AnalysisOf(a, p.members[k].assetId))
    ensures var id := p.members[k].assetId;
            ItemOr(GenerateTargets(num, a, p).value.targetWeights, id, 0.0) * p.snapshot.nav
            <= p.positions[id].quantity * a.assets[id].close
  {
    hide GenerateTargets, CurrentWeights, Decimals.Exact, DistinctMembers, CapsAreFractions, NoCashMember,
         NothingShort, Frozen, SufficientHistory, AnalysisOf, ItemOr, GetOr;
    GeneratedFromCurrent(num, a, p);
    NoNewExposure(num, a, p, k);
    var id := p.members[k].assetId;
    CurrentWeightOf(num, p, a, id);
    var weight := ItemOr(GenerateTargets(num, a, p).value.targetWeights, id, 0.0);
    WeightBelowCurrent(weight, p.positions[id].quantity, a.assets[id].close, p.snapshot.nav);
  }
}
