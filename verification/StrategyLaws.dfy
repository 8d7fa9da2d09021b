/** What the rule-based strategy targets, stated in points for and against each member, without its own score, buckets
    or scaling. */
module StrategyLaws {
  import opened Common
  import opened Domain
  import opened Strategy
  import opened TargetWeights

  /** Enough history to be judged: a 20-day average and a place in the 20-day range. */
  predicate Known(a: Option<AssetAnalysis>) {
    a.Some? && a.value.indicators.ma20.Some? && a.value.indicators.pricePosition20d.Some?
  }

  /** May only be held or reduced. */
  predicate Locked(m: Member, a: Option<AssetAnalysis>) {
    m.status == Restricted || (a.Some? && a.value.tradingStatus == Blacklist)
  }

  /** The weight a buy asks for: the member's cap, or a fifth. */
  function Cap(m: Member): real {
    if m.targetWeightMax.Some? then m.targetWeightMax.value else 0.20
  }

  /** What a member is meant to weigh: nothing with two points more against it than for it, its cap with two more for
      it, and otherwise what it weighs; but a locked one never more than it weighs. */
  function Meant(m: Member, a: Option<AssetAnalysis>, held: real): real {
    var wanted :=
      if Known(a) && Bearish(a.value) >= Bullish(a.value) + 2 then 0.0
      else if Known(a) && Bullish(a.value) >= Bearish(a.value) + 2 then Cap(m)
      else held;
    if Locked(m, a) then Min(wanted, held) else wanted
  }

  /** The desired weight is the meant one, in any arithmetic. */
  lemma DesiredIsMeant(m: Member, a: Option<AssetAnalysis>, held: real)
    ensures DesiredWeight(m, a, held) == Meant(m, a, held)
  {
    if a.Some? {
      ScoreIsBalance(a.value);
      hide Score, Bullish, Bearish;
      var balance := Bullish(a.value) as int - Bearish(a.value) as int;
      assert Score(a.value) == balance as real;
      assert balance >= 2 <==> balance as real >= 2.0;
      assert balance <= -2 <==> balance as real <= -2.0;
    }
  }

  function Seen(a: Analysis, id: AssetId): Option<AssetAnalysis> {
    if id in a.assets then Some(a.assets[id]) else None
  }

  /** What an asset weighs in the account: its worth at the close over the NAV. */
  function HeldWeight(a: Analysis, p: PortfolioState, id: AssetId): real {
    if id in p.positions && p.positions[id].quantity != 0.0 && id in a.assets && p.snapshot.nav != 0.0
    then Worth(p.positions[id].quantity, a.assets[id].close) / p.snapshot.nav
    else 0.0
  }

  lemma CurrentIsHeld(num: Decimals, a: Analysis, p: PortfolioState, id: AssetId)
    requires num.Exact() && CurrentWeights(num, p, a).Success?
    ensures GetOr(CurrentWeights(num, p, a).value, id, 0.0) == HeldWeight(a, p, id)
  {
    var w := CurrentWeights(num, p, a).value;
    if id in HeldAssets(p) {
      var q, close, nav := p.positions[id].quantity, a.assets[id].close, p.snapshot.nav;
      assert num.mul(q, close) == Worth(q, close);
      assert num.div(Worth(q, close), nav) == Worth(q, close) / nav;
      assert id in w && w[id] == num.div(num.mul(q, close), nav);
    } else {
      assert id !in w;
    }
  }

  /** What the k-th member is meant to weigh in this account. */
  function MeantOf(a: Analysis, p: PortfolioState, k: nat): real
    requires k < |p.members|
  {
    var m := p.members[k];
    Meant(m, Seen(a, m.assetId), HeldWeight(a, p, m.assetId))
  }

  /** What the first n members are meant to weigh together. */
  function MeantTotal(a: Analysis, p: PortfolioState, n: nat): real
    requires n <= |p.members|
  {
    if n == 0 then 0.0 else MeantTotal(a, p, n - 1) + MeantOf(a, p, n - 1)
  }

  lemma DesiredItem(num: Decimals, a: Analysis, p: PortfolioState, current: map<AssetId, real>, k: nat)
    requires num.Exact() && CurrentWeights(num, p, a) == Success(current) && k < |p.members|
    ensures var m := p.members[k];
            DesiredWeight(m, AnalysisOf(a, m.assetId), GetOr(current, m.assetId, 0.0)) == MeantOf(a, p, k)
  {
    var m := p.members[k];
    CurrentIsHeld(num, a, p, m.assetId);
    hide CurrentWeights, DesiredWeight, Meant;
    DesiredIsMeant(m, AnalysisOf(a, m.assetId), GetOr(current, m.assetId, 0.0));
  }

  lemma NextDesired(members: seq<Member>, a: Analysis, current: map<AssetId, real>, n: nat)
    requires n < |members| && DistinctMembers(members)
    ensures var m := members[n];
            DesiredUpTo(members, a, current, n + 1)
            == DesiredUpTo(members, a, current, n)
               + [(m.assetId, DesiredWeight(m, AnalysisOf(a, m.assetId), GetOr(current, m.assetId, 0.0)))]
  {
    hide DesiredWeight, Put, HasKey;
    DesiredFacts(members, a, current, n);
    var before, m := DesiredUpTo(members, a, current, n), members[n];
    NextMemberIsNew(members, before, n);
    PutFresh(before, m.assetId, DesiredWeight(m, AnalysisOf(a, m.assetId), GetOr(current, m.assetId, 0.0)));
  }

  lemma SumAppended(num: Decimals, d: Items<real>, x: (AssetId, real))
    ensures SumItems(num, d + [x]) == num.add(SumItems(num, d), x.1)
  {
    assert (d + [x])[..|d|] == d;
  }

  lemma NothingDesired(num: Decimals, members: seq<Member>, a: Analysis, current: map<AssetId, real>)
    ensures SumItems(num, DesiredUpTo(members, a, current, 0)) == 0.0
  {
  }

  lemma {:induction false} DesiredSum(num: Decimals, a: Analysis, p: PortfolioState, current: map<AssetId, real>,
                                      n: nat)
    requires num.Exact() && DistinctMembers(p.members) && CurrentWeights(num, p, a) == Success(current)
    requires n <= |p.members|
    ensures SumItems(num, DesiredUpTo(p.members, a, current, n)) == MeantTotal(a, p, n)
  {
    hide CurrentWeights, DesiredWeight, DesiredUpTo, SumItems, MeantOf, Decimals.Exact, AnalysisOf, GetOr,
         DistinctMembers;
    if n == 0 {
      NothingDesired(num, p.members, a, current);
    } else {
      DesiredSum(num, a, p, current, n - 1);
      DesiredItem(num, a, p, current, n - 1);
      NextDesired(p.members, a, current, n - 1);
      SumAppended(num, DesiredUpTo(p.members, a, current, n - 1), (p.members[n - 1].assetId, MeantOf(a, p, n - 1)));
      ExactSum(num, MeantTotal(a, p, n - 1), MeantOf(a, p, n - 1));
    }
  }

  lemma ExactSum(num: Decimals, x: real, y: real)
    requires num.Exact()
    ensures num.add(x, y) == x + y
  {
  }

  /** A weight in proportion when the total exceeds 1. */
  function InProportion(weight: real, total: real): real {
    if total > 1.0 then weight / total else weight
  }

  lemma ExactShare(num: Decimals, weight: real, total: real)
    requires num.Exact() && total > 1.0
    ensures num.mul(weight, num.div(1.0, total)) == weight / total
  {
    var f := 1.0 / total;
    assert num.div(1.0, total) == f && f * total == 1.0;
    assert weight * f * total == weight;
    SameQuotient(weight * f, weight, total);
  }

  lemma SameQuotient(x: real, y: real, total: real)
    requires total > 0.0 && x * total == y
    ensures x == y / total
  {
    var q := y / total;
    assert q * total == y;
    assert (x - q) * total == 0.0;
  }

  /** Main result: in exact arithmetic each member is targeted at what it is meant to weigh, all in proportion when
      that is more than 1 in total, and cash takes the rest; nothing else is targeted. */
  lemma TargetsAreMeant(num: Decimals, a: Analysis, p: PortfolioState, k: nat)
    requires num.Exact() && DistinctMembers(p.members) && NoCashMember(p)
    requires GenerateTargets(num, a, p).Success? && k < |p.members|
    ensures var w, total := GenerateTargets(num, a, p).value.targetWeights, MeantTotal(a, p, |p.members|);
            && ItemOr(w, p.members[k].assetId, 0.0) == InProportion(MeantOf(a, p, k), total)
            && ItemOr(w, "cash:" + p.baseCurrency, 0.0) == (if total > 1.0 then 0.0 else 1.0 - total)
            && forall i :: 0 <= i < |w| ==>
                 w[i].0 == "cash:" + p.baseCurrency || exists j ::
                   0 <= j < |p.members| && p.members[j].assetId == w[i].0
  {
    var current := CurrentWeights(num, p, a).value;
    var d := DesiredUpTo(p.members, a, current, |p.members|);
    DesiredFacts(p.members, a, current, |p.members|);
    DesiredSum(num, a, p, current, |p.members|);
    DesiredItem(num, a, p, current, k);
    assert !HasKey(d, CashId(p.baseCurrency));
    assert d[k].0 == p.members[k].assetId && d[k].1 == MeantOf(a, p, k);
    hide CurrentWeights, DesiredUpTo, BuildTargetWeights, MeantOf, MeantTotal;
    BuiltInProportion(num, d, p.baseCurrency, k);
    var w := GenerateTargets(num, a, p).value.targetWeights;
    forall i | 0 <= i < |w| && w[i].0 != CashId(p.baseCurrency)
      ensures exists j :: 0 <= j < |p.members| && p.members[j].assetId == w[i].0
    {
      assert HasKey(d, w[i].0);
      var j :| 0 <= j < |d| && d[j].0 == w[i].0;
      assert p.members[j].assetId == w[i].0;
    }
  }

  /** The weights before cash. */
  lemma ScaledInProportion(num: Decimals, d: Items<real>, k: nat)
    requires num.Exact() && k < |d|
    ensures var weights, total := AssetWeights(num, d), SumItems(num, d);
            && |weights| == |d| && weights[k] == (d[k].0, InProportion(d[k].1, total))
            && SumItems(num, weights) == (if total > 1.0 then 1.0 else total)
  {
    AssetWeightsFacts(num, d);
    var total := SumItems(num, d);
    if total > 1.0 {
      ScaledFacts(num, d, num.div(1.0, total));
      ExactShare(num, d[k].1, total);
    }
    hide Decimals.Exact, SumItems, Scaled;
  }

  /** Only desired assets and cash are targeted. */
  lemma BuiltKeys(num: Decimals, d: Items<real>, currency: Currency, i: nat)
    requires num.Exact() && DistinctKeys(d) && !HasKey(d, CashId(currency))
    requires BuildTargetWeights(num, d, currency).Success? && i < |BuildTargetWeights(num, d, currency).value|
    ensures var key := BuildTargetWeights(num, d, currency).value[i].0;
            key == CashId(currency) || HasKey(d, key)
  {
    BuiltTargets(num, d, currency);
    var weights, w := AssetWeights(num, d), BuildTargetWeights(num, d, currency).value;
    hide BuildTargetWeights, SumItems;
    if i < |Nonzero(weights)| {
      assert w[i] == Nonzero(weights)[i];
      AssetWeightsFacts(num, d);
      hide AssetWeights, Decimals.Exact;
      SameKeysLookup(d, weights, w[i].0);
      NonzeroLookup(weights, w[i].0);
      assert w[i] in Nonzero(weights);
      var j :| 0 <= j < |weights| && weights[j] == w[i];
    }
  }

  /** The building of weights from desired ones. */
  lemma BuiltInProportion(num: Decimals, d: Items<real>, currency: Currency, k: nat)
    requires num.Exact() && DistinctKeys(d) && !HasKey(d, CashId(currency)) && k < |d|
    ensures BuildTargetWeights(num, d, currency).Success?
    ensures var w, total := BuildTargetWeights(num, d, currency).value, SumItems(num, d);
            && ItemOr(w, d[k].0, 0.0) == InProportion(d[k].1, total)
            && ItemOr(w, CashId(currency), 0.0) == (if total > 1.0 then 0.0 else 1.0 - total)
            && forall i :: 0 <= i < |w| ==> w[i].0 == CashId(currency) || HasKey(d, w[i].0)
  {
    BuiltTargets(num, d, currency);
    hide AssetWeights, BuildTargetWeights, Decimals.Exact, SumItems, DistinctKeys, Nonzero, ItemOr;
    var weights := AssetWeights(num, d);
    ScaledInProportion(num, d, k);
    AssetKeys(num, d, currency);
    ItemAt(weights, k, 0.0);
    assert HasKey(d, d[k].0);
    AppendedLookup(weights, CashId(currency), 1.0 - SumItems(num, weights), d[k].0);
    forall i | 0 <= i < |BuildTargetWeights(num, d, currency).value|
      ensures var key := BuildTargetWeights(num, d, currency).value[i].0;
              key == CashId(currency) || HasKey(d, key)
    {
      BuiltKeys(num, d, currency, i);
    }
  }

  lemma AssetKeys(num: Decimals, d: Items<real>, currency: Currency)
    requires num.Exact() && DistinctKeys(d) && !HasKey(d, CashId(currency))
    ensures DistinctKeys(AssetWeights(num, d)) && !HasKey(AssetWeights(num, d), CashId(currency))
  {
    AssetWeightsFacts(num, d);
    hide AssetWeights, SumItems;
    SameKeysLookup(d, AssetWeights(num, d), CashId(currency));
  }

  lemma AppendedLookup(d: Items<real>, key: AssetId, value: real, id: AssetId)
    requires DistinctKeys(d) && !HasKey(d, key) && id != key
    ensures ItemOr(Nonzero(d) + [(key, value)], id, 0.0) == ItemOr(d, id, 0.0)
    ensures ItemOr(Nonzero(d) + [(key, value)], key, 0.0) == value
  {
    var t := Nonzero(d) + [(key, value)];
    assert t[..|t| - 1] == Nonzero(d);
    NonzeroLookup(d, id);
  }

  // ----- Scores -----

  lemma {:induction false} ScoresAreBalances(p: PortfolioState, a: Analysis, n: nat, k: nat)
    requires k < n <= |p.members| && DistinctMembers(p.members)
    ensures var s, seen := ScoresUpTo(p.members, a, n), Seen(a, p.members[k].assetId);
            && p.members[k].assetId in s
            && s[p.members[k].assetId]
               == if Known(seen) then Bullish(seen.value) as real - Bearish(seen.value) as real else 0.0
    decreases n
  {
    hide Score, Bullish, Bearish;
    if k < n - 1 {
      ScoresAreBalances(p, a, n - 1, k);
    } else if Known(Seen(a, p.members[k].assetId)) {
      ScoreIsBalance(a.assets[p.members[k].assetId]);
    }
  }

  /** A member's reported score is the balance of its points, or zero without enough history. */
  lemma ReportedScore(num: Decimals, a: Analysis, p: PortfolioState, k: nat)
    requires DistinctMembers(p.members) && GenerateTargets(num, a, p).Success? && k < |p.members|
    ensures var scores, seen := GenerateTargets(num, a, p).value.scores, Seen(a, p.members[k].assetId);
            && p.members[k].assetId in scores
            && scores[p.members[k].assetId]
               == if Known(seen) then Bullish(seen.value) as real - Bearish(seen.value) as real else 0.0
  {
    hide Bullish, Bearish, CurrentWeights, BuildTargetWeights;
    ScoresAreBalances(p, a, |p.members|, k);
  }
}
