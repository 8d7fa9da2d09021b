/** The rule-based strategy (backend/domain/strategies/simple_rule_strategy.py). */
module Strategy {
  import opened Common
  import opened Domain

  const BUY_THRESHOLD: real := 2.0
  const SELL_THRESHOLD: real := -2.0
  const RSI_OVERBOUGHT: real := 70.0
  const BREAKDOWN_THRESHOLD: real := 0.05
  const DEFAULT_MAX_ASSET_WEIGHT: real := 0.20

  // ----- Current weights -----

  function HeldAssets(p: PortfolioState): set<AssetId> {
    set id | id in p.positions && p.positions[id].quantity != 0.0
  }

  /** Market value over NAV of every nonzero position; a missing price or a zero NAV raises. */
  function CurrentWeights(num: Decimals, p: PortfolioState, a: Analysis): Result<map<AssetId, real>> {
    if HeldAssets(p) == {} then Success(map[])
    else if p.snapshot.nav == 0.0 || !(HeldAssets(p) <= a.assets.Keys) then Failure(MissingPriceData)
    else Success(map id | id in HeldAssets(p) ::
                 num.div(num.mul(p.positions[id].quantity, a.assets[id].close), p.snapshot.nav))
  }

  /** `_current_weights`, looping over the positions. */
  method ComputeCurrentWeights(num: Decimals, p: PortfolioState, a: Analysis) returns (r: Result<map<AssetId, real>>)
    ensures r == CurrentWeights(num, p, a)
  {
    var nonzero := set id | id in p.positions && p.positions[id].quantity != 0.0;
    assert nonzero == HeldAssets(p);
    if p.snapshot.nav == 0.0 {
      if nonzero != {} {
        return Failure(MissingPriceData);
      }
      return Success(map[]);
    }
    var weights: map<AssetId, real> := map[];
    var todo := nonzero;
    while todo != {}
      invariant todo <= nonzero
      invariant nonzero - todo <= a.assets.Keys
      invariant weights == map id | id in nonzero - todo ::
                             num.div(num.mul(p.positions[id].quantity, a.assets[id].close), p.snapshot.nav)
      decreases todo
    {
      var id :| id in todo;
      if id !in a.assets {
        return Failure(MissingPriceData);
      }
      weights := weights[id := num.div(num.mul(p.positions[id].quantity, a.assets[id].close), p.snapshot.nav)];
      todo := todo - {id};
    }
    assert nonzero - todo == nonzero;
    return Success(weights);
  }

  // ----- Scores -----

  function Sign(x: real): real {
    if x > 0.0 then 1.0 else if x < 0.0 then -1.0 else 0.0
  }

  function SignVersus(x: real, reference: Option<real>): real {
    if reference.None? then 0.0 else Sign(x - reference.value)
  }

  /** The six signed components of a score. */
  function Score(a: AssetAnalysis): real {
    var ind := a.indicators;
    (if ind.maTrend == Some(Up) then 1.0 else if ind.maTrend == Some(Down) then -1.0 else 0.0)
    + SignVersus(a.close, ind.ma20)
    + SignVersus(a.close, ind.ma50)
    + (if ind.rsi14.Some? && ind.rsi14.value >= RSI_OVERBOUGHT then -1.0 else 0.0)
    + (if ind.pricePosition20d.Some? && ind.pricePosition20d.value <= BREAKDOWN_THRESHOLD then -2.0 else 0.0)
    + (if ind.relativeStrength20d.Some? then Sign(ind.relativeStrength20d.value) else 0.0)
  }

  /** `_score_asset`, accumulating branch by branch. */
  method ScoreAsset(a: AssetAnalysis) returns (score: real)
    ensures score == Score(a)
    ensures -7.0 <= score <= 4.0
  {
    var ind := a.indicators;
    score := 0.0;
    if ind.maTrend == Some(Up) {
      score := score + 1.0;
    } else if ind.maTrend == Some(Down) {
      score := score - 1.0;
    }
    if ind.ma20.Some? {
      if a.close > ind.ma20.value {
        score := score + 1.0;
      } else if a.close < ind.ma20.value {
        score := score - 1.0;
      }
    }
    if ind.ma50.Some? {
      if a.close > ind.ma50.value {
        score := score + 1.0;
      } else if a.close < ind.ma50.value {
        score := score - 1.0;
      }
    }
    if ind.rsi14.Some? && ind.rsi14.value >= RSI_OVERBOUGHT {
      score := score - 1.0;
    }
    if ind.pricePosition20d.Some? && ind.pricePosition20d.value <= BREAKDOWN_THRESHOLD {
      score := score - 2.0;
    }
    if ind.relativeStrength20d.Some? {
      if ind.relativeStrength20d.value > 0.0 {
        score := score + 1.0;
      } else if ind.relativeStrength20d.value < 0.0 {
        score := score - 1.0;
      }
    }
  }

  function Points(holds: bool, points: nat): nat {
    if holds then points else 0
  }

  predicate IsAbove(x: Option<real>, reference: real) {
    x.Some? && x.value > reference
  }

  predicate IsBelow(x: Option<real>, reference: real) {
    x.Some? && x.value < reference
  }

  /** Points for an asset: rising trend, close above either average, strength against the benchmark. */
  function Bullish(a: AssetAnalysis): nat {
    var ind := a.indicators;
    Points(ind.maTrend == Some(Up), 1) + Points(IsBelow(ind.ma20, a.close), 1) + Points(IsBelow(ind.ma50, a.close), 1)
    + Points(IsAbove(ind.relativeStrength20d, 0.0), 1)
  }

  /** Points against it: the opposite signs, an RSI from 70 on, and twice for a close in the lowest twentieth of its
      20-day range. */
  function Bearish(a: AssetAnalysis): nat {
    var ind := a.indicators;
    Points(ind.maTrend == Some(Down), 1) + Points(IsAbove(ind.ma20, a.close), 1) + Points(IsAbove(ind.ma50, a.close), 1)
    + Points(IsBelow(ind.relativeStrength20d, 0.0), 1)
    + Points(ind.rsi14.Some? && !IsBelow(ind.rsi14, 70.0), 1)
    + Points(ind.pricePosition20d.Some? && !IsAbove(ind.pricePosition20d, 0.05), 2)
  }

  /** The score is the points for less the points against; so a buy needs at least two more points for the asset
      than against it, and a close near the low can be bought only on all four. */
  lemma ScoreIsBalance(a: AssetAnalysis)
    ensures Score(a) == Bullish(a) as real - Bearish(a) as real
    ensures Score(a) >= BUY_THRESHOLD ==> Bullish(a) >= Bearish(a) + 2
    ensures (Score(a) >= BUY_THRESHOLD && a.indicators.pricePosition20d.Some?
             && a.indicators.pricePosition20d.value <= BREAKDOWN_THRESHOLD) ==>
              Bullish(a) == 4
  {
  }

  // ----- Desired weights -----

  /** `_bucket_desired_weight`. */
  function BucketWeight(score: real, currentWeight: real, targetWeightMax: Option<real>): real {
    if score >= BUY_THRESHOLD then
      if targetWeightMax.Some? then targetWeightMax.value else DEFAULT_MAX_ASSET_WEIGHT
    else if score <= SELL_THRESHOLD then 0.0
    else currentWeight
  }

  predicate SufficientHistory(a: Option<AssetAnalysis>) {
    a.Some? && a.value.indicators.ma20.Some? && a.value.indicators.pricePosition20d.Some?
  }

  /** Restricted members and blacklisted assets may only be held or reduced. */
  predicate Frozen(m: Member, a: Option<AssetAnalysis>) {
    m.status.Restricted? || (a.Some? && a.value.tradingStatus.Blacklist?)
  }

  function AnalysisOf(a: Analysis, id: AssetId): Option<AssetAnalysis> {
    if id in a.assets then Some(a.assets[id]) else None
  }

  function EvaluatedScore(a: Option<AssetAnalysis>): real {
    if SufficientHistory(a) then Score(a.value) else 0.0
  }

  /** One member's weight before global scaling. */
  function DesiredWeight(m: Member, a: Option<AssetAnalysis>, currentWeight: real): real {
    var desired := if SufficientHistory(a) then BucketWeight(Score(a.value), currentWeight, m.targetWeightMax)
                   else currentWeight;
    if Frozen(m, a) && desired > currentWeight then currentWeight else desired
  }

  /** The desired weights of the first n members. */
  function DesiredUpTo(members: seq<Member>, a: Analysis, current: map<AssetId, real>, n: nat): Items<real>
    requires n <= |members|
  {
    if n == 0 then []
    else
      var m := members[n - 1];
      Put(DesiredUpTo(members, a, current, n - 1), m.assetId,
          DesiredWeight(m, AnalysisOf(a, m.assetId), GetOr(current, m.assetId, 0.0)))
  }

  function ScoresUpTo(members: seq<Member>, a: Analysis, n: nat): map<AssetId, real>
    requires n <= |members|
  {
    if n == 0 then map[]
    else ScoresUpTo(members, a, n - 1)[members[n - 1].assetId := EvaluatedScore(AnalysisOf(a, members[n - 1].assetId))]
  }

  // ----- Scaling and cash -----

  function Scaled(num: Decimals, d: Items<real>, factor: real): Items<real> {
    if d == [] then [] else Scaled(num, d[..|d| - 1], factor) + [(d[|d| - 1].0, num.mul(d[|d| - 1].1, factor))]
  }

  function Nonzero(d: Items<real>): Items<real> {
    if d == [] then []
    else if d[|d| - 1].1 != 0.0 then Nonzero(d[..|d| - 1]) + [d[|d| - 1]]
    else Nonzero(d[..|d| - 1])
  }

  function CashId(baseCurrency: Currency): AssetId {
    "cash:" + baseCurrency
  }

  /** Scale down when the desired weights exceed 1; cash is the residual. */
  function AssetWeights(num: Decimals, desired: Items<real>): Items<real> {
    var rawTotal := SumItems(num, desired);
    if rawTotal > 1.0 then Scaled(num, desired, num.div(1.0, rawTotal)) else desired
  }

  /** `_build_target_weights`, with its runtime check that the weights sum to 1. */
  function BuildTargetWeights(num: Decimals, desired: Items<real>, baseCurrency: Currency): Result<Items<real>> {
    var weights := AssetWeights(num, desired);
    var cash := num.Sub(1.0, SumItems(num, weights));
    var targets := Put(Nonzero(weights), CashId(baseCurrency), cash);
    if SumItems(num, targets) != 1.0 then Failure(InvalidTargetWeights) else Success(targets)
  }

  /** `generate_targets`. */
  function GenerateTargets(num: Decimals, a: Analysis, p: PortfolioState): Result<StrategyOutput> {
    var current :- CurrentWeights(num, p, a);
    var weights :- BuildTargetWeights(num, DesiredUpTo(p.members, a, current, |p.members|), p.baseCurrency);
    Success(StrategyOutput(ScoresUpTo(p.members, a, |p.members|), weights))
  }

  /** `generate_targets`, looping over the members. */
  method ComputeTargets(num: Decimals, a: Analysis, p: PortfolioState) returns (r: Result<StrategyOutput>)
    ensures r == GenerateTargets(num, a, p)
  {
    hide Score, BuildTargetWeights, CurrentWeights, BucketWeight;
    var weighed := ComputeCurrentWeights(num, p, a);
    if weighed.Failure? {
      return Failure(weighed.error);
    }
    var current := weighed.value;
    var desired: Items<real> := [];
    var scores: map<AssetId, real> := map[];
    for i := 0 to |p.members|
      invariant desired == DesiredUpTo(p.members, a, current, i)
      invariant scores == ScoresUpTo(p.members, a, i)
    {
      var m := p.members[i];
      var currentWeight := GetOr(current, m.assetId, 0.0);
      var analysis := AnalysisOf(a, m.assetId);
      var score, weight := 0.0, currentWeight;
      if SufficientHistory(analysis) {
        score := ScoreAsset(analysis.value);
        weight := BucketWeight(score, currentWeight, m.targetWeightMax);
      }
      if Frozen(m, analysis) && weight > currentWeight {
        weight := currentWeight;
      }
      scores := scores[m.assetId := score];
      desired := Put(desired, m.assetId, weight);
    }
    var weights :- BuildTargetWeights(num, desired, p.baseCurrency);
    return Success(StrategyOutput(scores, weights));
  }

  // ----- What the weights are -----

  predicate NonNegative(d: Items<real>) {
    forall i :: 0 <= i < |d| ==> d[i].1 >= 0.0
  }

  lemma {:induction false} NonNegativeSum(num: Decimals, d: Items<real>)
    requires num.Exact() && NonNegative(d)
    ensures SumItems(num, d) >= 0.0
    ensures forall i :: 0 <= i < |d| ==> d[i].1 <= SumItems(num, d)
  {
    if d != [] {
      NonNegativeSum(num, d[..|d| - 1]);
    }
  }

  lemma {:induction false} NonzeroSum(num: Decimals, d: Items<real>)
    requires num.Exact()
    ensures SumItems(num, Nonzero(d)) == SumItems(num, d)
  {
    if d != [] {
      var n := |d| - 1;
      NonzeroSum(num, d[..n]);
      assert (Nonzero(d[..n]) + [d[n]])[..|Nonzero(d[..n])|] == Nonzero(d[..n]);
    }
  }

  /** Dropping zero items changes neither keys nor lookups of the others. */
  lemma {:induction false} NonzeroLookup(d: Items<real>, k: AssetId)
    requires DistinctKeys(d)
    ensures HasKey(Nonzero(d), k) ==> HasKey(d, k)
    ensures ItemOr(Nonzero(d), k, 0.0) == ItemOr(d, k, 0.0)
    ensures forall x :: x in Nonzero(d) ==> x in d
  {
    if d != [] {
      var n := |d| - 1;
      NonzeroLookup(d[..n], k);
      var before := Nonzero(d[..n]);
      assert (before + [d[n]])[..|before|] == before;
      if d[n].0 == k {
        assert !HasKey(d[..n], k);
        ItemAbsent(before, k, 0.0);
      }
      forall x | x in Nonzero(d)
        ensures x in d
      {
        if x !in before {
          assert x == d[n];
        }
      }
    }
    assert forall x :: x in Nonzero(d) ==> x in d;
    if HasKey(Nonzero(d), k) {
      var i :| 0 <= i < |Nonzero(d)| && Nonzero(d)[i].0 == k;
      assert Nonzero(d)[i] in d;
      var j :| 0 <= j < |d| && d[j] == Nonzero(d)[i];
      assert d[j].0 == k;
    }
  }
}
