/** Return and drawdown of a snapshot series (backend/domain/valuation/performance.py). */
module Performance {
  import opened Common
  import opened Domain
  import Engine
  import RunFacts

  /** The fractional change from a peak to a later NAV. */
  function Drop(num: Decimals, nav: real, peak: real): real {
    num.Sub(num.div(nav, peak), 1.0)
  }

  /** What rounding must keep for drawdowns to make sense: measured from a higher peak a drop is no smaller,
      and falling from a peak to a non-negative NAV loses between nothing and everything. */
  ghost predicate SaneDrops(num: Decimals) {
    && (forall nav, peak, higher :: nav >= 0.0 && 0.0 < peak <= higher ==>
        Drop(num, nav, higher) <= Drop(num, nav, peak))
    && (forall nav, peak :: nav >= 0.0 && 0.0 < peak ==>
          Drop(num, nav, peak) >= -1.0 && (nav <= peak ==> Drop(num, nav, peak) <= 0.0))
  }

  lemma DropBound(num: Decimals, nav: real, peak: real)
    requires SaneDrops(num) && nav >= 0.0 && peak > 0.0
    ensures num.Sub(num.div(nav, peak), 1.0) == Drop(num, nav, peak) >= -1.0
  {
  }

  lemma ExactDrop(num: Decimals, nav: real, peak: real)
    requires num.Exact() && nav >= 0.0 && peak > 0.0
    ensures Drop(num, nav, peak) == nav / peak - 1.0
    ensures Drop(num, nav, peak) >= -1.0 && (nav <= peak ==> Drop(num, nav, peak) <= 0.0)
  {
    var q := nav / peak;
    assert num.div(nav, peak) == q && num.add(q, -1.0) == q + -1.0;
    assert q * peak == nav;
  }

  lemma HigherPeakDeeperDrop(nav: real, peak: real, higher: real)
    requires nav >= 0.0 && 0.0 < peak <= higher
    ensures nav / higher <= nav / peak
  {
    var p, q := nav / peak, nav / higher;
    assert p * peak == nav && q * higher == nav;
    if q > p {
      LargerProduct(p, q, peak, higher);
    }
  }

  lemma LargerProduct(p: real, q: real, x: real, y: real)
    requires 0.0 <= p < q && 0.0 < x <= y
    ensures p * x < q * y
  {
    assert p * x <= p * y;
    assert p * y < q * y;
  }

  /** Exact arithmetic has sane drops. */
  lemma ExactIsSane(num: Decimals)
    requires num.Exact()
    ensures SaneDrops(num)
  {
    forall nav, peak, higher | nav >= 0.0 && 0.0 < peak <= higher
      ensures Drop(num, nav, higher) <= Drop(num, nav, peak)
    {
      ExactDrop(num, nav, peak);
      ExactDrop(num, nav, higher);
      HigherPeakDeeperDrop(nav, peak, higher);
    }
    forall nav, peak | nav >= 0.0 && 0.0 < peak
      ensures Drop(num, nav, peak) >= -1.0 && (nav <= peak ==> Drop(num, nav, peak) <= 0.0)
    {
      ExactDrop(num, nav, peak);
    }
  }

  predicate NoNegative(navs: seq<real>) {
    forall i :: 0 <= i < |navs| ==> navs[i] >= 0.0
  }

  /** No rise or fall between two moments of the series, from a positive NAV on, is below `worst`. */
  ghost predicate BelowAllDrops(num: Decimals, navs: seq<real>, worst: real) {
    forall i, j :: 0 <= i <= j < |navs| && navs[i] > 0.0 ==> worst <= Drop(num, navs[j], navs[i])
  }

  ghost predicate SomeDrop(num: Decimals, navs: seq<real>, worst: real) {
    exists i, j :: 0 <= i <= j < |navs| && navs[i] > 0.0 && worst == Drop(num, navs[j], navs[i])
  }

  /** The quadratic definition: the least of zero and every drop from an earlier, positive NAV to a later one. */
  ghost predicate IsMaxDrawdown(num: Decimals, navs: seq<real>, worst: real) {
    worst <= 0.0 && BelowAllDrops(num, navs, worst) && (worst == 0.0 || SomeDrop(num, navs, worst))
  }

  /** The quadratic definition determines the drawdown. */
  lemma MaxDrawdownIsUnique(num: Decimals, navs: seq<real>, x: real, y: real)
    requires IsMaxDrawdown(num, navs, x) && IsMaxDrawdown(num, navs, y)
    ensures x == y
  {
  }

  /** `peak` is the highest of the first n NAVs. */
  ghost predicate IsPeak(navs: seq<real>, n: nat, peak: real)
    requires n <= |navs|
  {
    (exists i :: 0 <= i < n && navs[i] == peak) && forall i :: 0 <= i < n ==> navs[i] <= peak
  }

  lemma StepKeepsDrawdown(num: Decimals, navs: seq<real>, n: nat, peak: real, worst: real)
    requires SaneDrops(num) && n < |navs| && NoNegative(navs[..n + 1])
    requires IsMaxDrawdown(num, navs[..n], worst) && IsPeak(navs, n + 1, peak)
    ensures var drop := Drop(num, navs[n], peak);
            IsMaxDrawdown(num, navs[..n + 1], if peak == 0.0 then worst else if drop < worst then drop else worst)
  {
    var before, now := navs[..n], navs[..n + 1];
    var drop := Drop(num, navs[n], peak);
    var result := if peak == 0.0 then worst else if drop < worst then drop else worst;
    hide Drop;
    assert now[n] == navs[n];
    forall i, j | 0 <= i <= j < n + 1 && now[i] > 0.0
      ensures result <= Drop(num, now[j], now[i])
    {
      if j < n {
        assert before[i] == now[i] && before[j] == now[j];
        assert worst <= Drop(num, before[j], before[i]);
      } else {
        assert now[i] == navs[i] <= peak;
        assert Drop(num, navs[n], peak) <= Drop(num, navs[n], navs[i]);
      }
    }
    if result != 0.0 {
      if result == worst {
        var i, j :| 0 <= i <= j < n && before[i] > 0.0 && worst == Drop(num, before[j], before[i]);
        assert now[i] == before[i] && now[j] == before[j];
      } else {
        var i :| 0 <= i < n + 1 && navs[i] == peak;
        assert now[i] == peak && result == Drop(num, now[n], now[i]);
      }
    }
  }

  lemma NoDrawdownYet(num: Decimals)
    ensures NoNegative([]) && IsMaxDrawdown(num, [], 0.0)
  {
  }

  lemma NextPeak(navs: seq<real>, k: nat, peak: Option<real>)
    requires k < |navs| && (peak.Some? ==> IsPeak(navs, k, peak.value)) && (peak.None? ==> k == 0)
    ensures IsPeak(navs, k + 1, if peak.None? || navs[k] > peak.value then navs[k] else peak.value)
  {
    assert navs[k] == navs[k];
  }

  lemma NextNotNegative(navs: seq<real>, k: nat)
    requires k < |navs| && NoNegative(navs[..k])
    ensures NoNegative(navs[..k + 1]) <==> navs[k] >= 0.0
    ensures navs[k] < 0.0 ==> !NoNegative(navs)
  {
    assert navs[..k + 1][k] == navs[k];
  }

  lemma PeakIsPositive(navs: seq<real>, k: nat, peak: real)
    requires k < |navs| && NoNegative(navs[..k + 1]) && IsPeak(navs, k + 1, peak)
    ensures peak >= navs[k] >= 0.0
  {
    assert navs[..k + 1][k] == navs[k];
  }

  /** `_max_drawdown`: one pass with a running peak meets the quadratic definition, and lies in [-1, 0]. */
  method MaxDrawdown(num: Decimals, navs: seq<real>) returns (r: Result<real>)
    requires SaneDrops(num)
    ensures r.Failure? <==> !NoNegative(navs)
    ensures r.Success? ==> IsMaxDrawdown(num, navs, r.value) && -1.0 <= r.value <= 0.0
  {
    hide NoNegative, IsMaxDrawdown, IsPeak, SaneDrops, Drop;
    var runningPeak: Option<real> := None;
    var worst := 0.0;
    NoDrawdownYet(num);
    for k := 0 to |navs|
      invariant NoNegative(navs[..k])
      invariant runningPeak == None <==> k == 0
      invariant runningPeak.Some? ==> IsPeak(navs, k, runningPeak.value)
      invariant IsMaxDrawdown(num, navs[..k], worst) && worst >= -1.0
    {
      var nav := navs[k];
      NextNotNegative(navs, k);
      NextPeak(navs, k, runningPeak);
      if nav < 0.0 {
        return Failure(ValueError);
      }
      if runningPeak.None? || nav > runningPeak.value {
        runningPeak := Some(nav);
      }
      StepKeepsDrawdown(num, navs, k, runningPeak.value, worst);
      if runningPeak.value == 0.0 {
        continue;
      }
      var drawdown := num.Sub(num.div(nav, runningPeak.value), 1.0);
      PeakIsPositive(navs, k, runningPeak.value);
      DropBound(num, nav, runningPeak.value);
      if drawdown < worst {
        worst := drawdown;
      }
    }
    assert navs[..|navs|] == navs;
    return Success(worst);
  }

  /** `_total_return`. */
  function TotalReturn(num: Decimals, navs: seq<real>): Option<real>
    requires navs != []
  {
    if navs[0] == 0.0 then None else Some(num.Sub(num.div(navs[|navs| - 1], navs[0]), 1.0))
  }

  /** The return is what leads from the first NAV to the last, and there is none from zero. */
  lemma ReturnMeans(num: Decimals, navs: seq<real>)
    requires num.Exact() && navs != []
    ensures TotalReturn(num, navs).None? <==> navs[0] == 0.0
    ensures TotalReturn(num, navs).Some? ==> (1.0 + TotalReturn(num, navs).value) * navs[0] == navs[|navs| - 1]
  {
    if navs[0] != 0.0 {
      var q := navs[|navs| - 1] / navs[0];
      assert q * navs[0] == navs[|navs| - 1];
      assert num.div(navs[|navs| - 1], navs[0]) == q && num.Sub(q, 1.0) == q - 1.0;
    }
  }

  /** The total return is never below the maximum drawdown. */
  lemma ReturnAboveDrawdown(num: Decimals, navs: seq<real>, worst: real)
    requires navs != [] && NoNegative(navs) && IsMaxDrawdown(num, navs, worst)
    ensures TotalReturn(num, navs).Some? ==> worst <= TotalReturn(num, navs).value
  {
    if navs[0] != 0.0 {
      assert worst <= Drop(num, navs[|navs| - 1], navs[0]);
    }
  }

  // ----- The snapshot series -----

  /** A stored snapshot, with the portfolio it belongs to and the currency it is in. */
  datatype Stored = Stored(portfolioId: string, baseCurrency: Currency, snapshot: Snapshot)

  function Navs(snapshots: seq<Stored>): seq<real> {
    seq(|snapshots|, i requires 0 <= i < |snapshots| => snapshots[i].snapshot.nav)
  }

  predicate SortedByDate(snapshots: seq<Stored>) {
    forall i :: 0 < i < |snapshots| ==> snapshots[i - 1].snapshot.valuationDate <= snapshots[i].snapshot.valuationDate
  }

  predicate AllOf(snapshots: seq<Stored>, portfolioId: string) {
    forall i :: 0 <= i < |snapshots| ==> snapshots[i].portfolioId == portfolioId
  }

  predicate AllIn(snapshots: seq<Stored>, currency: Currency) {
    forall i :: 0 <= i < |snapshots| ==> snapshots[i].baseCurrency == currency
  }

  /** A series that can be compared: nonempty, of one portfolio, in one currency, in order, and never negative. */
  predicate Comparable(snapshots: seq<Stored>, portfolioId: string) {
    && snapshots != [] && AllOf(snapshots, portfolioId) && AllIn(snapshots, snapshots[0].baseCurrency)
    && SortedByDate(snapshots) && NoNegative(Navs(snapshots))
  }

  datatype Performance = Performance(totalReturn: Option<real>, maxDrawdown: real)

  /** `compute_performance_snapshot`. */
  method ComputePerformance(num: Decimals, portfolioId: string, snapshots: seq<Stored>) returns (r: Result<Performance>)
    requires SaneDrops(num)
    ensures r.Success? <==> Comparable(snapshots, portfolioId)
    ensures r.Success? ==>
              && IsMaxDrawdown(num, Navs(snapshots), r.value.maxDrawdown) && -1.0 <= r.value.maxDrawdown <= 0.0
              && r.value.totalReturn == TotalReturn(num, Navs(snapshots))
              && (r.value.totalReturn.Some? ==> r.value.maxDrawdown <= r.value.totalReturn.value)
  {
    if snapshots == [] {
      return Failure(ValueError);
    }
    for k := 0 to |snapshots|
      invariant AllOf(snapshots[..k], portfolioId)
    {
      if snapshots[k].portfolioId != portfolioId {
        return Failure(ValueError);
      }
    }
    var baseCurrency := snapshots[0].baseCurrency;
    for k := 0 to |snapshots|
      invariant AllIn(snapshots[..k], baseCurrency)
    {
      if snapshots[k].baseCurrency != baseCurrency {
        return Failure(ValueError);
      }
    }
    var i := 1;
    while i < |snapshots|
      invariant 1 <= i <= |snapshots| && SortedByDate(snapshots[..i])
    {
      if snapshots[i].snapshot.valuationDate < snapshots[i - 1].snapshot.valuationDate {
        return Failure(ValueError);
      }
      i := i + 1;
    }
    assert snapshots[..|snapshots|] == snapshots;
    var navs := Navs(snapshots);
    var worst :- MaxDrawdown(num, navs);
    ReturnAboveDrawdown(num, navs, worst);
    return Success(Performance(TotalReturn(num, navs), worst));
  }

  function StoredCurve(portfolioId: string, currency: Currency, curve: seq<Snapshot>): seq<Stored> {
    seq(|curve|, i requires 0 <= i < |curve| => Stored(portfolioId, currency, curve[i]))
  }

  /** A backtest's curve can always be compared, unless some NAV is negative. */
  lemma RunCurveIsAccepted(b: Engine.Backtest, n: nat, portfolioId: string)
    requires n > 0 && RunFacts.Ran(b, n)
    ensures var curve := StoredCurve(portfolioId, b.cfg.baseCurrency, RunFacts.After(b, n).equity);
            Comparable(curve, portfolioId) <==> NoNegative(Navs(curve))
  {
    RunFacts.Gapless(b, n);
  }
}
