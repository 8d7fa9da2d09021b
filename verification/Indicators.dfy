/** Rolling-window indicators (backend/backtest/indicators.py). Each indicator is given as a
    function of one day; the source's loops are proved to fill in exactly these values, and
    the value of a day is proved to depend on nothing later than that day. */
module Indicators {
  import opened Common
  import opened Domain

  const RSI_PERIOD: int := 14
  const ATR_PERIOD: int := 14
  const MEDIUM_TERM_WINDOW: int := 20

  type Bars = seq<AlignedBar>

  // ----- The indicators of one day -----

  function ReturnAt(num: Decimals, bars: Bars, i: nat): Option<real>
    requires i < |bars|
  {
    if i == 0 || bars[i - 1].close == 0.0 then None
    else Some(num.div(num.Sub(bars[i].close, bars[i - 1].close), bars[i - 1].close))
  }

  function CloseSum(num: Decimals, bars: Bars, lo: nat, hi: nat): real
    requires hi <= |bars|
  {
    if hi <= lo then 0.0 else num.add(CloseSum(num, bars, lo, hi - 1), bars[hi - 1].close)
  }

  function MovingAverageAt(num: Decimals, bars: Bars, window: int, i: nat): Option<real>
    requires window >= 1 && i < |bars|
  {
    if i + 1 < window then None else Some(num.div(CloseSum(num, bars, i - window + 1, i + 1), window as real))
  }

  function TrendOf(short: Option<real>, long: Option<real>): Option<Trend> {
    if short.None? || long.None? then None
    else if short.value > long.value then Some(Up)
    else if short.value < long.value then Some(Down)
    else Some(Flat)
  }

  /** Gains and losses of the daily changes into the days lo, ..., hi - 1. */
  function Moves(num: Decimals, bars: Bars, lo: nat, hi: nat): (real, real)
    requires 0 < lo && hi <= |bars|
  {
    if hi <= lo then (0.0, 0.0)
    else
      var (gains, losses) := Moves(num, bars, lo, hi - 1);
      var change := num.Sub(bars[hi - 1].close, bars[hi - 2].close);
      if change > 0.0 then (num.add(gains, change), losses)
      else if change < 0.0 then (gains, num.add(losses, -change))
      else (gains, losses)
  }

  function RsiFrom(num: Decimals, gains: real, losses: real, period: int): Result<real>
    requires period >= 1
  {
    var averageGain := num.div(gains, period as real);
    var averageLoss := num.div(losses, period as real);
    if averageGain == 0.0 && averageLoss == 0.0 then Success(num.mul(0.5, 100.0))
    else if averageLoss == 0.0 then Success(100.0)
    else
      var ratio := num.add(1.0, num.div(averageGain, averageLoss));
      var share :- num.Divide(100.0, ratio);
      Success(num.Sub(100.0, share))
  }

  function RsiAt(num: Decimals, bars: Bars, period: int, i: nat): Result<Option<real>>
    requires period >= 1 && i < |bars|
  {
    if i - period < 0 then Success(None)
    else
      var (gains, losses) := Moves(num, bars, i - period + 1, i + 1);
      var rsi :- RsiFrom(num, gains, losses, period);
      Success(Some(rsi))
  }

  function TrueRange(num: Decimals, bar: AlignedBar, previousClose: real): real {
    Max(Max(num.Sub(bar.high, bar.low), Abs(num.Sub(bar.high, previousClose))), Abs(num.Sub(bar.low, previousClose)))
  }

  function RangeSum(num: Decimals, bars: Bars, lo: nat, hi: nat): real
    requires 0 < lo && hi <= |bars|
  {
    if hi <= lo then 0.0
    else num.add(RangeSum(num, bars, lo, hi - 1), TrueRange(num, bars[hi - 1], bars[hi - 2].close))
  }

  function AtrAt(num: Decimals, bars: Bars, period: int, i: nat): Option<real>
    requires period >= 1 && i < |bars|
  {
    if i - period < 0 then None else Some(num.div(RangeSum(num, bars, i - period + 1, i + 1), period as real))
  }

  function VolumeChangeAt(num: Decimals, bars: Bars, i: nat): Option<real>
    requires i < |bars|
  {
    if i == 0 then None
    else if bars[i - 1].volume == 0.0 then if bars[i].volume == 0.0 then Some(0.0) else None
    else Some(num.div(num.Sub(bars[i].volume, bars[i - 1].volume), bars[i - 1].volume))
  }

  function Highest(bars: Bars, lo: nat, hi: nat): real
    requires lo < hi <= |bars|
  {
    if hi == lo + 1 then bars[lo].high else Max(Highest(bars, lo, hi - 1), bars[hi - 1].high)
  }

  function Lowest(bars: Bars, lo: nat, hi: nat): real
    requires lo < hi <= |bars|
  {
    if hi == lo + 1 then bars[lo].low else Min(Lowest(bars, lo, hi - 1), bars[hi - 1].low)
  }

  function PositionIn(num: Decimals, close: real, low: real, high: real): Result<real> {
    if high == low then Success(0.5) else num.Divide(num.Sub(close, low), num.Sub(high, low))
  }

  function PricePositionAt(num: Decimals, bars: Bars, window: int, i: nat): Result<Option<real>>
    requires window >= 1 && i < |bars|
  {
    if i + 1 < window then Success(None)
    else
      var position :- PositionIn(num, bars[i].close, Lowest(bars, i - window + 1, i + 1),
                                 Highest(bars, i - window + 1, i + 1));
      Success(Some(position))
  }

  function RelativeStrengthAt(num: Decimals, asset: Bars, benchmark: Bars, window: int, i: nat): Option<real>
    requires window >= 1 && i < |asset| == |benchmark|
  {
    if i - window < 0 then None
    else
      var assetAnchor, benchmarkAnchor := asset[i - window].close, benchmark[i - window].close;
      if assetAnchor == 0.0 || benchmarkAnchor == 0.0 then None
      else Some(num.Sub(num.div(num.Sub(asset[i].close, assetAnchor), assetAnchor),
                        num.div(num.Sub(benchmark[i].close, benchmarkAnchor), benchmarkAnchor)))
  }

  function IndicatorsAt(num: Decimals, asset: Bars, benchmark: Bars, i: nat): Result<IndicatorBar>
    requires i < |asset| == |benchmark|
  {
    var rsi :- RsiAt(num, asset, RSI_PERIOD, i);
    var position :- PricePositionAt(num, asset, MEDIUM_TERM_WINDOW, i);
    var ma5, ma20 := MovingAverageAt(num, asset, 5, i), MovingAverageAt(num, asset, 20, i);
    Success(IndicatorBar(
              asset[i].tradingDay, ReturnAt(num, asset, i), ma5, ma20, MovingAverageAt(num, asset, 50, i),
                TrendOf(ma5, ma20),
              rsi, AtrAt(num, asset, ATR_PERIOD, i), VolumeChangeAt(num, asset, i), position,
              RelativeStrengthAt(num, asset, benchmark, MEDIUM_TERM_WINDOW, i)))
  }

  // ----- The loops -----

  method ComputeDailyReturns(num: Decimals, bars: Bars) returns (r: seq<Option<real>>)
    ensures |r| == |bars| && forall i :: 0 <= i < |bars| ==> r[i] == ReturnAt(num, bars, i)
  {
    var out := new Option<real>[|bars|](_ => None);
    var i := 1;
    while i < |bars|
      invariant 1 <= i
      invariant forall k :: 0 <= k < i && k < |bars| ==> out[k] == ReturnAt(num, bars, k)
    {
      var previous := bars[i - 1].close;
      out[i] := if previous == 0.0 then None else Some(num.div(num.Sub(bars[i].close, previous), previous));
      i := i + 1;
    }
    return out[..];
  }

  method ComputeMovingAverage(num: Decimals, bars: Bars, window: int) returns (r: Result<seq<Option<real>>>)
    ensures window < 1 ==> r == Failure(ValueError)
    ensures window >= 1 ==> r.Success? && |r.value| == |bars|
                            && forall i :: 0 <= i < |bars| ==> r.value[i] == MovingAverageAt(num, bars, window, i)
  {
    if window < 1 {
      return Failure(ValueError);
    }
    var out := new Option<real>[|bars|](_ => None);
    for i := 0 to |bars|
      invariant forall k :: 0 <= k < i ==> out[k] == MovingAverageAt(num, bars, window, k)
      invariant forall k :: i <= k < |bars| ==> out[k] == None
    {
      if i + 1 < window {
        continue;
      }
      var total := 0.0;
      for j := i - window + 1 to i + 1
        invariant total == CloseSum(num, bars, i - window + 1, j)
      {
        total := num.add(total, bars[j].close);
      }
      out[i] := Some(num.div(total, window as real));
    }
    return Success(out[..]);
  }

  method ComputeMaTrend(ma5: seq<Option<real>>, ma20: seq<Option<real>>) returns (r: Result<seq<Option<Trend>>>)
    ensures |ma5| != |ma20| ==> r == Failure(ValueError)
    ensures |ma5| == |ma20| ==> r.Success? && |r.value| == |ma5|
                                && forall i :: 0 <= i < |ma5| ==> r.value[i] == TrendOf(ma5[i], ma20[i])
  {
    if |ma5| != |ma20| {
      return Failure(ValueError);
    }
    var out: seq<Option<Trend>> := [];
    for i := 0 to |ma5|
      invariant |out| == i && forall k :: 0 <= k < i ==> out[k] == TrendOf(ma5[k], ma20[k])
    {
      var short, long := ma5[i], ma20[i];
      if short.None? || long.None? {
        out := out + [None];
      } else if short.value > long.value {
        out := out + [Some(Up)];
      } else if short.value < long.value {
        out := out + [Some(Down)];
      } else {
        out := out + [Some(Flat)];
      }
    }
    return Success(out);
  }

  method ComputeRsi(num: Decimals, bars: Bars, period: int) returns (r: Result<seq<Option<real>>>)
    ensures period < 1 ==> r == Failure(ValueError)
    ensures period >= 1 && r.Success? ==>
              |r.value| == |bars| && forall i :: 0 <= i < |bars| ==> RsiAt(num, bars, period, i) == Success(r.value[i])
    ensures period >= 1 && r.Failure? ==> exists i :: 0 <= i < |bars| && RsiAt(num, bars, period, i) == Failure(r.error)
  {
    if period < 1 {
      return Failure(ValueError);
    }
    var out := new Option<real>[|bars|](_ => None);
    for i := 0 to |bars|
      invariant forall k :: 0 <= k < i ==> RsiAt(num, bars, period, k) == Success(out[k])
      invariant forall k :: i <= k < |bars| ==> out[k] == None
    {
      if i - period < 0 {
        continue;
      }
      var gains, losses := 0.0, 0.0;
      for j := i - period + 1 to i + 1
        invariant (gains, losses) == Moves(num, bars, i - period + 1, j)
      {
        var change := num.Sub(bars[j].close, bars[j - 1].close);
        if change > 0.0 {
          gains := num.add(gains, change);
        } else if change < 0.0 {
          losses := num.add(losses, -change);
        }
      }
      var rsi := RsiFrom(num, gains, losses, period);
      if rsi.Failure? {
        assert RsiAt(num, bars, period, i) == Failure(rsi.error);
        return Failure(rsi.error);
      }
      out[i] := Some(rsi.value);
    }
    return Success(out[..]);
  }

  method ComputeAtr(num: Decimals, bars: Bars, period: int) returns (r: Result<seq<Option<real>>>)
    ensures period < 1 ==> r == Failure(ValueError)
    ensures period >= 1 ==> r.Success? && |r.value| == |bars|
                            && forall i :: 0 <= i < |bars| ==> r.value[i] == AtrAt(num, bars, period, i)
  {
    if period < 1 {
      return Failure(ValueError);
    }
    var out := new Option<real>[|bars|](_ => None);
    for i := 0 to |bars|
      invariant forall k :: 0 <= k < i ==> out[k] == AtrAt(num, bars, period, k)
      invariant forall k :: i <= k < |bars| ==> out[k] == None
    {
      if i - period < 0 {
        continue;
      }
      var total := 0.0;
      for j := i - period + 1 to i + 1
        invariant total == RangeSum(num, bars, i - period + 1, j)
      {
        total := num.add(total, TrueRange(num, bars[j], bars[j - 1].close));
      }
      out[i] := Some(num.div(total, period as real));
    }
    return Success(out[..]);
  }

  method ComputeVolumeChange(num: Decimals, bars: Bars) returns (r: seq<Option<real>>)
    ensures |r| == |bars| && forall i :: 0 <= i < |bars| ==> r[i] == VolumeChangeAt(num, bars, i)
  {
    var out := new Option<real>[|bars|](_ => None);
    var i := 1;
    while i < |bars|
      invariant 1 <= i
      invariant forall k :: 0 <= k < i && k < |bars| ==> out[k] == VolumeChangeAt(num, bars, k)
    {
      var previous, current := bars[i - 1].volume, bars[i].volume;
      if previous == 0.0 {
        out[i] := if current == 0.0 then Some(0.0) else None;
      } else {
        out[i] := Some(num.div(num.Sub(current, previous), previous));
      }
      i := i + 1;
    }
    return out[..];
  }

  method ComputePricePosition(num: Decimals, bars: Bars, window: int) returns (r: Result<seq<Option<real>>>)
    ensures window < 1 ==> r == Failure(ValueError)
    ensures window >= 1 && r.Success? ==>
              |r.value| == |bars| && forall i :: 0 <= i < |bars| ==>
                  PricePositionAt(num, bars, window, i) == Success(r.value[i])
    ensures window >= 1 && r.Failure? ==>
              exists i :: 0 <= i < |bars| && PricePositionAt(num, bars, window, i) == Failure(r.error)
  {
    if window < 1 {
      return Failure(ValueError);
    }
    var out := new Option<real>[|bars|](_ => None);
    for i := 0 to |bars|
      invariant forall k :: 0 <= k < i ==> PricePositionAt(num, bars, window, k) == Success(out[k])
      invariant forall k :: i <= k < |bars| ==> out[k] == None
    {
      if i + 1 < window {
        continue;
      }
      var lo := i - window + 1;
      var high, low := bars[lo].high, bars[lo].low;
      for j := lo + 1 to i + 1
        invariant high == Highest(bars, lo, j) && low == Lowest(bars, lo, j)
      {
        high, low := Max(high, bars[j].high), Min(low, bars[j].low);
      }
      var position := PositionIn(num, bars[i].close, low, high);
      if position.Failure? {
        assert PricePositionAt(num, bars, window, i) == Failure(position.error);
        return Failure(position.error);
      }
      out[i] := Some(position.value);
    }
    return Success(out[..]);
  }

  method ComputeRelativeStrength(num: Decimals, asset: Bars, benchmark: Bars, window: int)
    returns (r: Result<seq<Option<real>>>)
    ensures window < 1 || |asset| != |benchmark| ==> r == Failure(ValueError)
    ensures window >= 1 && |asset| == |benchmark| ==>
              r.Success? && |r.value| == |asset|
                && forall i :: 0 <= i < |asset| ==> r.value[i] == RelativeStrengthAt(num, asset, benchmark, window, i)
  {
    if window < 1 || |asset| != |benchmark| {
      return Failure(ValueError);
    }
    var out := new Option<real>[|asset|](_ => None);
    for i := 0 to |asset|
      invariant forall k :: 0 <= k < i ==> out[k] == RelativeStrengthAt(num, asset, benchmark, window, k)
      invariant forall k :: i <= k < |asset| ==> out[k] == None
    {
      if i - window < 0 {
        continue;
      }
      var assetAnchor, benchmarkAnchor := asset[i - window].close, benchmark[i - window].close;
      if assetAnchor == 0.0 || benchmarkAnchor == 0.0 {
        continue;
      }
      var assetReturn := num.div(num.Sub(asset[i].close, assetAnchor), assetAnchor);
      var benchmarkReturn := num.div(num.Sub(benchmark[i].close, benchmarkAnchor), benchmarkAnchor);
      out[i] := Some(num.Sub(assetReturn, benchmarkReturn));
    }
    return Success(out[..]);
  }

  /** `compute_indicators`. */
  method ComputeIndicators(num: Decimals, asset: Bars, benchmark: Bars) returns (r: Result<seq<IndicatorBar>>)
    ensures r.Success? ==>
              |r.value| == |asset| == |benchmark|
                && forall i :: 0 <= i < |asset| ==> IndicatorsAt(num, asset, benchmark, i) == Success(r.value[i])
    ensures |asset| == |benchmark| && r.Failure? ==>
              exists i :: 0 <= i < |asset| && IndicatorsAt(num, asset, benchmark, i).Failure?
  {
    var dailyReturns := ComputeDailyReturns(num, asset);
    var ma5 := ComputeMovingAverage(num, asset, 5);
    var ma20 := ComputeMovingAverage(num, asset, 20);
    var ma50 := ComputeMovingAverage(num, asset, 50);
    var trend := ComputeMaTrend(ma5.value, ma20.value);
    var strengths := ComputeRsi(num, asset, RSI_PERIOD);
    if strengths.Failure? {
      ghost var i :| 0 <= i < |asset| && RsiAt(num, asset, RSI_PERIOD, i).Failure?;
      assert |asset| == |benchmark| ==> IndicatorsAt(num, asset, benchmark, i).Failure?;
      return Failure(strengths.error);
    }
    var rsi := strengths.value;
    var atr := ComputeAtr(num, asset, ATR_PERIOD);
    var volume := ComputeVolumeChange(num, asset);
    var placed := ComputePricePosition(num, asset, MEDIUM_TERM_WINDOW);
    if placed.Failure? {
      ghost var i :| 0 <= i < |asset| && PricePositionAt(num, asset, MEDIUM_TERM_WINDOW, i).Failure?;
      assert |asset| == |benchmark| ==> IndicatorsAt(num, asset, benchmark, i).Failure?;
      return Failure(placed.error);
    }
    var position := placed.value;
    var strength :- ComputeRelativeStrength(num, asset, benchmark, MEDIUM_TERM_WINDOW);
    var bars: seq<IndicatorBar> := [];
    for i := 0 to |asset|
      invariant |bars| == i && forall k :: 0 <= k < i ==> IndicatorsAt(num, asset, benchmark, k) == Success(bars[k])
    {
      bars := bars + [IndicatorBar(asset[i].tradingDay, dailyReturns[i], ma5.value[i], ma20.value[i], ma50.value[i],
                                   trend.value[i], rsi[i], atr.value[i],
                                   volume[i], position[i], strength[i])];
    }
    return Success(bars);
  }

  // ----- Nothing later than the day matters -----

  lemma {:induction false} CloseSumPrefix(num: Decimals, x: Bars, y: Bars, lo: nat, hi: nat)
    requires hi <= |x| && hi <= |y| && x[..hi] == y[..hi]
    ensures CloseSum(num, x, lo, hi) == CloseSum(num, y, lo, hi)
  {
    if hi > lo {
      assert x[hi - 1] == x[..hi][hi - 1] == y[hi - 1];
      assert x[..hi - 1] == x[..hi][..hi - 1] && y[..hi - 1] == y[..hi][..hi - 1];
      CloseSumPrefix(num, x, y, lo, hi - 1);
    }
  }

  lemma {:induction false} MovesPrefix(num: Decimals, x: Bars, y: Bars, lo: nat, hi: nat)
    requires 0 < lo && hi <= |x| && hi <= |y| && forall k :: 0 <= k < hi ==> x[k] == y[k]
    ensures Moves(num, x, lo, hi) == Moves(num, y, lo, hi)
  {
    if hi > lo {
      MovesPrefix(num, x, y, lo, hi - 1);
    }
  }

  lemma {:induction false} RangeSumPrefix(num: Decimals, x: Bars, y: Bars, lo: nat, hi: nat)
    requires 0 < lo && hi <= |x| && hi <= |y| && forall k :: 0 <= k < hi ==> x[k] == y[k]
    ensures RangeSum(num, x, lo, hi) == RangeSum(num, y, lo, hi)
  {
    if hi > lo {
      RangeSumPrefix(num, x, y, lo, hi - 1);
    }
  }

  lemma {:induction false} ExtremesPrefix(x: Bars, y: Bars, lo: nat, hi: nat)
    requires lo < hi <= |x| && hi <= |y| && forall k :: 0 <= k < hi ==> x[k] == y[k]
    ensures Highest(x, lo, hi) == Highest(y, lo, hi) && Lowest(x, lo, hi) == Lowest(y, lo, hi)
  {
    if hi > lo + 1 {
      ExtremesPrefix(x, y, lo, hi - 1);
    }
  }

  /** A day's indicators depend only on the bars up to that day, of the asset and of the benchmark. */
  lemma IndicatorsLookBackOnly(num: Decimals, x: Bars, y: Bars, xBench: Bars, yBench: Bars, i: nat)
    requires i < |x| == |xBench| && i < |y| == |yBench|
    requires x[..i + 1] == y[..i + 1] && xBench[..i + 1] == yBench[..i + 1]
    ensures IndicatorsAt(num, x, xBench, i) == IndicatorsAt(num, y, yBench, i)
  {
    hide MovingAverageAt, RsiAt, AtrAt, PricePositionAt, ReturnAt, VolumeChangeAt, RelativeStrengthAt;
    MovingAveragePrefix(num, x, y, 5, i);
    MovingAveragePrefix(num, x, y, 20, i);
    MovingAveragePrefix(num, x, y, 50, i);
    WindowsPrefix(num, x, y, i);
    ChangesPrefix(num, x, y, xBench, yBench, i);
  }

  lemma SamePrefixBar(x: Bars, y: Bars, n: nat, k: nat)
    requires k < n <= |x| && n <= |y| && x[..n] == y[..n]
    ensures x[k] == y[k]
  {
    assert x[k] == x[..n][k];
  }

  /** The indicators over a window. */
  lemma WindowsPrefix(num: Decimals, x: Bars, y: Bars, i: nat)
    requires i < |x| && i < |y| && x[..i + 1] == y[..i + 1]
    ensures RsiAt(num, x, RSI_PERIOD, i) == RsiAt(num, y, RSI_PERIOD, i)
    ensures AtrAt(num, x, ATR_PERIOD, i) == AtrAt(num, y, ATR_PERIOD, i)
    ensures PricePositionAt(num, x, MEDIUM_TERM_WINDOW, i) == PricePositionAt(num, y, MEDIUM_TERM_WINDOW, i)
  {
    hide CloseSum, Moves, RangeSum, Highest, Lowest, RsiFrom, PositionIn;
    SamePrefixBar(x, y, i + 1, i);
    if i >= RSI_PERIOD {
      MovesPrefix(num, x, y, i - RSI_PERIOD + 1, i + 1);
      RangeSumPrefix(num, x, y, i - ATR_PERIOD + 1, i + 1);
    }
    if i + 1 >= MEDIUM_TERM_WINDOW {
      ExtremesPrefix(x, y, i - MEDIUM_TERM_WINDOW + 1, i + 1);
    }
  }

  /** The indicators between two days. */
  lemma ChangesPrefix(num: Decimals, x: Bars, y: Bars, xBench: Bars, yBench: Bars, i: nat)
    requires i < |x| == |xBench| && i < |y| == |yBench|
    requires x[..i + 1] == y[..i + 1] && xBench[..i + 1] == yBench[..i + 1]
    ensures x[i] == y[i] && ReturnAt(num, x, i) == ReturnAt(num, y, i)
            && VolumeChangeAt(num, x, i) == VolumeChangeAt(num, y, i)
    ensures RelativeStrengthAt(num, x, xBench, MEDIUM_TERM_WINDOW, i)
            == RelativeStrengthAt(num, y, yBench, MEDIUM_TERM_WINDOW, i)
  {
    forall k | 0 <= k < i + 1
      ensures x[k] == y[k] && xBench[k] == yBench[k]
    {
      SamePrefixBar(x, y, i + 1, k);
      SamePrefixBar(xBench, yBench, i + 1, k);
    }
  }

  lemma MovingAveragePrefix(num: Decimals, x: Bars, y: Bars, window: int, i: nat)
    requires window >= 1 && i < |x| && i < |y| && x[..i + 1] == y[..i + 1]
    ensures MovingAverageAt(num, x, window, i) == MovingAverageAt(num, y, window, i)
  {
    if i + 1 >= window {
      CloseSumPrefix(num, x, y, i - window + 1, i + 1);
    }
  }

  // ----- Ranges -----

  predicate WellShaped(bars: Bars) {
    forall i :: 0 <= i < |bars| ==> bars[i].low <= bars[i].close <= bars[i].high
  }

  lemma {:induction false} ExtremesBound(bars: Bars, lo: nat, hi: nat, k: nat)
    requires lo <= k < hi <= |bars| && WellShaped(bars)
    ensures Lowest(bars, lo, hi) <= bars[k].close <= Highest(bars, lo, hi)
  {
    if k < hi - 1 {
      ExtremesBound(bars, lo, hi - 1, k);
    }
  }

  lemma SignOfFactor(g: real, y: real)
    requires y > 0.0
    ensures g * y >= 0.0 ==> g >= 0.0
  {
    if g < 0.0 {
      assert (-g) * y > 0.0;
    }
  }

  lemma Fraction(x: real, y: real)
    requires 0.0 <= x <= y && y > 0.0
    ensures 0.0 <= x / y <= 1.0
  {
    var q := x / y;
    assert q * y == x;
    assert (1.0 - q) * y == y - x;
    SignOfFactor(1.0 - q, y);
  }

  /** The 20-day position of a close between its window's low and high is a fraction. */
  lemma PricePositionIsFraction(num: Decimals, bars: Bars, window: int, i: nat)
    requires num.Exact() && WellShaped(bars) && 1 <= window <= i + 1 && i < |bars|
    ensures PricePositionAt(num, bars, window, i).Success? && PricePositionAt(num, bars, window, i).value.Some?
    ensures 0.0 <= PricePositionAt(num, bars, window, i).value.value <= 1.0
  {
    var low, high := Lowest(bars, i - window + 1, i + 1), Highest(bars, i - window + 1, i + 1);
    ExtremesBound(bars, i - window + 1, i + 1, i);
    if low != high {
      Fraction(bars[i].close - low, high - low);
    }
  }

  lemma {:induction false} MovesNonNegative(num: Decimals, bars: Bars, lo: nat, hi: nat)
    requires num.Exact() && 0 < lo && hi <= |bars|
    ensures Moves(num, bars, lo, hi).0 >= 0.0 && Moves(num, bars, lo, hi).1 >= 0.0
  {
    if hi > lo {
      MovesNonNegative(num, bars, lo, hi - 1);
    }
  }

  lemma RsiOf(gain: real, loss: real)
    requires gain >= 0.0 && loss > 0.0
    ensures 0.0 < 100.0 / (1.0 + gain / loss) <= 100.0
  {
    var ratio := 1.0 + gain / loss;
    assert gain / loss >= 0.0;
    Fraction(1.0, ratio);
    assert 100.0 / ratio == 100.0 * (1.0 / ratio);
  }

  /** RSI never divides by zero and lies between 0 and 100. */
  lemma RsiInRange(num: Decimals, bars: Bars, period: int, i: nat)
    requires num.Exact() && 1 <= period <= i && i < |bars|
    ensures RsiAt(num, bars, period, i).Success? && RsiAt(num, bars, period, i).value.Some?
    ensures 0.0 <= RsiAt(num, bars, period, i).value.value <= 100.0
  {
    var (gains, losses) := Moves(num, bars, i - period + 1, i + 1);
    MovesNonNegative(num, bars, i - period + 1, i + 1);
    var gain, loss := gains / period as real, losses / period as real;
    assert gain >= 0.0 && loss >= 0.0;
    if loss > 0.0 {
      RsiOf(gain, loss);
      assert gain / loss >= 0.0;
    }
  }
}
