/** What a day's indicators mean, stated on slices of the bars, in exact arithmetic and without the indicators' own
    formulas. */
module IndicatorMeaning {
  import opened Common
  import opened Domain
  import opened Indicators

  // ----- Sums over a window -----

  function Sum(xs: seq<real>): real {
    if xs == [] then 0.0 else xs[0] + Sum(xs[1..])
  }

  lemma {:induction false} SumAppended(xs: seq<real>, x: real)
    ensures Sum(xs + [x]) == Sum(xs) + x
  {
    if xs != [] {
      SumAppended(xs[1..], x);
      assert (xs + [x])[1..] == xs[1..] + [x];
    } else {
      assert (xs + [x])[1..] == [];
    }
  }

  /** The closes of the days lo, ..., hi - 1. */
  function Closes(bars: Bars, lo: nat, hi: nat): seq<real>
    requires lo <= hi <= |bars|
  {
    seq(hi - lo, j requires 0 <= j < hi - lo => bars[lo + j].close)
  }

  /** How far the close rose into each of the days, if it rose. */
  function Rises(bars: Bars, lo: nat, hi: nat): seq<real>
    requires 0 < lo <= hi <= |bars|
  {
    seq(hi - lo, j requires 0 <= j < hi - lo => Max(bars[lo + j].close - bars[lo + j - 1].close, 0.0))
  }

  function Falls(bars: Bars, lo: nat, hi: nat): seq<real>
    requires 0 < lo <= hi <= |bars|
  {
    seq(hi - lo, j requires 0 <= j < hi - lo => Max(bars[lo + j - 1].close - bars[lo + j].close, 0.0))
  }

  /** How far prices reached on each of the days, counting from the close before. */
  function Reaches(bars: Bars, lo: nat, hi: nat): seq<real>
    requires 0 < lo <= hi <= |bars|
  {
    seq(hi - lo, j requires 0 <= j < hi - lo =>
      Max(bars[lo + j].high, bars[lo + j - 1].close) - Min(bars[lo + j].low, bars[lo + j - 1].close))
  }

  lemma ClosesGrow(bars: Bars, lo: nat, hi: nat)
    requires lo < hi <= |bars|
    ensures Sum(Closes(bars, lo, hi)) == Sum(Closes(bars, lo, hi - 1)) + bars[hi - 1].close
  {
    hide Sum;
    assert Closes(bars, lo, hi) == Closes(bars, lo, hi - 1) + [bars[hi - 1].close];
    SumAppended(Closes(bars, lo, hi - 1), bars[hi - 1].close);
  }

  lemma NoCloses(bars: Bars, lo: nat)
    requires lo <= |bars|
    ensures Sum(Closes(bars, lo, lo)) == 0.0
  {
    assert Closes(bars, lo, lo) == [];
  }

  lemma {:induction false} ClosesSum(num: Decimals, bars: Bars, lo: nat, hi: nat)
    requires num.Exact() && lo <= hi <= |bars|
    ensures CloseSum(num, bars, lo, hi) == Sum(Closes(bars, lo, hi))
    decreases hi
  {
    hide Sum, Closes, Decimals.Exact;
    if lo < hi {
      ClosesSum(num, bars, lo, hi - 1);
      ClosesGrow(bars, lo, hi);
      ExactSum(num, CloseSum(num, bars, lo, hi - 1), bars[hi - 1].close);
    } else {
      NoCloses(bars, lo);
    }
  }

  lemma ExactSum(num: Decimals, x: real, y: real)
    requires num.Exact()
    ensures num.add(x, y) == x + y && num.Sub(x, y) == x - y
  {
  }

  lemma RisesGrow(bars: Bars, lo: nat, hi: nat)
    requires 0 < lo < hi <= |bars|
    ensures Sum(Rises(bars, lo, hi)) == Sum(Rises(bars, lo, hi - 1)) + Max(bars[hi - 1].close - bars[hi - 2].close, 0.0)
    ensures Sum(Falls(bars, lo, hi)) == Sum(Falls(bars, lo, hi - 1)) + Max(bars[hi - 2].close - bars[hi - 1].close, 0.0)
  {
    hide Sum;
    var rise, fall := Max(bars[hi - 1].close - bars[hi - 2].close, 0.0),
                      Max(bars[hi - 2].close - bars[hi - 1].close, 0.0);
    assert Rises(bars, lo, hi) == Rises(bars, lo, hi - 1) + [rise];
    assert Falls(bars, lo, hi) == Falls(bars, lo, hi - 1) + [fall];
    SumAppended(Rises(bars, lo, hi - 1), rise);
    SumAppended(Falls(bars, lo, hi - 1), fall);
  }

  lemma NoMoves(bars: Bars, lo: nat)
    requires 0 < lo <= |bars|
    ensures Sum(Rises(bars, lo, lo)) == 0.0 && Sum(Falls(bars, lo, lo)) == 0.0
  {
    assert Rises(bars, lo, lo) == [] && Falls(bars, lo, lo) == [];
  }

  lemma {:induction false} MovesSum(num: Decimals, bars: Bars, lo: nat, hi: nat)
    requires num.Exact() && 0 < lo <= hi <= |bars|
    ensures Moves(num, bars, lo, hi) == (Sum(Rises(bars, lo, hi)), Sum(Falls(bars, lo, hi)))
    decreases hi
  {
    hide Sum, Rises, Falls, Decimals.Exact;
    if lo < hi {
      MovesSum(num, bars, lo, hi - 1);
      RisesGrow(bars, lo, hi);
      var x, y := bars[hi - 1].close, bars[hi - 2].close;
      ExactSum(num, x, y);
      var (gains, losses) := Moves(num, bars, lo, hi - 1);
      ExactSum(num, gains, x - y);
      ExactSum(num, losses, y - x);
    } else {
      NoMoves(bars, lo);
    }
  }

  predicate Ordered(bars: Bars) {
    forall i :: 0 <= i < |bars| ==> bars[i].low <= bars[i].high
  }

  lemma ExactRange(num: Decimals, bar: AlignedBar, previousClose: real)
    requires num.Exact() && bar.low <= bar.high
    ensures TrueRange(num, bar, previousClose) == Max(bar.high, previousClose) - Min(bar.low, previousClose)
  {
    ExactSum(num, bar.high, bar.low);
    ExactSum(num, bar.high, previousClose);
    ExactSum(num, bar.low, previousClose);
    hide Decimals.Exact;
  }

  lemma ReachesGrow(bars: Bars, lo: nat, hi: nat)
    requires 0 < lo < hi <= |bars|
    ensures Sum(Reaches(bars, lo, hi))
            == Sum(Reaches(bars, lo, hi - 1))
               + (Max(bars[hi - 1].high, bars[hi - 2].close) - Min(bars[hi - 1].low, bars[hi - 2].close))
  {
    hide Sum;
    var reach := Max(bars[hi - 1].high, bars[hi - 2].close) - Min(bars[hi - 1].low, bars[hi - 2].close);
    assert Reaches(bars, lo, hi) == Reaches(bars, lo, hi - 1) + [reach];
    SumAppended(Reaches(bars, lo, hi - 1), reach);
  }

  lemma NoReaches(bars: Bars, lo: nat)
    requires 0 < lo <= |bars|
    ensures Sum(Reaches(bars, lo, lo)) == 0.0
  {
    assert Reaches(bars, lo, lo) == [];
  }

  lemma {:induction false} RangesSum(num: Decimals, bars: Bars, lo: nat, hi: nat)
    requires num.Exact() && Ordered(bars) && 0 < lo <= hi <= |bars|
    ensures RangeSum(num, bars, lo, hi) == Sum(Reaches(bars, lo, hi))
    decreases hi
  {
    hide Sum, Reaches, Decimals.Exact, TrueRange;
    if lo < hi {
      RangesSum(num, bars, lo, hi - 1);
      ExactRange(num, bars[hi - 1], bars[hi - 2].close);
      ReachesGrow(bars, lo, hi);
      var reach := Max(bars[hi - 1].high, bars[hi - 2].close) - Min(bars[hi - 1].low, bars[hi - 2].close);
      ExactSum(num, RangeSum(num, bars, lo, hi - 1), reach);
    } else {
      NoReaches(bars, lo);
    }
  }

  // ----- The indicators -----

  /** The mean of the last `window` closes, once there are as many. */
  predicate IsMean(x: Option<real>, bars: Bars, window: nat, i: nat)
    requires window >= 1 && i < |bars|
  {
    if i + 1 < window then x == None
    else x.Some? && x.value * window as real == Sum(Closes(bars, i + 1 - window, i + 1))
  }

  /** The change that leads from one value to the next; there is none from zero. */
  predicate IsChange(x: Option<real>, from: real, to: real) {
    if from == 0.0 then x == None else x.Some? && (1.0 + x.value) * from == to
  }

  /** The share of the rises in all moves of the last 14 days, in percent; 50 when nothing moved. */
  predicate IsStrength(x: Option<real>, bars: Bars, i: nat)
    requires i < |bars|
  {
    if i < 14 then x == None
    else
      var up, down := Sum(Rises(bars, i - 13, i + 1)), Sum(Falls(bars, i - 13, i + 1));
      x.Some? && if up + down == 0.0 then x.value == 50.0 else x.value * (up + down) == 100.0 * up
  }

  /** The mean reach of the last 14 days. */
  predicate IsMeanReach(x: Option<real>, bars: Bars, i: nat)
    requires i < |bars|
  {
    if i < 14 then x == None else x.Some? && x.value * 14.0 == Sum(Reaches(bars, i - 13, i + 1))
  }

  predicate IsVolumeChange(x: Option<real>, bars: Bars, i: nat)
    requires i < |bars|
  {
    if i == 0 then x == None
    else if bars[i - 1].volume == 0.0 && bars[i].volume == 0.0 then x == Some(0.0)
    else IsChange(x, bars[i - 1].volume, bars[i].volume)
  }

  ghost predicate IsHighest(x: real, bars: Bars, lo: nat, hi: nat)
    requires hi <= |bars|
  {
    (exists j :: lo <= j < hi && bars[j].high == x) && forall j :: lo <= j < hi ==> bars[j].high <= x
  }

  ghost predicate IsLowest(x: real, bars: Bars, lo: nat, hi: nat)
    requires hi <= |bars|
  {
    (exists j :: lo <= j < hi && bars[j].low == x) && forall j :: lo <= j < hi ==> bars[j].low >= x
  }

  /** Where the close lies between the lowest low and the highest high of the last 20 days, 0.5 when they are one. */
  ghost predicate IsPlace(x: Option<real>, bars: Bars, i: nat)
    requires i < |bars|
  {
    if i < 19 then x == None else x.Some? && exists low, high :: LiesBetween(x.value, low, high, bars, i)
  }

  /** The close lies this far from the lowest low of the last 20 days to their highest high. */
  ghost predicate LiesBetween(x: real, low: real, high: real, bars: Bars, i: nat)
    requires 19 <= i < |bars|
  {
    && IsLowest(low, bars, i - 19, i + 1) && IsHighest(high, bars, i - 19, i + 1)
    && if high == low then x == 0.5 else low + x * (high - low) == bars[i].close
  }

  /** The growth of the asset over 20 days less that of the benchmark. */
  predicate IsRelative(x: Option<real>, asset: Bars, benchmark: Bars, i: nat)
    requires i < |asset| == |benchmark|
  {
    if i < 20 || asset[i - 20].close == 0.0 || benchmark[i - 20].close == 0.0 then x == None
    else
      var a, b := asset[i - 20].close, benchmark[i - 20].close;
      x.Some? && x.value * a * b == asset[i].close * b - benchmark[i].close * a
  }

  predicate IsTrend(x: Option<Trend>, short: Option<real>, long: Option<real>) {
    if short.None? || long.None? then x == None
    else
      && (x == Some(Up) <==> short.value > long.value) && (x == Some(Down) <==> short.value < long.value)
      && (x == Some(Flat) <==> short.value == long.value)
  }

  lemma ExactQuotient(num: Decimals, x: real, y: real)
    requires num.Exact() && y != 0.0
    ensures num.div(x, y) * y == x
  {
    var q := x / y;
    assert num.div(x, y) == q && q * y == x;
  }

  lemma MeanMeans(num: Decimals, bars: Bars, window: nat, i: nat)
    requires num.Exact() && window >= 1 && i < |bars|
    ensures IsMean(MovingAverageAt(num, bars, window, i), bars, window, i)
  {
    if i + 1 >= window {
      ClosesSum(num, bars, i + 1 - window, i + 1);
      hide CloseSum, Closes, Sum;
      ExactQuotient(num, CloseSum(num, bars, i + 1 - window, i + 1), window as real);
    }
  }

  lemma ChangeMeans(num: Decimals, from: real, to: real)
    requires num.Exact() && from != 0.0
    ensures IsChange(Some(num.div(num.Sub(to, from), from)), from, to)
  {
    ExactSum(num, to, from);
    ExactQuotient(num, to - from, from);
    var x := num.div(to - from, from);
    assert (1.0 + x) * from == from + x * from;
  }

  lemma ReturnMeans(num: Decimals, bars: Bars, i: nat)
    requires num.Exact() && i < |bars|
    ensures if i == 0 then ReturnAt(num, bars, i) == None
            else IsChange(ReturnAt(num, bars, i), bars[i - 1].close, bars[i].close)
  {
    if i > 0 && bars[i - 1].close != 0.0 {
      ChangeMeans(num, bars[i - 1].close, bars[i].close);
      hide IsChange, Decimals.Exact;
    }
  }

  lemma VolumeMeans(num: Decimals, bars: Bars, i: nat)
    requires num.Exact() && i < |bars|
    ensures IsVolumeChange(VolumeChangeAt(num, bars, i), bars, i)
  {
    if i > 0 && bars[i - 1].volume != 0.0 {
      ChangeMeans(num, bars[i - 1].volume, bars[i].volume);
      hide IsChange, Decimals.Exact;
    }
  }

  lemma ReachMeans(num: Decimals, bars: Bars, i: nat)
    requires num.Exact() && Ordered(bars) && i < |bars|
    ensures IsMeanReach(AtrAt(num, bars, 14, i), bars, i)
  {
    if i >= 14 {
      RangesSum(num, bars, i - 13, i + 1);
      hide RangeSum, Reaches, Sum;
      ExactQuotient(num, RangeSum(num, bars, i - 13, i + 1), 14.0);
    }
  }

  lemma {:induction false} MovesNotNegative(xs: seq<real>)
    requires forall j :: 0 <= j < |xs| ==> xs[j] >= 0.0
    ensures Sum(xs) >= 0.0
  {
    if xs != [] {
      MovesNotNegative(xs[1..]);
    }
  }

  lemma SumsNotNegative(bars: Bars, lo: nat, hi: nat)
    requires 0 < lo <= hi <= |bars|
    ensures Sum(Rises(bars, lo, hi)) >= 0.0 && Sum(Falls(bars, lo, hi)) >= 0.0
  {
    forall j | 0 <= j < hi - lo
      ensures Rises(bars, lo, hi)[j] >= 0.0 && Falls(bars, lo, hi)[j] >= 0.0
    {
      assert Rises(bars, lo, hi)[j] == Max(bars[lo + j].close - bars[lo + j - 1].close, 0.0);
      assert Falls(bars, lo, hi)[j] == Max(bars[lo + j - 1].close - bars[lo + j].close, 0.0);
    }
    MovesNotNegative(Rises(bars, lo, hi));
    MovesNotNegative(Falls(bars, lo, hi));
  }

  /** The strength formula, solved. */
  lemma StrengthOf(num: Decimals, up: real, down: real)
    requires num.Exact() && up >= 0.0 && down >= 0.0
    ensures RsiFrom(num, up, down, 14).Success?
    ensures var x := RsiFrom(num, up, down, 14).value;
            if up + down == 0.0 then x == 50.0 else x * (up + down) == 100.0 * up
  {
    var g, l := up / 14.0, down / 14.0;
    assert num.div(up, 14.0) == g && num.div(down, 14.0) == l;
    assert num.mul(0.5, 100.0) == 50.0;
    if l > 0.0 {
      var q := g / l;
      assert num.div(g, l) == q && num.add(1.0, q) == 1.0 + q;
      assert q * l == g;
      assert q >= 0.0;
      var share := 100.0 / (1.0 + q);
      assert num.div(100.0, 1.0 + q) == share && share * (1.0 + q) == 100.0;
      assert num.Sub(100.0, share) == 100.0 - share;
      StrengthAlgebra(up, down, q, share);
    }
  }

  lemma StrengthAlgebra(up: real, down: real, q: real, share: real)
    requires q * (down / 14.0) == up / 14.0 && share * (1.0 + q) == 100.0
    ensures (100.0 - share) * (up + down) == 100.0 * up
  {
    assert q * down == up;
    assert share * (down + q * down) == share * (1.0 + q) * down;
    assert share * (up + down) == 100.0 * down;
  }

  lemma StrengthMeans(num: Decimals, bars: Bars, i: nat)
    requires num.Exact() && i < |bars|
    ensures RsiAt(num, bars, 14, i).Success? && IsStrength(RsiAt(num, bars, 14, i).value, bars, i)
  {
    if i >= 14 {
      MovesSum(num, bars, i - 13, i + 1);
      SumsNotNegative(bars, i - 13, i + 1);
      StrengthOf(num, Sum(Rises(bars, i - 13, i + 1)), Sum(Falls(bars, i - 13, i + 1)));
      hide RsiFrom, Moves, Rises, Falls, Sum, Decimals.Exact;
    }
  }

  lemma {:induction false} Extremes(bars: Bars, lo: nat, hi: nat)
    requires lo < hi <= |bars|
    ensures IsHighest(Highest(bars, lo, hi), bars, lo, hi) && IsLowest(Lowest(bars, lo, hi), bars, lo, hi)
    decreases hi
  {
    if hi == lo + 1 {
      assert bars[lo].high == Highest(bars, lo, hi) && bars[lo].low == Lowest(bars, lo, hi);
    } else {
      Extremes(bars, lo, hi - 1);
      var j :| lo <= j < hi - 1 && bars[j].high == Highest(bars, lo, hi - 1);
      var k :| lo <= k < hi - 1 && bars[k].low == Lowest(bars, lo, hi - 1);
      assert bars[hi - 1].high == bars[hi - 1].high && bars[hi - 1].low == bars[hi - 1].low;
    }
  }

  lemma PlaceMeans(num: Decimals, bars: Bars, i: nat)
    requires num.Exact() && i < |bars| && PricePositionAt(num, bars, 20, i).Success?
    ensures IsPlace(PricePositionAt(num, bars, 20, i).value, bars, i)
  {
    if i >= 19 {
      var low, high, close := Lowest(bars, i - 19, i + 1), Highest(bars, i - 19, i + 1), bars[i].close;
      Extremes(bars, i - 19, i + 1);
      ExactSum(num, close, low);
      ExactSum(num, high, low);
      if high != low {
        ExactQuotient(num, close - low, high - low);
      }
      hide Lowest, Highest, IsLowest, IsHighest, Decimals.Exact;
      assert LiesBetween(PricePositionAt(num, bars, 20, i).value.value, low, high, bars, i);
    }
  }

  lemma RelativeMeans(num: Decimals, asset: Bars, benchmark: Bars, i: nat)
    requires num.Exact() && i < |asset| == |benchmark|
    ensures IsRelative(RelativeStrengthAt(num, asset, benchmark, 20, i), asset, benchmark, i)
  {
    if i >= 20 && asset[i - 20].close != 0.0 && benchmark[i - 20].close != 0.0 {
      var a0, b0, a1, b1 := asset[i - 20].close, benchmark[i - 20].close, asset[i].close, benchmark[i].close;
      ExactSum(num, a1, a0);
      ExactSum(num, b1, b0);
      ExactQuotient(num, a1 - a0, a0);
      ExactQuotient(num, b1 - b0, b0);
      var x, y := num.div(a1 - a0, a0), num.div(b1 - b0, b0);
      ExactSum(num, x, y);
      hide Decimals.Exact;
      DifferenceOfGrowths(x, y, a0, b0, a1, b1);
    }
  }

  lemma DifferenceOfGrowths(x: real, y: real, a0: real, b0: real, a1: real, b1: real)
    requires x * a0 == a1 - a0 && y * b0 == b1 - b0
    ensures (x - y) * a0 * b0 == a1 * b0 - b1 * a0
  {
    assert (x - y) * a0 * b0 == (x * a0) * b0 - (y * b0) * a0;
  }

  /** Main result: what the row of a day says. Exact arithmetic, and no bar with its low above its high. */
  lemma RowMeans(num: Decimals, asset: Bars, benchmark: Bars, i: nat)
    requires num.Exact() && Ordered(asset) && i < |asset| == |benchmark|
    requires IndicatorsAt(num, asset, benchmark, i).Success?
    ensures var row := IndicatorsAt(num, asset, benchmark, i).value;
            && row.tradingDay == asset[i].tradingDay
            && (if i == 0 then row.dailyReturn == None
                else IsChange(row.dailyReturn, asset[i - 1].close, asset[i].close))
            && IsMean(row.ma5, asset, 5, i) && IsMean(row.ma20, asset, 20, i) && IsMean(row.ma50, asset, 50, i)
            && IsTrend(row.maTrend, row.ma5, row.ma20)
            && IsStrength(row.rsi14, asset, i) && IsMeanReach(row.atr14, asset, i)
            && IsVolumeChange(row.volumeChange, asset, i) && IsPlace(row.pricePosition20d, asset, i)
            && IsRelative(row.relativeStrength20d, asset, benchmark, i)
  {
    hide ReturnAt, MovingAverageAt, RsiAt, AtrAt, VolumeChangeAt, PricePositionAt, RelativeStrengthAt, IsChange, IsMean,
         IsStrength, IsMeanReach, IsVolumeChange, IsPlace, IsRelative, Decimals.Exact;
    ReturnMeans(num, asset, i);
    MeanMeans(num, asset, 5, i);
    MeanMeans(num, asset, 20, i);
    MeanMeans(num, asset, 50, i);
    StrengthMeans(num, asset, i);
    ReachMeans(num, asset, i);
    VolumeMeans(num, asset, i);
    PlaceMeans(num, asset, i);
    RelativeMeans(num, asset, benchmark, i);
  }
}
