/** Alignment of raw bars into one bar per calendar day (backend/backtest/alignment.py).
    An `openTime` is a UTC instant in microseconds counted from the start of date 0. */
module Alignment {
  import opened Common
  import opened Domain
  import opened Calendar

  const DAY := 86_400_000_000

  datatype RawBar = RawBar(openTime: int, open: real, high: real, low: real, close: real, volume: real)

  /** The service's checks on the prices of a stored bar: none negative, open and close between low and high. */
  predicate ValidPrices(bar: RawBar) {
    && bar.open >= 0.0 && bar.high >= 0.0 && bar.low >= 0.0 && bar.close >= 0.0
    && bar.low <= bar.open <= bar.high && bar.low <= bar.close <= bar.high
  }

  function DateOf(openTime: int): int {
    openTime / DAY
  }

  // ----- Which bar a day gets -----

  /** The bar of a day: the latest open time wins, the first of equal ones. */
  function BarOn(raw: seq<RawBar>, day: int): Option<RawBar> {
    if raw == [] then None
    else
      var before, bar := BarOn(raw[..|raw| - 1], day), raw[|raw| - 1];
      if DateOf(bar.openTime) == day && (before.None? || bar.openTime > before.value.openTime) then Some(bar)
      else before
  }

  lemma {:induction false} BarOnIsLatest(raw: seq<RawBar>, day: int)
    ensures BarOn(raw, day).None? ==> forall bar :: bar in raw ==> DateOf(bar.openTime) != day
    ensures var found := BarOn(raw, day);
            found.Some? ==>
              && found.value in raw && DateOf(found.value.openTime) == day
              && forall bar :: bar in raw && DateOf(bar.openTime) == day ==> bar.openTime <= found.value.openTime
  {
    if raw != [] {
      BarOnIsLatest(raw[..|raw| - 1], day);
    }
  }

  predicate DistinctOpenTimes(raw: seq<RawBar>) {
    forall i, j :: 0 <= i < j < |raw| ==> raw[i].openTime != raw[j].openTime
  }

  /** A bar of the day that no other bar of the day opens after. */
  predicate IsLatest(raw: seq<RawBar>, day: int, bar: RawBar) {
    bar in raw && DateOf(bar.openTime) == day
    && forall i :: 0 <= i < |raw| && DateOf(raw[i].openTime) == day ==> raw[i].openTime <= bar.openTime
  }

  /** All bars that open last on the day are the same. */
  ghost predicate Unambiguous(raw: seq<RawBar>, day: int) {
    forall x, y :: IsLatest(raw, day, x) && IsLatest(raw, day, y) ==> x == y
  }

  lemma DistinctAreUnambiguous(raw: seq<RawBar>, day: int)
    requires DistinctOpenTimes(raw)
    ensures Unambiguous(raw, day)
  {
    forall x, y | IsLatest(raw, day, x) && IsLatest(raw, day, y)
      ensures x == y
    {
      var i :| 0 <= i < |raw| && raw[i] == x;
      var j :| 0 <= j < |raw| && raw[j] == y;
      assert raw[i].openTime <= y.openTime && raw[j].openTime <= x.openTime;
    }
  }

  lemma LatestInAnyOrder(raw: seq<RawBar>, raw': seq<RawBar>, day: int, bar: RawBar)
    requires multiset(raw) == multiset(raw')
    ensures IsLatest(raw, day, bar) <==> IsLatest(raw', day, bar)
  {
    assert forall other :: other in raw <==> other in multiset(raw);
    assert forall other :: other in raw' <==> other in multiset(raw');
    assert forall i :: 0 <= i < |raw| ==> raw[i] in raw';
    assert forall i :: 0 <= i < |raw'| ==> raw'[i] in raw;
  }

  /** A day has a bar if and only if it has a latest one. */
  lemma BarOnIsLatestOf(raw: seq<RawBar>, day: int)
    ensures BarOn(raw, day).Some? ==> IsLatest(raw, day, BarOn(raw, day).value)
    ensures forall bar :: IsLatest(raw, day, bar) ==> BarOn(raw, day).Some?
  {
    BarOnIsLatest(raw, day);
    hide BarOn;
    if BarOn(raw, day).Some? {
      assert IsLatest(raw, day, BarOn(raw, day).value);
    }
  }

  /** In another order a day has a bar or none as before, and the same one unless the day is ambiguous. */
  lemma BarOnIgnoresOrder(raw: seq<RawBar>, raw': seq<RawBar>, day: int)
    requires multiset(raw) == multiset(raw')
    ensures BarOn(raw, day).None? <==> BarOn(raw', day).None?
    ensures Unambiguous(raw, day) ==> BarOn(raw, day) == BarOn(raw', day)
  {
    BarOnIsLatestOf(raw, day);
    BarOnIsLatestOf(raw', day);
    hide BarOn, IsLatest;
    forall bar
      ensures IsLatest(raw, day, bar) <==> IsLatest(raw', day, bar)
    {
      LatestInAnyOrder(raw, raw', day, bar);
    }
  }

  /** A latest bar that comes first is the bar of its day. */
  lemma {:induction false} FirstLatestWins(first: RawBar, rest: seq<RawBar>, day: int)
    requires IsLatest([first] + rest, day, first)
    ensures BarOn([first] + rest, day) == Some(first)
  {
    var raw := [first] + rest;
    if rest == [] {
      assert raw[..0] == [] && BarOn(raw[..0], day).None?;
      assert raw[0] == first;
    } else {
      var n := |rest| - 1;
      assert raw[..|raw| - 1] == [first] + rest[..n] && raw[|raw| - 1] == rest[n];
      forall i | 0 <= i < |[first] + rest[..n]| && DateOf(([first] + rest[..n])[i].openTime) == day
        ensures ([first] + rest[..n])[i].openTime <= first.openTime
      {
        assert raw[i] == ([first] + rest[..n])[i];
      }
      FirstLatestWins(first, rest[..n], day);
      assert raw[n + 1] == rest[n];
    }
  }

  /** Moving a bar to the front. */
  lemma ToFront(raw: seq<RawBar>, bar: RawBar) returns (rest: seq<RawBar>)
    requires bar in raw
    ensures multiset([bar] + rest) == multiset(raw)
  {
    var i :| 0 <= i < |raw| && raw[i] == bar;
    rest := raw[..i] + raw[i + 1..];
    assert raw == raw[..i] + [bar] + raw[i + 1..];
  }

  // ----- The aligned series -----

  predicate ExpectedFresh(trading: bool, assetClass: AssetClass) {
    assetClass.Crypto? || trading
  }

  function FreshBar(day: int, bar: RawBar): AlignedBar {
    AlignedBar(day, bar.open, bar.high, bar.low, bar.close, bar.volume, false, Some(bar.openTime))
  }

  function CarriedBar(day: int, close: real): AlignedBar {
    AlignedBar(day, close, close, close, close, 0.0, true, None)
  }

  /** One day after the days aligned so far. */
  ghost function AlignDay(assetClass: AssetClass, aligned: seq<AlignedBar>, day: int,
                          bar: Option<RawBar>): Result<seq<AlignedBar>>
    requires day >= 1
  {
    if bar.Some? then Success(aligned + [FreshBar(day, bar.value)])
    else if ExpectedFresh(IsTradingDay(day), assetClass) || aligned == [] then Failure(MissingTradingDayBar)
    else Success(aligned + [CarriedBar(day, aligned[|aligned| - 1].close)])
  }

  ghost function AlignUpTo(assetClass: AssetClass, start: int, raw: seq<RawBar>, n: nat): Result<seq<AlignedBar>>
    requires start >= 1
  {
    if n == 0 then Success([])
    else
      match AlignUpTo(assetClass, start, raw, n - 1)
      case Failure(error) => Failure(error)
      case Success(aligned) => AlignDay(assetClass, aligned, start + n - 1, BarOn(raw, start + n - 1))
  }

  /** `align_daily_series` as a function of its arguments. */
  ghost function Align(assetClass: AssetClass, start: int, end: int, raw: seq<RawBar>): Result<seq<AlignedBar>>
    requires start >= 1
  {
    if start > end then Failure(ValueError) else AlignUpTo(assetClass, start, raw, end - start + 1)
  }

  lemma {:induction false} AlignFailureSticks(assetClass: AssetClass, start: int, raw: seq<RawBar>, m: nat, n: nat)
    requires start >= 1 && m <= n && AlignUpTo(assetClass, start, raw, m).Failure?
    ensures AlignUpTo(assetClass, start, raw, n) == AlignUpTo(assetClass, start, raw, m)
    decreases n
  {
    if m < n {
      AlignFailureSticks(assetClass, start, raw, m, n - 1);
    }
  }

  lemma BarOnStep(raw: seq<RawBar>, i: nat, day: int)
    requires i < |raw|
    ensures var before, bar := BarOn(raw[..i], day), raw[i];
            BarOn(raw[..i + 1], day)
            == if DateOf(bar.openTime) == day && (before.None? || bar.openTime > before.value.openTime)
               then Some(bar) else before
  {
    assert raw[..i + 1][..i] == raw[..i];
  }

  /** The first loop: the bar of each day of the range. */
  method BucketByDay(raw: seq<RawBar>, start: int, end: int) returns (barsByDay: map<int, RawBar>)
    ensures forall day :: start <= day <= end ==>
              BarOn(raw, day) == if day in barsByDay then Some(barsByDay[day]) else None
  {
    barsByDay := map[];
    for i := 0 to |raw|
      invariant forall day :: start <= day <= end ==>
                  BarOn(raw[..i], day) == if day in barsByDay then Some(barsByDay[day]) else None
    {
      forall day {
        BarOnStep(raw, i, day);
      }
      hide BarOn;
      var bar := raw[i];
      var day := DateOf(bar.openTime);
      if day < start || day > end {
        continue;
      }
      if day !in barsByDay || bar.openTime > barsByDay[day].openTime {
        barsByDay := barsByDay[day := bar];
      }
    }
    assert raw[..|raw|] == raw;
  }

  lemma AlignStep(assetClass: AssetClass, start: int, raw: seq<RawBar>, n: nat)
    requires start >= 1 && AlignUpTo(assetClass, start, raw, n).Success?
    ensures AlignUpTo(assetClass, start, raw, n + 1)
         == AlignDay(assetClass, AlignUpTo(assetClass, start, raw, n).value, start + n, BarOn(raw, start + n))
  {
    hide BarOn, AlignDay;
  }

  /** The second loop: one bar a day, carrying the last close. */
  method WalkDays(assetClass: AssetClass, start: int, totalDays: nat, ghost raw: seq<RawBar>,
                  barsByDay: map<int, RawBar>)
    returns (r: Result<seq<AlignedBar>>)
    requires start >= 1
    requires forall day :: start <= day < start + totalDays ==>
               BarOn(raw, day) == if day in barsByDay then Some(barsByDay[day]) else None
    ensures r == AlignUpTo(assetClass, start, raw, totalDays)
  {
    assert AlignUpTo(assetClass, start, raw, 0) == Success([]);
    hide BarOn, IsTradingDay, AlignUpTo;
    var aligned: seq<AlignedBar> := [];
    var lastClose: Option<real> := None;
    for offset := 0 to totalDays
      invariant AlignUpTo(assetClass, start, raw, offset) == Success(aligned)
      invariant lastClose == if aligned == [] then None else Some(aligned[|aligned| - 1].close)
    {
      var day := start + offset;
      AlignStep(assetClass, start, raw, offset);
      if day in barsByDay {
        var bar := barsByDay[day];
        aligned :=
          aligned + [AlignedBar(day, bar.open, bar.high, bar.low, bar.close, bar.volume, false, Some(bar.openTime))];
        lastClose := Some(bar.close);
        continue;
      }
      var isExpectedFresh := assetClass.Crypto?;
      if !isExpectedFresh {
        isExpectedFresh := IsUsEquityTradingDay(day);
      }
      if isExpectedFresh || lastClose.None? {
        AlignFailureSticks(assetClass, start, raw, offset + 1, totalDays);
        return Failure(MissingTradingDayBar);
      }
      var close := lastClose.value;
      aligned := aligned + [AlignedBar(day, close, close, close, close, 0.0, true, None)];
    }
    return Success(aligned);
  }

  /** `align_daily_series`: bucket the bars by day, then walk the days. */
  method AlignDailySeries(assetClass: AssetClass, start: int, end: int, raw: seq<RawBar>)
    returns (r: Result<seq<AlignedBar>>)
    requires start >= 1
    ensures r == Align(assetClass, start, end, raw)
  {
    hide BarOn, AlignUpTo;
    if start > end {
      return Failure(ValueError);
    }
    var barsByDay := BucketByDay(raw, start, end);
    r := WalkDays(assetClass, start, end - start + 1, raw, barsByDay);
  }

  // ----- What the series is -----

  /** The i-th bar is dated its day and shows that day's raw bar, or repeats the close before it on a day on
      which the exchange is closed. */
  ghost predicate ShowsDay(assetClass: AssetClass, start: int, raw: seq<RawBar>, bars: seq<AlignedBar>, i: int)
    requires start >= 1 && 0 <= i < |bars|
  {
    var day, found := start + i, BarOn(raw, start + i);
    && bars[i].tradingDay == day
    && (bars[i].stale <==> found.None?)
    && (found.Some? ==> bars[i] == FreshBar(day, found.value))
    && (found.None? ==>
          i > 0 && bars[i] == CarriedBar(day, bars[i - 1].close) && !ExpectedFresh(IsTradingDay(day), assetClass))
  }

  /** Main result: the series has one bar for every day, and each shows its day. */
  lemma {:induction false} SeriesIsGapless(assetClass: AssetClass, start: int, raw: seq<RawBar>, n: nat)
    requires start >= 1 && AlignUpTo(assetClass, start, raw, n).Success?
    ensures var bars := AlignUpTo(assetClass, start, raw, n).value;
            |bars| == n && forall i :: 0 <= i < n ==> ShowsDay(assetClass, start, raw, bars, i)
  {
    hide IsTradingDay, BarOn;
    if n > 0 {
      SeriesIsGapless(assetClass, start, raw, n - 1);
      var before, bars := AlignUpTo(assetClass, start, raw, n - 1).value, AlignUpTo(assetClass, start, raw, n).value;
      forall i | 0 <= i < n
        ensures ShowsDay(assetClass, start, raw, bars, i)
      {
        if i < n - 1 {
          assert ShowsDay(assetClass, start, raw, before, i);
        }
      }
    }
  }

  /** A day without a bar that cannot be carried. */
  ghost predicate IsGap(assetClass: AssetClass, start: int, raw: seq<RawBar>, day: int)
    requires 1 <= start <= day
  {
    BarOn(raw, day).None? && (day == start || ExpectedFresh(IsTradingDay(day), assetClass))
  }

  /** Main result: alignment fails exactly when the first day has no bar, or a day on which one is expected has none. */
  lemma {:induction false} FailsExactlyOnGaps(assetClass: AssetClass, start: int, raw: seq<RawBar>, n: nat)
    requires start >= 1
    ensures AlignUpTo(assetClass, start, raw, n).Failure? <==>
            exists day :: start <= day < start + n && IsGap(assetClass, start, raw, day)
  {
    hide IsTradingDay, BarOn;
    if n > 0 {
      FailsExactlyOnGaps(assetClass, start, raw, n - 1);
      if AlignUpTo(assetClass, start, raw, n - 1).Success? {
        SeriesIsGapless(assetClass, start, raw, n - 1);
        assert AlignUpTo(assetClass, start, raw, n).Failure? <==> IsGap(assetClass, start, raw, start + n - 1);
      }
    }
  }

  lemma {:induction false} SameBarsSameSeries(assetClass: AssetClass, start: int, raw: seq<RawBar>,
                                              raw': seq<RawBar>, n: nat)
    requires start >= 1 && forall day :: start <= day < start + n ==> BarOn(raw, day) == BarOn(raw', day)
    ensures AlignUpTo(assetClass, start, raw, n) == AlignUpTo(assetClass, start, raw', n)
  {
    hide IsTradingDay, BarOn;
    if n > 0 {
      SameBarsSameSeries(assetClass, start, raw, raw', n - 1);
    }
  }

  /** Any order of the bars gives the same series, or the same error. */
  ghost predicate IgnoresOrder(assetClass: AssetClass, start: int, end: int, raw: seq<RawBar>)
    requires start >= 1
  {
    forall raw' :: multiset(raw') == multiset(raw) ==>
        Align(assetClass, start, end, raw') == Align(assetClass, start, end, raw)
  }

  ghost predicate NoAmbiguousDay(raw: seq<RawBar>, start: int, end: int) {
    forall day :: start <= day <= end ==> Unambiguous(raw, day)
  }

  lemma {:induction false} FailureKind(assetClass: AssetClass, start: int, raw: seq<RawBar>, n: nat)
    requires start >= 1 && AlignUpTo(assetClass, start, raw, n).Failure?
    ensures AlignUpTo(assetClass, start, raw, n) == Failure(MissingTradingDayBar)
  {
    hide IsTradingDay, BarOn;
    if n > 0 && AlignUpTo(assetClass, start, raw, n - 1).Failure? {
      FailureKind(assetClass, start, raw, n - 1);
    }
  }

  /** Whether alignment fails does not depend on the order. */
  lemma FailureIgnoresOrder(assetClass: AssetClass, start: int, raw: seq<RawBar>, raw': seq<RawBar>, n: nat)
    requires start >= 1 && multiset(raw) == multiset(raw') && AlignUpTo(assetClass, start, raw, n).Failure?
    ensures AlignUpTo(assetClass, start, raw', n) == AlignUpTo(assetClass, start, raw, n)
  {
    hide AlignUpTo, BarOn, IsTradingDay;
    FailsExactlyOnGaps(assetClass, start, raw, n);
    FailsExactlyOnGaps(assetClass, start, raw', n);
    var day :| start <= day < start + n && IsGap(assetClass, start, raw, day);
    BarOnIgnoresOrder(raw, raw', day);
    assert IsGap(assetClass, start, raw', day);
    FailureKind(assetClass, start, raw, n);
    FailureKind(assetClass, start, raw', n);
  }

  /** With two different latest bars on a day, bringing the one not shown to the front changes the series. */
  lemma AmbiguousDayMatters(assetClass: AssetClass, start: int, raw: seq<RawBar>, n: nat, day: int)
    returns (raw': seq<RawBar>)
    requires start >= 1 && AlignUpTo(assetClass, start, raw, n).Success?
    requires start <= day < start + n && !Unambiguous(raw, day)
    ensures multiset(raw') == multiset(raw)
            && AlignUpTo(assetClass, start, raw', n) != AlignUpTo(assetClass, start, raw, n)
  {
    hide AlignUpTo, BarOn, IsTradingDay;
    var x, y :| IsLatest(raw, day, x) && IsLatest(raw, day, y) && x != y;
    BarOnIsLatestOf(raw, day);
    var shown := BarOn(raw, day).value;
    var other := if x == shown then y else x;
    var rest := ToFront(raw, other);
    raw' := [other] + rest;
    LatestInAnyOrder(raw, raw', day, other);
    FirstLatestWins(other, rest, day);
    SeriesIsGapless(assetClass, start, raw, n);
    if AlignUpTo(assetClass, start, raw', n) == AlignUpTo(assetClass, start, raw, n) {
      SeriesIsGapless(assetClass, start, raw', n);
      var bars := AlignUpTo(assetClass, start, raw, n).value;
      assert ShowsDay(assetClass, start, raw, bars, day - start)
             && ShowsDay(assetClass, start, raw', bars, day - start);
      assert start + (day - start) == day;
      FreshBarsDiffer(day, shown, other);
    }
  }

  lemma FreshBarsDiffer(day: int, x: RawBar, y: RawBar)
    requires x != y
    ensures FreshBar(day, x) != FreshBar(day, y)
  {
  }

  /** Main result: the order of the bars does not matter if and only if alignment fails, or no day of the range has two
      different bars that both open last. */
  lemma OrderMattersExactly(assetClass: AssetClass, start: int, end: int, raw: seq<RawBar>)
    requires start >= 1
    ensures IgnoresOrder(assetClass, start, end, raw) <==>
            Align(assetClass, start, end, raw).Failure? || NoAmbiguousDay(raw, start, end)
  {
    hide AlignUpTo, BarOn, IsTradingDay, Unambiguous;
    if start <= end {
      var n := end - start + 1;
      if Align(assetClass, start, end, raw).Failure? {
        forall raw' | multiset(raw') == multiset(raw)
          ensures Align(assetClass, start, end, raw') == Align(assetClass, start, end, raw)
        {
          FailureIgnoresOrder(assetClass, start, raw, raw', n);
        }
      } else if NoAmbiguousDay(raw, start, end) {
        forall raw' | multiset(raw') == multiset(raw)
          ensures Align(assetClass, start, end, raw') == Align(assetClass, start, end, raw)
        {
          forall day | start <= day < start + n
            ensures BarOn(raw, day) == BarOn(raw', day)
          {
            BarOnIgnoresOrder(raw, raw', day);
          }
          SameBarsSameSeries(assetClass, start, raw, raw', n);
        }
      } else {
        var day :| start <= day <= end && !Unambiguous(raw, day);
        var raw' := AmbiguousDayMatters(assetClass, start, raw, n, day);
        assert multiset(raw') == multiset(raw)
               && Align(assetClass, start, end, raw') != Align(assetClass, start, end, raw);
      }
    }
  }

  /** Bars with distinct open times, as the service lists them, may come in any order. */
  lemma AlignmentIgnoresOrder(assetClass: AssetClass, start: int, end: int, raw: seq<RawBar>, raw': seq<RawBar>)
    requires start >= 1 && DistinctOpenTimes(raw) && multiset(raw) == multiset(raw')
    ensures Align(assetClass, start, end, raw) == Align(assetClass, start, end, raw')
  {
    hide Align, DistinctOpenTimes, Unambiguous;
    forall day
      ensures Unambiguous(raw, day)
    {
      DistinctAreUnambiguous(raw, day);
    }
    OrderMattersExactly(assetClass, start, end, raw);
  }

  /** The failing input at its smallest: two different bars with one open time, on the only day. */
  lemma EqualOpenTimesMatter(assetClass: AssetClass, x: RawBar, y: RawBar)
    requires x != y && x.openTime == y.openTime && DateOf(x.openTime) >= 1
    ensures var day := DateOf(x.openTime);
            && multiset([x, y]) == multiset([y, x])
            && Align(assetClass, day, day, [x, y]) == Success([FreshBar(day, x)])
            && Align(assetClass, day, day, [y, x]) == Success([FreshBar(day, y)])
            && FreshBar(day, x) != FreshBar(day, y)
  {
    FirstOfTwo(assetClass, x, y);
    FirstOfTwo(assetClass, y, x);
    hide Align;
    FreshBarsDiffer(DateOf(x.openTime), x, y);
  }

  lemma FirstOfTwo(assetClass: AssetClass, x: RawBar, y: RawBar)
    requires x.openTime == y.openTime && DateOf(x.openTime) >= 1
    ensures var day := DateOf(x.openTime);
            Align(assetClass, day, day, [x, y]) == Success([FreshBar(day, x)])
  {
    var day := DateOf(x.openTime);
    hide IsTradingDay;
    assert [x] + [y] == [x, y];
    FirstLatestWins(x, [y], day);
    hide BarOn;
    assert AlignUpTo(assetClass, day, [x, y], 0) == Success([]);
    AlignStep(assetClass, day, [x, y], 0);
    assert [] + [FreshBar(day, x)] == [FreshBar(day, x)];
  }

  /** Main result: no aligned series has more than three stale bars in a row. */
  lemma AtMostThreeStaleInARow(assetClass: AssetClass, start: int, raw: seq<RawBar>, n: nat, i: nat)
    requires start >= 1 && AlignUpTo(assetClass, start, raw, n).Success? && i + 4 <= n
    ensures |AlignUpTo(assetClass, start, raw, n).value| == n
    ensures var bars := AlignUpTo(assetClass, start, raw, n).value;
            !(bars[i].stale && bars[i + 1].stale && bars[i + 2].stale && bars[i + 3].stale)
  {
    hide BarOn, IsTradingDay, AlignUpTo;
    SeriesIsGapless(assetClass, start, raw, n);
    var j := FourDaysContainTradingDay(start + i);
    var bars := AlignUpTo(assetClass, start, raw, n).value;
    assert ShowsDay(assetClass, start, raw, bars, i + j);
    assert start + (i + j) == start + i + j;
  }
}
