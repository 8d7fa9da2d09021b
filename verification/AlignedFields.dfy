/** What an aligned series shows, on the fields of its bars and of the raw bars, and exactly when there is none. */
module AlignedFields {
  import opened Common
  import opened Domain
  import opened Alignment
  import Calendar

  /** Opened on the UTC day, in microseconds. */
  predicate OpensOn(bar: RawBar, day: int) {
    day * 86_400_000_000 <= bar.openTime < (day + 1) * 86_400_000_000
  }

  /** Opened on the day, and no bar of the day opened later. */
  predicate LastOn(raw: seq<RawBar>, day: int, bar: RawBar) {
    bar in raw && OpensOn(bar, day)
    && forall i :: 0 <= i < |raw| && OpensOn(raw[i], day) ==> raw[i].openTime <= bar.openTime
  }

  predicate Traded(raw: seq<RawBar>, day: int) {
    exists i :: 0 <= i < |raw| && OpensOn(raw[i], day)
  }

  /** The bar repeats a raw bar of its day. */
  predicate Repeats(shown: AlignedBar, bar: RawBar) {
    && shown.open == bar.open && shown.high == bar.high && shown.low == bar.low && shown.close == bar.close
    && shown.volume == bar.volume && !shown.stale && shown.sourceOpenTime == Some(bar.openTime)
  }

  /** The bar stands still at a close. */
  predicate StandsAt(shown: AlignedBar, close: real) {
    && shown.open == close && shown.high == close && shown.low == close && shown.close == close
    && shown.volume == 0.0 && shown.stale && shown.sourceOpenTime == None
  }

  lemma OpenDay(bar: RawBar, day: int)
    ensures OpensOn(bar, day) <==> DateOf(bar.openTime) == day
  {
  }

  lemma LatestIsLast(raw: seq<RawBar>, day: int, bar: RawBar)
    ensures LastOn(raw, day, bar) <==> IsLatest(raw, day, bar)
  {
    hide OpensOn, DateOf;
    OpenDay(bar, day);
    forall i | 0 <= i < |raw|
      ensures OpensOn(raw[i], day) <==> DateOf(raw[i].openTime) == day
    {
      OpenDay(raw[i], day);
    }
  }

  lemma TradedIsFound(raw: seq<RawBar>, day: int)
    ensures Traded(raw, day) <==> BarOn(raw, day).Some?
    ensures BarOn(raw, day).Some? ==> LastOn(raw, day, BarOn(raw, day).value)
  {
    BarOnIsLatestOf(raw, day);
    BarOnIsLatest(raw, day);
    hide BarOn, IsLatest, OpensOn, DateOf;
    forall i | 0 <= i < |raw|
      ensures OpensOn(raw[i], day) <==> DateOf(raw[i].openTime) == day
    {
      OpenDay(raw[i], day);
    }
    if BarOn(raw, day).Some? {
      var bar := BarOn(raw, day).value;
      LatestIsLast(raw, day, bar);
      var i :| 0 <= i < |raw| && raw[i] == bar;
    }
  }

  /** Main result: an aligned series has one bar a day. On a day with raw bars it repeats the fields of the last one;
      on any other it stands at the close before, and that day is neither a crypto asset's nor a trading day. */
  lemma SeriesShows(assetClass: AssetClass, start: int, end: int, raw: seq<RawBar>, i: nat)
    requires start >= 1 && Align(assetClass, start, end, raw).Success? && i <= end - start
    ensures var bars, day := Align(assetClass, start, end, raw).value, start + i;
            && |bars| == end - start + 1 && bars[i].tradingDay == day
            && (Traded(raw, day) ==> exists bar :: LastOn(raw, day, bar) && Repeats(bars[i], bar))
            && (!Traded(raw, day) ==>
                  && i > 0 && StandsAt(bars[i], bars[i - 1].close)
                  && assetClass != Crypto && !Calendar.IsTradingDay(day))
  {
    SeriesIsGapless(assetClass, start, raw, end - start + 1);
    TradedIsFound(raw, start + i);
    hide AlignUpTo, BarOn, Calendar.IsTradingDay, Traded, LastOn;
    var bars := Align(assetClass, start, end, raw).value;
    assert ShowsDay(assetClass, start, raw, bars, i);
    if BarOn(raw, start + i).Some? {
      assert Repeats(bars[i], BarOn(raw, start + i).value);
    }
  }

  /** Main result: there is no series exactly when the range is empty, or its first day, or a trading day of it, or for
      crypto any day of it, has no raw bar. */
  lemma FailsWithout(assetClass: AssetClass, start: int, end: int, raw: seq<RawBar>)
    requires start >= 1
    ensures Align(assetClass, start, end, raw).Failure?
            <==> start > end
                 || exists day :: start <= day <= end && Missing(assetClass, start, raw, day)
  {
    if start <= end {
      FailsExactlyOnGaps(assetClass, start, raw, end - start + 1);
      hide AlignUpTo, IsGap, Missing;
      forall day | start <= day <= end
        ensures IsGap(assetClass, start, raw, day) <==> Missing(assetClass, start, raw, day)
      {
        GapIsMissing(assetClass, start, raw, day);
      }
    }
  }

  ghost predicate Missing(assetClass: AssetClass, start: int, raw: seq<RawBar>, day: int)
    requires 1 <= start <= day
  {
    !Traded(raw, day) && (day == start || assetClass == Crypto || Calendar.IsTradingDay(day))
  }

  lemma GapIsMissing(assetClass: AssetClass, start: int, raw: seq<RawBar>, day: int)
    requires 1 <= start <= day
    ensures IsGap(assetClass, start, raw, day) <==> Missing(assetClass, start, raw, day)
  {
    TradedIsFound(raw, day);
    hide BarOn, Traded, Calendar.IsTradingDay;
  }
}
