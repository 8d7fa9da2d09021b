/** The NASDAQ/NYSE trading calendar (backend/backtest/calendar.py). A date is its proleptic
    Gregorian ordinal, day 1 being January 1 of year 1; `Ordinal` builds it from year, month, day.
    Weekdays count from Monday = 0. */
module Calendar {
  import opened Common

  const MONDAY := 0
  const THURSDAY := 3
  const FRIDAY := 4
  const SATURDAY := 5
  const SUNDAY := 6

  const JUNETEENTH_FIRST_OBSERVED_YEAR := 2022

  // ----- Dates -----

  predicate IsLeap(year: int) {
    year % 4 == 0 && (year % 100 != 0 || year % 400 == 0)
  }

  function LeapDay(year: int): int {
    if IsLeap(year) then 1 else 0
  }

  function DaysBeforeYear(year: int): int {
    365 * (year - 1) + (year - 1) / 4 - (year - 1) / 100 + (year - 1) / 400
  }

  function DaysBeforeMonth(year: int, month: int): int {
    match month
    case 1 => 0
    case 2 => 31
    case 3 => 59 + LeapDay(year)
    case 4 => 90 + LeapDay(year)
    case 5 => 120 + LeapDay(year)
    case 6 => 151 + LeapDay(year)
    case 7 => 181 + LeapDay(year)
    case 8 => 212 + LeapDay(year)
    case 9 => 243 + LeapDay(year)
    case 10 => 273 + LeapDay(year)
    case 11 => 304 + LeapDay(year)
    case 12 => 334 + LeapDay(year)
    case _ => 365 + LeapDay(year)
  }

  function DaysInMonth(year: int, month: int): int
    requires 1 <= month <= 12
  {
    DaysBeforeMonth(year, month + 1) - DaysBeforeMonth(year, month)
  }

  function Ordinal(year: int, month: int, day: int): int {
    DaysBeforeYear(year) + DaysBeforeMonth(year, month) + day
  }

  predicate ValidDate(year: int, month: int, day: int) {
    1 <= month <= 12 && 1 <= day <= DaysInMonth(year, month)
  }

  function Weekday(date: int): int {
    (date + 6) % 7
  }

  predicate IsWeekend(date: int) {
    Weekday(date) == SATURDAY || Weekday(date) == SUNDAY
  }

  lemma FourthYears(year: int)
    ensures year / 4 == (year - 1) / 4 + if year % 4 == 0 then 1 else 0
  {
  }

  lemma Centuries(year: int)
    ensures year / 100 == (year - 1) / 100 + if year % 100 == 0 then 1 else 0
  {
  }

  lemma Cycles(year: int)
    ensures year / 400 == (year - 1) / 400 + if year % 400 == 0 then 1 else 0
  {
  }

  lemma CyclesAreCenturies(year: int)
    ensures year % 400 == 0 ==> year % 100 == 0
    ensures year % 100 == 0 ==> year % 4 == 0
  {
  }

  /** The leap years are the multiples of 4, less those of 100, plus those of 400. */
  lemma LeapDayCount(year: int)
    ensures LeapDay(year)
         == (if year % 4 == 0 then 1 else 0) - (if year % 100 == 0 then 1 else 0) + (if year % 400 == 0 then 1 else 0)
  {
    CyclesAreCenturies(year);
  }

  /** A year has 365 days, or 366 if it is a leap year. */
  lemma YearLength(year: int)
    ensures DaysBeforeYear(year + 1) == DaysBeforeYear(year) + 365 + LeapDay(year)
  {
    hide LeapDay;
    FourthYears(year);
    Centuries(year);
    Cycles(year);
    LeapDayCount(year);
  }

  /** The year of a date, searched from `from` on. */
  function YearFrom(date: int, from: int): (year: int)
    requires DaysBeforeYear(from) < date
    ensures DaysBeforeYear(year) < date <= DaysBeforeYear(year + 1)
    decreases date - DaysBeforeYear(from)
  {
    YearLength(from);
    if date <= DaysBeforeYear(from + 1) then from else YearFrom(date, from + 1)
  }

  /** `day.year`. */
  function YearOf(date: int): int
    requires date >= 1
  {
    YearFrom(date, 1)
  }

  lemma {:induction false} YearsInOrder(y: int, z: int)
    requires y <= z
    ensures DaysBeforeYear(z) >= DaysBeforeYear(y) + 365 * (z - y)
    decreases z - y
  {
    if y < z {
      YearsInOrder(y, z - 1);
      YearLength(z - 1);
    }
  }

  // ----- Rules -----

  function NthWeekdayOfMonth(year: int, month: int, weekday: int, n: int): int {
    var first := Ordinal(year, month, 1);
    first + (weekday - Weekday(first)) % 7 + 7 * (n - 1)
  }

  function LastWeekdayOfMonth(year: int, month: int, weekday: int): int {
    var last := if month == 12 then Ordinal(year + 1, 1, 1) - 1 else Ordinal(year, month + 1, 1) - 1;
    last - (Weekday(last) - weekday) % 7
  }

  function ShiftWeekendObservance(holiday: int): int {
    if Weekday(holiday) == SATURDAY then holiday - 1
    else if Weekday(holiday) == SUNDAY then holiday + 1
    else holiday
  }

  /** The date falls on the weekday, and on the n-th one of its month: exactly n - 1 come before it. */
  lemma NthWeekdayIsNth(year: int, month: int, weekday: int, n: int)
    requires 0 <= weekday < 7
    ensures var date := NthWeekdayOfMonth(year, month, weekday, n);
            && Weekday(date) == weekday
            && Ordinal(year, month, 7 * (n - 1) + 1) <= date <= Ordinal(year, month, 7 * n)
  {
    hide DaysBeforeYear, DaysBeforeMonth, Weekday;
    StepForwardFinds(Ordinal(year, month, 1), weekday, n - 1);
  }

  lemma StepForwardFinds(first: int, weekday: int, weeks: int)
    requires 0 <= weekday < 7
    ensures Weekday(first + (weekday - Weekday(first)) % 7 + 7 * weeks) == weekday
  {
    var q, w := (first + 6) / 7, Weekday(first);
    assert first + 6 == 7 * q + w;
    assert (weekday - w) % 7 == if weekday >= w then weekday - w else weekday - w + 7;
    assert first + (weekday - w) % 7 + 7 * weeks + 6 == 7 * (q + weeks + if weekday >= w then 0 else 1) + weekday;
  }

  /** The date falls on the weekday, and on none of the days left in the month after it does it again. */
  lemma LastWeekdayIsLast(year: int, month: int, weekday: int)
    requires 0 <= weekday < 7 && 1 <= month <= 12
    ensures var date, last := LastWeekdayOfMonth(year, month, weekday), Ordinal(year, month, DaysInMonth(year, month));
            && Weekday(date) == weekday && last - 6 <= date <= last
            && forall later :: date < later <= last ==> Weekday(later) != weekday
  {
    YearLength(year);
    var last := Ordinal(year, month, DaysInMonth(year, month));
    assert month == 12 ==> last == Ordinal(year + 1, 1, 1) - 1;
    assert month < 12 ==> last == Ordinal(year, month + 1, 1) - 1;
    assert LastWeekdayOfMonth(year, month, weekday) == StepBack(last, weekday);
    hide LastWeekdayOfMonth, DaysBeforeYear, IsLeap, Ordinal, StepBack, Weekday;
    StepBackFinds(last, weekday, last);
    forall later | StepBack(last, weekday) < later <= last
      ensures Weekday(later) != weekday
    {
      StepBackFinds(last, weekday, later);
    }
  }

  function StepBack(last: int, weekday: int): int {
    last - (Weekday(last) - weekday) % 7
  }

  lemma StepBackFinds(last: int, weekday: int, later: int)
    requires 0 <= weekday < 7 && later <= last
    ensures Weekday(StepBack(last, weekday)) == weekday && last - 6 <= StepBack(last, weekday) <= last
    ensures StepBack(last, weekday) < later ==> Weekday(later) != weekday
  {
    var q, w := (last + 6) / 7, Weekday(last);
    var date := StepBack(last, weekday);
    assert last + 6 == 7 * q + w;
    assert date + 6 == if w >= weekday then 7 * q + weekday else 7 * (q - 1) + weekday;
    if date < later && Weekday(later) == weekday {
      WholeWeeksApart(date, later);
    }
  }

  lemma WholeWeeksApart(x: int, y: int)
    requires Weekday(x) == Weekday(y) && x < y
    ensures y - x >= 7
  {
    assert y - x == 7 * ((y + 6) / 7 - (x + 6) / 7);
  }

  /** Observance never falls on a weekend and moves a holiday by at most a day, never on a working day. */
  lemma ObservedOnWorkingDay(holiday: int)
    ensures !IsWeekend(ShiftWeekendObservance(holiday))
    ensures holiday - 1 <= ShiftWeekendObservance(holiday) <= holiday + 1
    ensures !IsWeekend(holiday) ==> ShiftWeekendObservance(holiday) == holiday
  {
  }

  // ----- Easter -----

  /** The intermediate values of the Meeus/Jones/Butcher computation that decide the date. */
  datatype Computus = Computus(a: int, h: int, l: int, m: int)

  function ComputusOf(year: int): Computus {
    var a := year % 19;
    var b := year / 100;
    var c := year % 100;
    var d := b / 4;
    var e := b % 4;
    var f := (b + 8) / 25;
    var g := (b - f + 1) / 3;
    var h := (19 * a + b - d - g + 15) % 30;
    var i := c / 4;
    var k := c % 4;
    var l := (32 + 2 * e + 2 * i - h - k) % 7;
    Computus(a, h, l, (a + 11 * h + 22 * l) / 451)
  }

  function EasterMonth(year: int): int {
    var c := ComputusOf(year);
    (c.h + c.l - 7 * c.m + 114) / 31
  }

  function EasterDay(year: int): int {
    var c := ComputusOf(year);
    (c.h + c.l - 7 * c.m + 114) % 31 + 1
  }

  /** `_easter_sunday`. */
  function EasterSunday(year: int): int {
    Ordinal(year, EasterMonth(year), EasterDay(year))
  }

  lemma ComputusBounds(year: int)
    ensures var c := ComputusOf(year);
            0 <= c.a < 19 && 0 <= c.h < 30 && 0 <= c.l < 7 && 0 <= c.h + c.l - 7 * c.m <= 34
  {
    var c := ComputusOf(year);
    hide ComputusOf;
    ComputusRanges(year);
    assert 0 <= c.a + 11 * c.h + 22 * c.l <= 469;
  }

  lemma ComputusRanges(year: int)
    ensures var c := ComputusOf(year);
            0 <= c.a < 19 && 0 <= c.h < 30 && 0 <= c.l < 7 && c.m == (c.a + 11 * c.h + 22 * c.l) / 451
  {
  }

  /** Easter counted in days from March 22. */
  lemma EasterFromMarch(year: int)
    ensures var c := ComputusOf(year);
            && ValidDate(year, EasterMonth(year), EasterDay(year))
            && EasterSunday(year) == Ordinal(year, 3, 22) + c.h + c.l - 7 * c.m
  {
    var c := ComputusOf(year);
    ComputusBounds(year);
    hide ComputusOf, DaysBeforeYear, IsLeap;
    var n := c.h + c.l - 7 * c.m;
    assert n <= 9 ==> EasterMonth(year) == 3 && EasterDay(year) == 22 + n;
    assert n > 9 ==> EasterMonth(year) == 4 && EasterDay(year) == n - 9;
  }

  /** March 22 of a year split as 400 d + 100 e + 4 i + k. */
  lemma MarchOrdinal(d: int, e: int, i: int, k: int)
    requires 0 <= e < 4 && 0 <= i < 25 && 0 <= k < 4
    ensures var year := 400 * d + 100 * e + 4 * i + k;
            Ordinal(year, 3, 22) == 365 * year + 24 * (4 * d + e) + i + d - 284
  {
    var year := 400 * d + 100 * e + 4 * i + k;
    YearLength(year);
    assert DaysBeforeYear(year + 1) == 365 * year + year / 4 - year / 100 + year / 400;
    assert year / 4 == 100 * d + 25 * e + i;
    assert year / 100 == 4 * d + e;
    assert year / 400 == d;
  }

  lemma SevenTimes(x: int, n: int)
    requires x == 7 * n
    ensures x % 7 == 0
  {
  }

  lemma BySeven(x: int) returns (q: int)
    ensures x == 7 * q + x % 7
  {
    q := x / 7;
  }

  /** The days from the epoch to Easter, counted in weeks: l is what is left of the division by 7 whose quotient
      is q. */
  lemma SundayCount(march: int, d: int, e: int, i: int, k: int, h: int, l: int, q: int)
    requires march == 365 * (400 * d + 100 * e + 4 * i + k) + 24 * (4 * d + e) + i + d - 284
    requires 32 + 2 * e + 2 * i - h - k == 7 * q + l
    ensures march + h + l == 7 * (20871 * d + 5218 * e + 209 * i + 52 * k - 36 - q)
  {
  }

  lemma ComputusSplit(year: int) returns (d: int, e: int, i: int, k: int)
    ensures year == 400 * d + 100 * e + 4 * i + k && 0 <= e < 4 && 0 <= i < 25 && 0 <= k < 4
    ensures ComputusOf(year).l == (32 + 2 * e + 2 * i - ComputusOf(year).h - k) % 7
  {
    var b, c := year / 100, year % 100;
    d, e, i, k := b / 4, b % 4, c / 4, c % 4;
    assert year == 100 * b + c && b == 4 * d + e && c == 4 * i + k;
  }

  /** The day count modulo 7 makes March 22 + h + l a Sunday. */
  lemma SundaySum(year: int)
    ensures var c := ComputusOf(year);
            (Ordinal(year, 3, 22) + c.h + c.l) % 7 == 0
  {
    var d, e, i, k := ComputusSplit(year);
    hide ComputusOf, Ordinal;
    var h, l := ComputusOf(year).h, ComputusOf(year).l;
    var q := BySeven(32 + 2 * e + 2 * i - h - k);
    MarchOrdinal(d, e, i, k);
    SundayCount(Ordinal(year, 3, 22), d, e, i, k, h, l, q);
    SevenTimes(Ordinal(year, 3, 22) + h + l, 20871 * d + 5218 * e + 209 * i + 52 * k - 36 - q);
  }

  /** Main result: for every year the computed Easter is a valid date, a Sunday, between March 22 and
      April 25; so Good Friday is a Friday between March 20 and April 23. */
  lemma EasterIsSunday(year: int)
    ensures ValidDate(year, EasterMonth(year), EasterDay(year))
    ensures Weekday(EasterSunday(year)) == SUNDAY
    ensures Ordinal(year, 3, 22) <= EasterSunday(year) <= Ordinal(year, 4, 25)
    ensures Weekday(EasterSunday(year) - 2) == FRIDAY
  {
    ComputusBounds(year);
    EasterFromMarch(year);
    SundaySum(year);
    var c := ComputusOf(year);
    var n := Ordinal(year, 3, 22) + c.h + c.l;
    hide ComputusOf, EasterSunday, DaysBeforeYear;
    assert EasterSunday(year) == n - 7 * c.m;
    assert (n - 7 * c.m) % 7 == 0;
  }

  /** The Gregorian paschal full moon: the lunar table with its solar and lunar corrections by century,
      the last date of the cycle moved back by one, and the next to last in the later cycle years. */
  function PaschalFullMoon(year: int): int {
    var golden, century := year % 19, year / 100;
    var table := (19 * golden + 15 + (century - century / 4) - (8 * century + 13) / 25) % 30;
    Ordinal(year, 3, 21) + table - if table == 29 || (table == 28 && golden > 10) then 1 else 0
  }

  lemma LunarCorrection(b: int)
    ensures (b - (b + 8) / 25 + 1) / 3 == (8 * b + 13) / 25
  {
    var q, r := b / 25, b % 25;
    assert b == 25 * q + r;
    assert (b + 8) / 25 == q + if r >= 17 then 1 else 0;
    assert (8 * b + 13) / 25 == 8 * q + (8 * r + 13) / 25;
    assert (b - (b + 8) / 25 + 1) / 3 == 8 * q + (r + 1 - if r >= 17 then 1 else 0) / 3;
  }

  lemma FullMoonInComputus(year: int)
    ensures var c := ComputusOf(year);
            PaschalFullMoon(year) == Ordinal(year, 3, 21) + c.h - if c.h == 29 || (c.h == 28 && c.a > 10) then 1 else 0
  {
    LunarCorrection(year / 100);
  }

  /** Easter, counted from March 22, comes one to seven days after the full moon, counted from March 21. */
  lemma WeekAfterMoon(a: int, h: int, l: int, m: int)
    requires 0 <= a < 19 && 0 <= h < 30 && 0 <= l < 7 && m == (a + 11 * h + 22 * l) / 451
    ensures 1 <= l + 1 - 7 * m + (if h == 29 || (h == 28 && a > 10) then 1 else 0) <= 7
  {
  }

  /** Main result: for every year the computed date is Easter: the first Sunday after the paschal full moon. */
  lemma EasterFollowsFullMoon(year: int)
    ensures Weekday(EasterSunday(year)) == SUNDAY
    ensures PaschalFullMoon(year) < EasterSunday(year) <= PaschalFullMoon(year) + 7
  {
    hide ComputusOf, PaschalFullMoon, EasterSunday, DaysBeforeYear, IsLeap;
    EasterIsSunday(year);
    EasterFromMarch(year);
    FullMoonInComputus(year);
    ComputusRanges(year);
    var c := ComputusOf(year);
    WeekAfterMoon(c.a, c.h, c.l, c.m);
    hide Weekday;
  }

  // ----- Holidays -----

  function NewYearsDayObserved(year: int): Option<int> {
    var day := Ordinal(year, 1, 1);
    if Weekday(day) == SATURDAY then None
    else if Weekday(day) == SUNDAY then Some(day + 1)
    else Some(day)
  }

  /** The k-th observed closure of a year in calendar order, if there is one. */
  function Holiday(year: int, k: nat): Option<int> {
    match k
    case 0 => NewYearsDayObserved(year)
    case 1 => Some(ShiftWeekendObservance(NthWeekdayOfMonth(year, 1, MONDAY, 3)))
    case 2 => Some(ShiftWeekendObservance(NthWeekdayOfMonth(year, 2, MONDAY, 3)))
    case 3 => Some(EasterSunday(year) - 2)
    case 4 => Some(ShiftWeekendObservance(LastWeekdayOfMonth(year, 5, MONDAY)))
    case 5 => if year >= JUNETEENTH_FIRST_OBSERVED_YEAR then Some(ShiftWeekendObservance(Ordinal(year, 6, 19)))
              else None
    case 6 => Some(ShiftWeekendObservance(Ordinal(year, 7, 4)))
    case 7 => Some(ShiftWeekendObservance(NthWeekdayOfMonth(year, 9, MONDAY, 1)))
    case 8 => Some(NthWeekdayOfMonth(year, 11, THURSDAY, 4))
    case 9 => Some(ShiftWeekendObservance(Ordinal(year, 12, 25)))
    case _ => None
  }

  ghost predicate IsHoliday(year: int, date: int) {
    exists k :: 0 <= k < 10 && Holiday(year, k) == Some(date)
  }

  /** `_holidays_for_year`. */
  method HolidaysForYear(year: int) returns (holidays: set<int>)
    ensures forall date :: date in holidays <==> IsHoliday(year, date)
  {
    hide NewYearsDayObserved, NthWeekdayOfMonth, LastWeekdayOfMonth, EasterSunday, Ordinal, ShiftWeekendObservance;
    holidays := {};
    var newYears := NewYearsDayObserved(year);
    if newYears.Some? {
      holidays := holidays + {newYears.value};
    }
    holidays := holidays + {ShiftWeekendObservance(NthWeekdayOfMonth(year, 1, MONDAY, 3))};
    holidays := holidays + {ShiftWeekendObservance(NthWeekdayOfMonth(year, 2, MONDAY, 3))};
    holidays := holidays + {EasterSunday(year) - 2};
    holidays := holidays + {ShiftWeekendObservance(LastWeekdayOfMonth(year, 5, MONDAY))};
    if year >= JUNETEENTH_FIRST_OBSERVED_YEAR {
      holidays := holidays + {ShiftWeekendObservance(Ordinal(year, 6, 19))};
    }
    holidays := holidays + {ShiftWeekendObservance(Ordinal(year, 7, 4))};
    holidays := holidays + {ShiftWeekendObservance(NthWeekdayOfMonth(year, 9, MONDAY, 1))};
    holidays := holidays + {NthWeekdayOfMonth(year, 11, THURSDAY, 4)};
    holidays := holidays + {ShiftWeekendObservance(Ordinal(year, 12, 25))};
    forall date | date in holidays
      ensures IsHoliday(year, date)
    {
      if Holiday(year, 0) == Some(date) {
      } else if Holiday(year, 1) == Some(date) {
      } else if Holiday(year, 2) == Some(date) {
      } else if Holiday(year, 3) == Some(date) {
      } else if Holiday(year, 4) == Some(date) {
      } else if Holiday(year, 5) == Some(date) {
      } else if Holiday(year, 6) == Some(date) {
      } else if Holiday(year, 7) == Some(date) {
      } else if Holiday(year, 8) == Some(date) {
      } else {
        assert Holiday(year, 9) == Some(date);
      }
    }
  }

  /** `is_us_equity_trading_day`. */
  ghost predicate IsTradingDay(date: int)
    requires date >= 1
  {
    !IsWeekend(date) && !IsHoliday(YearOf(date), date)
  }

  method IsUsEquityTradingDay(date: int) returns (trading: bool)
    requires date >= 1
    ensures trading <==> IsTradingDay(date)
  {
    if Weekday(date) == SATURDAY || Weekday(date) == SUNDAY {
      return false;
    }
    var holidays := HolidaysForYear(YearOf(date));
    return date !in holidays;
  }

  // ----- Spacing -----

  /** The day of the year before which the k-th closure never falls, and the day after which it never does. */
  function Earliest(year: int, k: nat): int {
    match k
    case 0 => 1
    case 1 => 15
    case 2 => 46
    case 3 => 79 + LeapDay(year)
    case 4 => 145 + LeapDay(year)
    case 5 => 169 + LeapDay(year)
    case 6 => 184 + LeapDay(year)
    case 7 => 244 + LeapDay(year)
    case 8 => 326 + LeapDay(year)
    case _ => 358 + LeapDay(year)
  }

  function Latest(year: int, k: nat): int {
    match k
    case 0 => 2
    case 1 => 21
    case 2 => 52
    case 3 => 113 + LeapDay(year)
    case 4 => 151 + LeapDay(year)
    case 5 => 171 + LeapDay(year)
    case 6 => 186 + LeapDay(year)
    case 7 => 250 + LeapDay(year)
    case 8 => 332 + LeapDay(year)
    case _ => 360 + LeapDay(year)
  }

  /** Every observed closure is a working day inside its window of its own year. */
  lemma HolidayInWindow(year: int, k: nat)
    requires k < 10 && Holiday(year, k).Some?
    ensures var date := Holiday(year, k).value;
            && !IsWeekend(date)
            && DaysBeforeYear(year) + Earliest(year, k) <= date <= DaysBeforeYear(year) + Latest(year, k)
  {
    hide DaysBeforeYear, EasterSunday, IsLeap, NthWeekdayOfMonth, LastWeekdayOfMonth, ShiftWeekendObservance, Weekday;
    match k
    case 0 => NewYearsInWindow(year);
    case 1 => MondayInWindow(year, 1, 3);
    case 2 => MondayInWindow(year, 2, 3);
    case 3 => EasterIsSunday(year);
    case 4 =>
      LastWeekdayIsLast(year, 5, MONDAY);
      ObservedOnWorkingDay(LastWeekdayOfMonth(year, 5, MONDAY));
    case 5 => ObservedOnWorkingDay(Ordinal(year, 6, 19));
    case 6 => ObservedOnWorkingDay(Ordinal(year, 7, 4));
    case 7 => MondayInWindow(year, 9, 1);
    case 8 => NthWeekdayIsNth(year, 11, THURSDAY, 4);
    case 9 => ObservedOnWorkingDay(Ordinal(year, 12, 25));
  }

  lemma NewYearsInWindow(year: int)
    ensures NewYearsDayObserved(year).Some? ==>
              && !IsWeekend(NewYearsDayObserved(year).value)
              && DaysBeforeYear(year) + 1 <= NewYearsDayObserved(year).value <= DaysBeforeYear(year) + 2
  {
    hide DaysBeforeYear, IsLeap;
  }

  lemma MondayInWindow(year: int, month: int, n: int)
    ensures var date := ShiftWeekendObservance(NthWeekdayOfMonth(year, month, MONDAY, n));
            && !IsWeekend(date)
            && Ordinal(year, month, 7 * (n - 1) + 1) <= date <= Ordinal(year, month, 7 * n)
  {
    hide DaysBeforeYear, IsLeap, NthWeekdayOfMonth, ShiftWeekendObservance, Weekday;
    NthWeekdayIsNth(year, month, MONDAY, n);
    ObservedOnWorkingDay(NthWeekdayOfMonth(year, month, MONDAY, n));
  }

  /** Every window starts in its year and ends at least five days before the next. */
  lemma WindowInYear(year: int, k: nat)
    requires k < 10
    ensures 1 <= Earliest(year, k) && Latest(year, k) <= 360 + LeapDay(year)
  {
    hide IsLeap;
  }

  /** The window of the k-th closure starts at least six days after that of any earlier one ends. */
  lemma {:induction false} WindowsInOrder(year: int, k: nat, k': nat)
    requires k < k' < 10
    ensures Latest(year, k) + 6 <= Earliest(year, k')
    decreases k'
  {
    hide IsLeap;
    if k < k' - 1 {
      WindowsInOrder(year, k, k' - 1);
    }
  }

  /** Two different closures of any years are at least six days apart. */
  lemma HolidaysApart(year: int, k: nat, year': int, k': nat)
    requires k < 10 && k' < 10 && Holiday(year, k).Some? && Holiday(year', k').Some?
    requires year < year' || (year == year' && k < k')
    ensures Holiday(year', k').value - Holiday(year, k).value >= 6
  {
    hide Holiday, DaysBeforeYear, LeapDay, Earliest, Latest;
    HolidayInWindow(year, k);
    HolidayInWindow(year', k');
    if year < year' {
      YearLength(year);
      YearsInOrder(year + 1, year');
      WindowInYear(year, k);
      WindowInYear(year', k');
    } else {
      WindowsInOrder(year, k, k');
    }
  }

  lemma HolidayInYear(year: int, date: int)
    requires IsHoliday(year, date)
    ensures DaysBeforeYear(year) < date <= DaysBeforeYear(year + 1)
  {
    hide Holiday, DaysBeforeYear, IsLeap;
    var k :| 0 <= k < 10 && Holiday(year, k) == Some(date);
    HolidayInWindow(year, k);
    YearLength(year);
  }

  /** Main result: observed closures stay inside their own year, and any two different ones, of the
      same year or not, are more than three days apart. */
  lemma ClosuresSpaced(year: int, date: int, year': int, date': int)
    requires IsHoliday(year, date) && IsHoliday(year', date') && date < date'
    ensures DaysBeforeYear(year) < date <= DaysBeforeYear(year + 1)
    ensures date' - date > 3
  {
    hide Holiday, DaysBeforeYear, IsLeap;
    HolidayInYear(year, date);
    var k :| 0 <= k < 10 && Holiday(year, k) == Some(date);
    var k' :| 0 <= k' < 10 && Holiday(year', k') == Some(date');
    hide IsHoliday;
    if year < year' || (year == year' && k < k') {
      HolidaysApart(year, k, year', k');
    } else if year' < year || k' < k {
      HolidaysApart(year', k', year, k);
    }
  }

  /** Main result: any four consecutive days contain a trading day. */
  lemma FourDaysContainTradingDay(date: int) returns (j: nat)
    requires date >= 1
    ensures j < 4 && IsTradingDay(date + j)
  {
    hide IsHoliday, YearOf;
    var first, second := TwoWorkingDays(date);
    if IsTradingDay(date + first) {
      return first;
    }
    if !IsTradingDay(date + second) {
      ClosuresSpaced(YearOf(date + first), date + first, YearOf(date + second), date + second);
    }
    return second;
  }

  /** Any four consecutive days contain two that are not on a weekend. */
  lemma TwoWorkingDays(date: int) returns (first: nat, second: nat)
    ensures first < second < 4 && !IsWeekend(date + first) && !IsWeekend(date + second)
  {
    var w := Weekday(date);
    if w <= 3 {
      return 0, 1;
    } else if w == 4 {
      return 0, 3;
    } else {
      return 2, 3;
    }
  }
}
