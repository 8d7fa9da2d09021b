/** Which weekdays the exchange is closed on, by calendar facts alone: month, day, weekday and the paschal full moon.
    Weekdays are counted from Monday = 0. */
module TradingDays {
  import opened Common
  import opened Calendar

  /** A holiday on a fixed date: closed on that date, on the Friday before a Saturday one, and on the Monday after a
      Sunday one. */
  predicate Observes(month: int, day: int, m: int, d: int, weekday: int) {
    m == month && (d == day || (d == day - 1 && weekday == 4) || (d == day + 1 && weekday == 0))
  }

  /** The Friday two days before the first Sunday after the paschal full moon. */
  predicate IsGoodFriday(year: int, date: int) {
    Weekday(date) == 4 && PaschalFullMoon(year) < date + 2 <= PaschalFullMoon(year) + 7
  }

  /** The k-th kind of closure, for a day of the year that is not on a weekend. */
  predicate ClosedFor(k: nat, year: int, m: int, d: int) {
    var weekday := Weekday(Ordinal(year, m, d));
    match k
    case 0 => m == 1 && (d == 1 || (d == 2 && weekday == 0))
    case 1 => m == 1 && 15 <= d <= 21 && weekday == 0
    case 2 => m == 2 && 15 <= d <= 21 && weekday == 0
    case 3 => IsGoodFriday(year, Ordinal(year, m, d))
    case 4 => m == 5 && 25 <= d <= 31 && weekday == 0
    case 5 => year >= 2022 && Observes(6, 19, m, d, weekday)
    case 6 => Observes(7, 4, m, d, weekday)
    case 7 => m == 9 && 1 <= d <= 7 && weekday == 0
    case 8 => m == 11 && 22 <= d <= 28 && weekday == 3
    case 9 => Observes(12, 25, m, d, weekday)
    case _ => false
  }

  // ----- Dates in order -----

  lemma MonthsInOrder(year: int, m: int, n: int)
    requires 1 <= m < n <= 13
    ensures DaysBeforeMonth(year, n) >= DaysBeforeMonth(year, m + 1)
    decreases n - m
  {
    hide IsLeap;
    if m + 1 < n {
      MonthsInOrder(year, m + 1, n);
    }
  }

  /** A date lies between two days of a month exactly when it is in that month and between them. */
  lemma InWindow(year: int, m: int, d: int, month: int, lo: int, hi: int)
    requires ValidDate(year, m, d) && 1 <= month <= 12 && 1 <= lo && hi <= DaysInMonth(year, month)
    ensures Ordinal(year, month, lo) <= Ordinal(year, m, d) <= Ordinal(year, month, hi) <==> m == month && lo <= d <= hi
  {
    hide DaysBeforeYear, IsLeap;
    if m < month {
      MonthsInOrder(year, m, month);
    } else if month < m {
      MonthsInOrder(year, month, m);
    }
    hide DaysBeforeMonth;
  }

  lemma ShortMonth(year: int, month: int)
    requires 1 <= month <= 12
    ensures DaysInMonth(year, month) >= 28
    ensures month in {1, 5, 7, 12} ==> DaysInMonth(year, month) == 31
    ensures month == 6 ==> DaysInMonth(year, month) == 30
  {
    hide IsLeap;
  }

  /** A date lies in the year it is given in. */
  lemma YearOfDate(year: int, m: int, d: int)
    requires ValidDate(year, m, d) && Ordinal(year, m, d) >= 1
    ensures YearOf(Ordinal(year, m, d)) == year
  {
    var date := Ordinal(year, m, d);
    hide DaysBeforeYear, IsLeap;
    MonthsInOrder(year, m, 13);
    YearLength(year);
    var found := YearOf(date);
    WithinYear(year, m, d);
    assert DaysBeforeYear(found) < date <= DaysBeforeYear(found + 1);
    if found < year {
      YearsInOrder(found + 1, year);
    } else if year < found {
      YearsInOrder(year + 1, found);
    }
  }

  lemma WithinYear(year: int, m: int, d: int)
    requires ValidDate(year, m, d)
    ensures DaysBeforeYear(year) < Ordinal(year, m, d) <= DaysBeforeYear(year) + 365 + LeapDay(year)
  {
    hide DaysBeforeYear, IsLeap;
  }

  lemma SameWeekday(x: int, y: int)
    requires Weekday(x) == Weekday(y) && -7 < x - y < 7
    ensures x == y
  {
    if x < y {
      WholeWeeksApart(x, y);
    } else if y < x {
      WholeWeeksApart(y, x);
    }
  }

  // ----- The kinds of closure -----

  lemma NthExactly(year: int, m: int, d: int, month: int, weekday: int, n: int)
    requires ValidDate(year, m, d) && 1 <= month <= 12 && 0 <= weekday < 7 && 1 <= n <= 4
    ensures Ordinal(year, m, d) == NthWeekdayOfMonth(year, month, weekday, n)
            <==> m == month && 7 * n - 6 <= d <= 7 * n && Weekday(Ordinal(year, m, d)) == weekday
  {
    hide NthWeekdayOfMonth, Weekday, DaysBeforeMonth, DaysBeforeYear;
    NthWeekdayIsNth(year, month, weekday, n);
    ShortMonth(year, month);
    InWindow(year, m, d, month, 7 * n - 6, 7 * n);
    var date, nth := Ordinal(year, m, d), NthWeekdayOfMonth(year, month, weekday, n);
    if m == month && 7 * n - 6 <= d <= 7 * n && Weekday(date) == weekday {
      SameWeekday(date, nth);
    }
  }

  lemma LastExactly(year: int, m: int, d: int, weekday: int)
    requires ValidDate(year, m, d) && 0 <= weekday < 7
    ensures Ordinal(year, m, d) == LastWeekdayOfMonth(year, 5, weekday)
            <==> m == 5 && 25 <= d <= 31 && Weekday(Ordinal(year, m, d)) == weekday
  {
    hide LastWeekdayOfMonth, Weekday, DaysBeforeMonth, DaysBeforeYear;
    LastWeekdayIsLast(year, 5, weekday);
    ShortMonth(year, 5);
    InWindow(year, m, d, 5, 25, 31);
    var date, last := Ordinal(year, m, d), LastWeekdayOfMonth(year, 5, weekday);
    if m == 5 && 25 <= d <= 31 && Weekday(date) == weekday {
      SameWeekday(date, last);
    }
  }

  /** The days around a weekend. */
  lemma AroundWeekend(x: int)
    ensures Weekday(x) == SATURDAY <==> Weekday(x - 1) == FRIDAY
    ensures Weekday(x) == SUNDAY <==> Weekday(x + 1) == MONDAY
  {
  }

  lemma ObservedExactly(holiday: int, date: int)
    requires !IsWeekend(date)
    ensures date == ShiftWeekendObservance(holiday)
            <==> || date == holiday || (date == holiday - 1 && Weekday(date) == FRIDAY)
                 || (date == holiday + 1 && Weekday(date) == MONDAY)
  {
    AroundWeekend(holiday);
    hide Weekday;
  }

  lemma FixedExactly(year: int, m: int, d: int, month: int, day: int)
    requires ValidDate(year, m, d) && 1 <= month <= 12 && 2 <= day < DaysInMonth(year, month)
    requires !IsWeekend(Ordinal(year, m, d))
    ensures Ordinal(year, m, d) == ShiftWeekendObservance(Ordinal(year, month, day))
            <==> Observes(month, day, m, d, Weekday(Ordinal(year, m, d)))
  {
    ObservedExactly(Ordinal(year, month, day), Ordinal(year, m, d));
    InWindow(year, m, d, month, day - 1, day - 1);
    InWindow(year, m, d, month, day, day);
    InWindow(year, m, d, month, day + 1, day + 1);
    hide ShiftWeekendObservance, Weekday, DaysBeforeMonth, DaysBeforeYear;
  }

  lemma NewYearsExactly(year: int, m: int, d: int)
    requires ValidDate(year, m, d) && !IsWeekend(Ordinal(year, m, d))
    ensures Some(Ordinal(year, m, d)) == NewYearsDayObserved(year)
            <==> m == 1 && (d == 1 || (d == 2 && Weekday(Ordinal(year, m, d)) == MONDAY))
  {
    var first := Ordinal(year, 1, 1);
    AroundWeekend(first);
    ShortMonth(year, 1);
    InWindow(year, m, d, 1, 1, 1);
    InWindow(year, m, d, 1, 2, 2);
    assert Ordinal(year, 1, 2) == first + 1;
    hide Weekday, DaysBeforeMonth, DaysBeforeYear;
  }

  lemma GoodFridayExactly(year: int, date: int)
    ensures date == EasterSunday(year) - 2 <==> IsGoodFriday(year, date)
  {
    EasterFollowsFullMoon(year);
    EasterIsSunday(year);
    hide EasterSunday, PaschalFullMoon;
    if IsGoodFriday(year, date) {
      SundayAfter(date);
      hide Weekday;
      SameWeekday(date + 2, EasterSunday(year));
    }
  }

  lemma SundayAfter(date: int)
    requires Weekday(date) == FRIDAY
    ensures Weekday(date + 2) == SUNDAY
  {
  }

  // ----- All of them -----

  /** A working day is the k-th closure of its year exactly when the calendar facts say so. */
  lemma ClosureExactly(year: int, m: int, d: int, k: nat)
    requires ValidDate(year, m, d) && !IsWeekend(Ordinal(year, m, d)) && k < 10
    ensures Holiday(year, k) == Some(Ordinal(year, m, d)) <==> ClosedFor(k, year, m, d)
  {
    hide NewYearsDayObserved, NthWeekdayOfMonth, LastWeekdayOfMonth, EasterSunday, IsGoodFriday, Ordinal,
         ShiftWeekendObservance, Weekday, ValidDate, DaysInMonth;
    match k
    case 0 => NewYearsExactly(year, m, d);
    case 1 => MondayExactly(year, m, d, 1, 3);
    case 2 => MondayExactly(year, m, d, 2, 3);
    case 3 => GoodFridayExactly(year, Ordinal(year, m, d));
    case 4 => MemorialExactly(year, m, d);
    case 5 =>
      ShortMonth(year, 6);
      FixedExactly(year, m, d, 6, 19);
    case 6 =>
      ShortMonth(year, 7);
      FixedExactly(year, m, d, 7, 4);
    case 7 => MondayExactly(year, m, d, 9, 1);
    case 8 => NthExactly(year, m, d, 11, THURSDAY, 4);
    case 9 =>
      ShortMonth(year, 12);
      FixedExactly(year, m, d, 12, 25);
  }

  /** A Monday is observed on itself. */
  lemma MondayExactly(year: int, m: int, d: int, month: int, n: int)
    requires ValidDate(year, m, d) && 1 <= month <= 12 && 1 <= n <= 4
    ensures Ordinal(year, m, d) == ShiftWeekendObservance(NthWeekdayOfMonth(year, month, MONDAY, n))
            <==> m == month && 7 * n - 6 <= d <= 7 * n && Weekday(Ordinal(year, m, d)) == MONDAY
  {
    hide NthWeekdayOfMonth, Weekday, Ordinal;
    NthWeekdayIsNth(year, month, MONDAY, n);
    ObservedOnWorkingDay(NthWeekdayOfMonth(year, month, MONDAY, n));
    NthExactly(year, m, d, month, MONDAY, n);
  }

  lemma MemorialExactly(year: int, m: int, d: int)
    requires ValidDate(year, m, d)
    ensures Ordinal(year, m, d) == ShiftWeekendObservance(LastWeekdayOfMonth(year, 5, MONDAY))
            <==> m == 5 && 25 <= d <= 31 && Weekday(Ordinal(year, m, d)) == MONDAY
  {
    hide LastWeekdayOfMonth, Weekday, Ordinal;
    LastWeekdayIsLast(year, 5, MONDAY);
    ObservedOnWorkingDay(LastWeekdayOfMonth(year, 5, MONDAY));
    LastExactly(year, m, d, MONDAY);
  }

  /** Main result: for every date, the exchange trades if and only if it is no Saturday or Sunday, and neither a
      Monday of January 15 to 21, February 15 to 21, May 25 to 31 or September 1 to 7, nor a Thursday of November 22
      to 28, nor Good Friday, nor July 4, December 25 or, from 2022 on, June 19, or the working day next to one of
      these on a weekend, nor January 1 or the Monday after a Sunday one. */
  lemma TradesExactly(year: int, m: int, d: int)
    requires ValidDate(year, m, d) && Ordinal(year, m, d) >= 1
    ensures IsTradingDay(Ordinal(year, m, d))
            <==> !IsWeekend(Ordinal(year, m, d)) && forall k :: 0 <= k < 10 ==> !ClosedFor(k, year, m, d)
  {
    hide Holiday, ClosedFor, Ordinal, IsWeekend, YearOf;
    YearOfDate(year, m, d);
    if !IsWeekend(Ordinal(year, m, d)) {
      forall k | 0 <= k < 10
        ensures Holiday(year, k) == Some(Ordinal(year, m, d)) <==> ClosedFor(k, year, m, d)
      {
        ClosureExactly(year, m, d, k);
      }
    }
  }
}
