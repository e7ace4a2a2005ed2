/**
 * Calendar dates as day numbers.  The deadline inputs hold `YYYY-MM-DD`
 * text; `new Date(text)` followed by `setHours(0, 0, 0, 0)` fixes midnight of
 * that calendar day, so the difference of two such dates divided by one day
 * is the difference of their day numbers in the proleptic Gregorian calendar.
 * Day 0 is 0001-01-01; only differences are observable.
 */
module Dates {
  import opened Wrappers
  import opened Strings

  predicate IsLeapYear(y: int) {
    (y % 4 == 0 && y % 100 != 0) || y % 400 == 0
  }

  function DaysInMonth(y: int, m: int): int
    requires 1 <= m <= 12
  {
    if m == 2 then (if IsLeapYear(y) then 29 else 28)
    else if m == 4 || m == 6 || m == 9 || m == 11 then 30
    else 31
  }

  function DaysInYear(y: int): int {
    if IsLeapYear(y) then 366 else 365
  }

  predicate ValidDate(y: int, m: int, d: int) {
    1 <= m <= 12 && 1 <= d <= DaysInMonth(y, m)
  }

  /** Days from 0001-01-01 to the first of January of year `y`. */
  function DaysBeforeYear(y: int): int {
    var p := y - 1;
    365 * p + p / 4 - p / 100 + p / 400
  }

  /** Days from the first of January of year `y` to the first of month `m`. */
  function DaysBeforeMonth(y: int, m: int): int
    requires 1 <= m <= 13
  {
    if m == 1 then 0 else DaysBeforeMonth(y, m - 1) + DaysInMonth(y, m - 1)
  }

  function DayNumber(y: int, m: int, d: int): int
    requires 1 <= m <= 12
  {
    DaysBeforeYear(y) + DaysBeforeMonth(y, m) + d - 1
  }

  /** The calendar day after a valid date. */
  function NextDate(y: int, m: int, d: int): (int, int, int)
    requires ValidDate(y, m, d)
  {
    if d < DaysInMonth(y, m) then (y, m, d + 1)
    else if m < 12 then (y, m + 1, 1)
    else (y + 1, 1, 1)
  }

  lemma YearsAreConsecutive(y: int)
    ensures DaysBeforeYear(y + 1) == DaysBeforeYear(y) + DaysInYear(y)
  {
    var p := y - 1;
    assert y / 4 - p / 4 == (if y % 4 == 0 then 1 else 0);
    assert y / 100 - p / 100 == (if y % 100 == 0 then 1 else 0);
    assert y / 400 - p / 400 == (if y % 400 == 0 then 1 else 0);
  }

  /** The offsets of the months within a year, with `f` days in February. */
  lemma MonthOffsets(y: int)
    ensures var f := DaysInMonth(y, 2);
      && DaysBeforeMonth(y, 1) == 0 && DaysBeforeMonth(y, 2) == 31
      && DaysBeforeMonth(y, 3) == 31 + f && DaysBeforeMonth(y, 4) == 62 + f
      && DaysBeforeMonth(y, 5) == 92 + f && DaysBeforeMonth(y, 6) == 123 + f
      && DaysBeforeMonth(y, 7) == 153 + f && DaysBeforeMonth(y, 8) == 184 + f
      && DaysBeforeMonth(y, 9) == 215 + f && DaysBeforeMonth(y, 10) == 245 + f
      && DaysBeforeMonth(y, 11) == 276 + f && DaysBeforeMonth(y, 12) == 306 + f
      && DaysBeforeMonth(y, 13) == 337 + f
  {
  }

  lemma MonthsFillYear(y: int)
    ensures DaysBeforeMonth(y, 13) == DaysInYear(y)
  {
    MonthOffsets(y);
  }

  /** Day numbers count calendar days: the next calendar day has the next day
      number, across month and year ends and leap days. */
  lemma NextDateIsNextDay(y: int, m: int, d: int)
    requires ValidDate(y, m, d)
    ensures var (y', m', d') := NextDate(y, m, d);
      ValidDate(y', m', d') && DayNumber(y', m', d') == DayNumber(y, m, d) + 1
  {
    if d == DaysInMonth(y, m) && m == 12 {
      YearsAreConsecutive(y);
      MonthsFillYear(y);
    }
  }

  /** A day number falls inside its year. */
  lemma DayNumberWithinYear(y: int, m: int, d: int)
    requires ValidDate(y, m, d)
    ensures DaysBeforeYear(y) <= DayNumber(y, m, d) < DaysBeforeYear(y + 1)
  {
    MonthBounds(y, m);
    YearsAreConsecutive(y);
    MonthsFillYear(y);
  }

  lemma MonthBounds(y: int, m: int)
    requires 1 <= m <= 12
    ensures 0 <= DaysBeforeMonth(y, m) && DaysBeforeMonth(y, m) + DaysInMonth(y, m) <= DaysBeforeMonth(y, 13)
  {
    MonthOffsets(y);
  }

  lemma {:induction false} YearsIncrease(y1: int, y2: int)
    requires y1 <= y2
    ensures DaysBeforeYear(y1) <= DaysBeforeYear(y2)
    decreases y2 - y1
  {
    if y1 < y2 {
      YearsAreConsecutive(y1);
      YearsIncrease(y1 + 1, y2);
    }
  }

  /** The day number orders valid dates chronologically (year, then month, then day). */
  lemma DayNumberOrder(y1: int, m1: int, d1: int, y2: int, m2: int, d2: int)
    requires ValidDate(y1, m1, d1) && ValidDate(y2, m2, d2)
    requires y1 < y2 || (y1 == y2 && (m1 < m2 || (m1 == m2 && d1 < d2)))
    ensures DayNumber(y1, m1, d1) < DayNumber(y2, m2, d2)
  {
    if y1 < y2 {
      DayNumberWithinYear(y1, m1, d1);
      DayNumberWithinYear(y2, m2, d2);
      YearsIncrease(y1 + 1, y2);
    } else if m1 < m2 {
      MonthsIncrease(y1, m1, m2);
    }
  }

  lemma MonthsIncrease(y: int, m1: int, m2: int)
    requires 1 <= m1 < m2 <= 12
    ensures DaysBeforeMonth(y, m1) + DaysInMonth(y, m1) <= DaysBeforeMonth(y, m2)
  {
    MonthOffsets(y);
  }

  /** `new Date(text)` for the date-only form `YYYY-MM-DD`; `None` is an Invalid Date (NaN). */
  function DayOf(text: string): (r: Option<int>)
    ensures r.Some? ==> |text| == 10 && text[4] == '-' && text[7] == '-'
  {
    if |text| == 10 && text[4] == '-' && text[7] == '-'
       && AllDigits(text[0..4]) && AllDigits(text[5..7]) && AllDigits(text[8..10])
    then
      var y := DigitsValue(text[0..4]);
      var m := DigitsValue(text[5..7]);
      var d := DigitsValue(text[8..10]);
      if ValidDate(y, m, d) then Some(DayNumber(y, m, d)) else None
    else None
  }
}
