/** The UTC calendar functions of section 21.4.1 of ECMA-262, on days and minutes since 1 January 1970. */
module Calendar {

  const MINUTES_PER_DAY := 1440
  const MS_PER_MINUTE := 60000

  // ---- Years ----

  predicate IsLeap(y: int) {
    y % 4 == 0 && (y % 100 != 0 || y % 400 == 0)
  }

  function DaysInYear(y: int): int {
    if IsLeap(y) then 366 else 365
  }

  function DayFromYear(y: int): int {
    365 * (y - 1970) + (y - 1969) / 4 - (y - 1901) / 100 + (y - 1601) / 400
  }

  lemma FourYears(y: int)
    ensures (y - 1968) / 4 - (y - 1969) / 4 == if y % 4 == 0 then 1 else 0
  {
  }

  lemma HundredYears(y: int)
    ensures (y - 1900) / 100 - (y - 1901) / 100 == if y % 100 == 0 then 1 else 0
  {
  }

  lemma FourHundredYears(y: int)
    ensures (y - 1600) / 400 - (y - 1601) / 400 == if y % 400 == 0 then 1 else 0
  {
  }

  lemma LeapExceptions(y: int)
    ensures y % 400 == 0 ==> y % 100 == 0
    ensures y % 100 == 0 ==> y % 4 == 0
  {
  }

  lemma YearSteps(y: int, a: int, b: int, c: int, a': int, b': int, c': int)
    requires a == (y - 1969) / 4 && b == (y - 1901) / 100 && c == (y - 1601) / 400
    requires a' == (y - 1968) / 4 && b' == (y - 1900) / 100 && c' == (y - 1600) / 400
    ensures DayFromYear(y) == 365 * (y - 1970) + a - b + c
    ensures DayFromYear(y + 1) == 365 * (y - 1969) + a' - b' + c'
  {
    assert y + 1 - 1969 == y - 1968 && y + 1 - 1901 == y - 1900 && y + 1 - 1601 == y - 1600;
  }

  lemma YearLength(y: int)
    ensures DayFromYear(y + 1) == DayFromYear(y) + DaysInYear(y)
  {
    hide DayFromYear;
    FourYears(y);
    HundredYears(y);
    FourHundredYears(y);
    LeapExceptions(y);
    YearSteps(y, (y - 1969) / 4, (y - 1901) / 100, (y - 1601) / 400, (y - 1968) / 4, (y - 1900) / 100, (y - 1600) / 400);
  }

  lemma {:induction false} YearsApart(y: int, z: int)
    requires y <= z
    ensures DayFromYear(z) - DayFromYear(y) >= 365 * (z - y)
    decreases z - y
  {
    if y < z {
      YearsApart(y, z - 1);
      YearLength(z - 1);
    }
  }

  /** The year a day falls in: the greatest `y` that has started by then. */
  function YearOf(day: int): (y: int)
    ensures DayFromYear(y) <= day < DayFromYear(y + 1)
  {
    if day < 0 then SearchDown(day, 1969) else SearchUp(day, 1970)
  }

  function SearchUp(day: int, y: int): (r: int)
    requires DayFromYear(y) <= day
    ensures DayFromYear(r) <= day < DayFromYear(r + 1)
    decreases day - DayFromYear(y)
  {
    YearLength(y);
    if day >= DayFromYear(y + 1) then SearchUp(day, y + 1) else y
  }

  function SearchDown(day: int, y: int): (r: int)
    requires day < DayFromYear(y + 1)
    ensures DayFromYear(r) <= day < DayFromYear(r + 1)
    decreases DayFromYear(y + 1) - day
  {
    YearLength(y);
    if day < DayFromYear(y) then SearchDown(day, y - 1) else y
  }

  lemma YearIsUnique(day: int, y: int)
    requires DayFromYear(y) <= day < DayFromYear(y + 1)
    ensures YearOf(day) == y
  {
    var r := YearOf(day);
    hide DayFromYear;
    if r < y {
      YearsApart(r + 1, y);
    } else if r > y {
      YearsApart(y + 1, r);
    }
  }

  // ---- Months ----

  /** Days of the year before a month; 13 stands for the end of December. */
  function MonthStart(month: int, leap: bool): int
    requires 1 <= month <= 13
  {
    [0, 31, 59, 90, 120, 151, 181, 212, 243, 273, 304, 334, 365][month - 1] + (if leap && month > 2 then 1 else 0)
  }

  function DaysInMonth(month: int, leap: bool): int
    requires 1 <= month <= 12
  {
    MonthStart(month + 1, leap) - MonthStart(month, leap)
  }

  /** The month a day of the year falls in. */
  function MonthFrom(n: int, leap: bool, month: int): (m: int)
    requires 1 <= month <= 12 && MonthStart(month, leap) <= n < MonthStart(13, leap)
    ensures month <= m <= 12 && MonthStart(m, leap) <= n < MonthStart(m + 1, leap)
    decreases 12 - month
  {
    if n < MonthStart(month + 1, leap) then month else MonthFrom(n, leap, month + 1)
  }

  function DayWithinYear(day: int): (n: int)
    ensures 0 <= n < DaysInYear(YearOf(day))
  {
    YearLength(YearOf(day));
    day - DayFromYear(YearOf(day))
  }

  function MonthOf(day: int): (m: int)
    ensures 1 <= m <= 12
  {
    MonthFrom(DayWithinYear(day), IsLeap(YearOf(day)), 1)
  }

  function DateOf(day: int): (date: int)
    ensures 1 <= date <= DaysInMonth(MonthOf(day), IsLeap(YearOf(day)))
  {
    DayWithinYear(day) - MonthStart(MonthOf(day), IsLeap(YearOf(day))) + 1
  }

  function WeekDay(day: int): (w: int)
    ensures 0 <= w <= 6
  {
    (day + 4) % 7
  }

  // ---- Dates name days ----

  /** MakeDay. */
  function DayOf(y: int, month: int, date: int): int
    requires 1 <= month <= 12
  {
    DayFromYear(y) + MonthStart(month, IsLeap(y)) + date - 1
  }

  lemma MonthIsUnique(n: int, leap: bool, m: int)
    requires 1 <= m <= 12 && MonthStart(m, leap) <= n < MonthStart(m + 1, leap)
    ensures 0 <= n < MonthStart(13, leap) && MonthFrom(n, leap, 1) == m
  {
    MonthStartsIncrease(leap);
    hide MonthStart;
  }

  lemma MonthStartsIncrease(leap: bool)
    ensures MonthStart(1, leap) == 0
    ensures forall a, b :: 1 <= a <= b <= 13 ==> MonthStart(a, leap) <= MonthStart(b, leap)
  {
  }

  lemma DateInYear(y: int, month: int, date: int)
    requires 1 <= month <= 12 && 1 <= date <= DaysInMonth(month, IsLeap(y))
    ensures DayFromYear(y) <= DayOf(y, month, date) < DayFromYear(y + 1)
  {
    YearLength(y);
    MonthStartsIncrease(IsLeap(y));
    assert MonthStart(month + 1, IsLeap(y)) <= MonthStart(13, IsLeap(y));
  }

  /** Every valid date names one day, whose fields read back as that date. */
  lemma DateReadsBack(y: int, month: int, date: int)
    requires 1 <= month <= 12 && 1 <= date <= DaysInMonth(month, IsLeap(y))
    ensures YearOf(DayOf(y, month, date)) == y
    ensures MonthOf(DayOf(y, month, date)) == month && DateOf(DayOf(y, month, date)) == date
  {
    DateInYear(y, month, date);
    YearIsUnique(DayOf(y, month, date), y);
    MonthIsUnique(DayWithinYear(DayOf(y, month, date)), IsLeap(y), month);
  }

  /** And every day is named by its own date. */
  lemma DayReadsBack(day: int)
    ensures DayOf(YearOf(day), MonthOf(day), DateOf(day)) == day
  {
  }

  lemma LeapYearsApart(y: int)
    requires IsLeap(y)
    ensures !IsLeap(y + 1)
  {
  }

  lemma LeapShift(month: int)
    requires 1 <= month <= 13
    ensures MonthStart(month, true) == MonthStart(month, false) + (if month > 2 then 1 else 0)
    ensures month <= 12 ==> DaysInMonth(month, false) <= DaysInMonth(month, true)
  {
  }

  /** From a date to the same date a year later is at most 366 days, when the date exists in common years. */
  lemma YearlyGap(y: int, month: int, date: int)
    requires 1 <= month <= 12 && 1 <= date <= DaysInMonth(month, false)
    ensures DayOf(y, month, date) < DayOf(y + 1, month, date) <= DayOf(y, month, date) + 366
  {
    YearLength(y);
    LeapShift(month);
    if IsLeap(y) {
      LeapYearsApart(y);
    }
    hide MonthStart, DayFromYear, IsLeap;
  }

  /** The same date in the years around a day. */
  lemma DatesAround(day: int, month: int, date: int)
    requires 1 <= month <= 12 && 1 <= date <= DaysInMonth(month, false)
    ensures var y := YearOf(day);
      && DayOf(y - 1, month, date) < day < DayOf(y + 1, month, date)
      && DayOf(y, month, date) <= DayOf(y - 1, month, date) + 366
      && DayOf(y + 1, month, date) <= DayOf(y, month, date) + 366
  {
    hide MonthStart, DayFromYear, IsLeap, DayOf;
    var y := YearOf(day);
    LeapShift(month);
    DateInYear(y - 1, month, date);
    DateInYear(y + 1, month, date);
    YearlyGap(y - 1, month, date);
    YearlyGap(y, month, date);
  }

  // ---- Fixed points ----

  lemma FirstDay()
    ensures DayOf(1970, 1, 1) == 0 && DaysInMonth(1, IsLeap(1970)) == 31
  {
    assert (1970 - 1969) / 4 == 0 && (1970 - 1901) / 100 == 0 && (1970 - 1601) / 400 == 0;
  }

  /** Day 0 is Thursday, 1 January 1970. */
  lemma Epoch()
    ensures YearOf(0) == 1970 && MonthOf(0) == 1 && DateOf(0) == 1 && WeekDay(0) == 4
  {
    hide DayOf, YearOf, MonthOf, DateOf, DaysInMonth, IsLeap;
    FirstDay();
    DateReadsBack(1970, 1, 1);
  }

  /** Seven weekdays, one after the other. */
  lemma NextWeekDay(day: int)
    ensures WeekDay(day + 1) == if WeekDay(day) == 6 then 0 else WeekDay(day) + 1
  {
  }

  /** Thirty days have April, June, September and November. */
  lemma MonthLengths(month: int, leap: bool)
    requires 1 <= month <= 12
    ensures DaysInMonth(month, leap) ==
      if month == 4 || month == 6 || month == 9 || month == 11 then 30
      else if month == 2 then (if leap then 29 else 28)
      else 31
  {
  }

  lemma DayOfNext(y: int, m: int, d: int)
    requires 1 <= m <= 12
    ensures DayOf(y, m, d + 1) == DayOf(y, m, d) + 1
    ensures m < 12 ==> DayOf(y, m + 1, 1) == DayOf(y, m, DaysInMonth(m, IsLeap(y))) + 1
  {
    hide DayFromYear, MonthStart, IsLeap;
  }

  lemma NewYear(y: int)
    ensures DayOf(y + 1, 1, 1) == DayOf(y, 12, DaysInMonth(12, IsLeap(y))) + 1
  {
    YearLength(y);
    hide DayFromYear;
  }

  lemma MonthsHaveDays(m: int, leap: bool)
    requires 1 <= m <= 12
    ensures DaysInMonth(m, leap) >= 28
  {
    MonthLengths(m, leap);
    hide DaysInMonth;
  }

  /** The day after a date is the next of the month, or the first of the next month, or New Year. */
  lemma NextDate(day: int)
    ensures var y, m, d := YearOf(day), MonthOf(day), DateOf(day);
      if d < DaysInMonth(m, IsLeap(y)) then YearOf(day + 1) == y && MonthOf(day + 1) == m && DateOf(day + 1) == d + 1
      else if m < 12 then YearOf(day + 1) == y && MonthOf(day + 1) == m + 1 && DateOf(day + 1) == 1
      else YearOf(day + 1) == y + 1 && MonthOf(day + 1) == 1 && DateOf(day + 1) == 1
  {
    hide DayOf, YearOf, MonthOf, DateOf, DaysInMonth, IsLeap, DayFromYear, MonthStart;
    var y, m, d := YearOf(day), MonthOf(day), DateOf(day);
    DayReadsBack(day);
    DayOfNext(y, m, d);
    if d < DaysInMonth(m, IsLeap(y)) {
      DateReadsBack(y, m, d + 1);
    } else if m < 12 {
      MonthsHaveDays(m + 1, IsLeap(y));
      DateReadsBack(y, m + 1, 1);
    } else {
      NewYear(y);
      MonthsHaveDays(1, IsLeap(y + 1));
      DateReadsBack(y + 1, 1, 1);
    }
  }
}
