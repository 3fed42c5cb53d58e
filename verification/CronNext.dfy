/** The next run of a cron expression in UTC: the minute-by-minute search, and when it cannot fail. */
module CronNext {
  import opened Calendar
  import opened CronFields
  import opened CronForms

  datatype WallClock = WallClock(minute: int, hour: int, dayOfMonth: int, month: int, dayOfWeek: int)

  /** The clock at a whole minute, counted from the epoch. */
  function UtcWallClock(m: int): WallClock {
    var day := m / MINUTES_PER_DAY;
    WallClock(m % 60, m / 60 % 24, DateOf(day), MonthOf(day), WeekDay(day))
  }

  /** All five fields denote the clock's values. */
  ghost predicate ClockMatches(f: seq<string>, c: WallClock)
    requires |f| == 5
  {
    && FieldDenotes(f[0], 0, 59, c.minute) && FieldDenotes(f[1], 0, 23, c.hour)
    && FieldDenotes(f[2], 1, 31, c.dayOfMonth) && FieldDenotes(f[3], 1, 12, c.month)
    && FieldDenotes(f[4], 0, 6, c.dayOfWeek)
  }

  ghost predicate Matches(expr: string, m: int) {
    |Fields(expr)| == 5 && ClockMatches(Fields(expr), UtcWallClock(m))
  }

  /** The first whole minute strictly after an instant in milliseconds. */
  function NextMinute(after: int): (m: int)
    ensures (m - 1) * MS_PER_MINUTE <= after < m * MS_PER_MINUTE
  {
    after / MS_PER_MINUTE + 1
  }

  const WINDOW := 366 * 24 * 60

  datatype NextRun = Run(at: int) | Malformed(error: CronError) | NoRunWithin366Days

  /** No minute from the next one up to `end` matches. */
  ghost predicate NoneBefore(expr: string, after: int, end: int) {
    forall m :: NextMinute(after) <= m < end ==> !Matches(expr, m)
  }

  /** Some minute of the 366-day window matches. */
  ghost predicate WindowHasMatch(expr: string, after: int) {
    !NoneBefore(expr, after, NextMinute(after) + WINDOW)
  }

  predicate Selects(parts: CronParts, c: WallClock) {
    && c.minute in parts.minute && c.hour in parts.hour && c.dayOfMonth in parts.dayOfMonth
    && c.month in parts.month && c.dayOfWeek in parts.dayOfWeek
  }

  lemma SelectsMatching(parts: CronParts, expr: string, m: int)
    requires IsParts(parts, expr)
    ensures Selects(parts, UtcWallClock(m)) <==> Matches(expr, m)
  {
    hide UtcWallClock, FieldDenotes, Fields, Increasing;
  }

  /** `at` is the least matching minute strictly after `after`, and within the window. */
  ghost predicate IsNextRun(expr: string, after: int, at: int) {
    && after < at && at % MS_PER_MINUTE == 0
    && at / MS_PER_MINUTE < NextMinute(after) + WINDOW
    && Matches(expr, at / MS_PER_MINUTE) && NoneBefore(expr, after, at / MS_PER_MINUTE)
  }

  /** The least matching minute strictly after `after`; no run only if the whole window has none. */
  method GetNextCronRun(expr: string, after: int) returns (r: NextRun)
    ensures r.Malformed? <==> !ExpressionIsValid(expr)
    ensures r.Run? ==> ExpressionIsValid(expr) && IsNextRun(expr, after, r.at)
    ensures r.NoRunWithin366Days? ==> !WindowHasMatch(expr, after)
  {
    hide Matches, UtcWallClock, ExpressionIsValid, IsParts;
    var parsed := ParseCronExpression(expr);
    if parsed.Err? {
      return Malformed(parsed.error);
    }
    var parts := parsed.value;
    var candidate := NextMinute(after);
    for i := 0 to WINDOW
      invariant candidate == NextMinute(after) + i
      invariant NoneBefore(expr, after, candidate)
    {
      SelectsMatching(parts, expr, candidate);
      if Selects(parts, UtcWallClock(candidate)) {
        return Run(candidate * MS_PER_MINUTE);
      }
      candidate := candidate + 1;
    }
    r := NoRunWithin366Days;
  }

  // ---- When a run always exists ----

  ghost predicate AnyDayOfWeek(expr: string) {
    |Fields(expr)| == 5 && forall w :: 0 <= w <= 6 ==> FieldDenotes(Fields(expr)[4], 0, 6, w)
  }

  ghost predicate SelectsDate(expr: string, month: int, date: int) {
    |Fields(expr)| == 5 && FieldDenotes(Fields(expr)[2], 1, 31, date) && FieldDenotes(Fields(expr)[3], 1, 12, month)
  }

  /** Some selected month and day exist in every year. */
  ghost predicate HasCommonDate(expr: string) {
    exists month, date :: SelectsDate(expr, month, date) && 1 <= month <= 12 && 1 <= date <= DaysInMonth(month, false)
  }

  /** A minute of a given day. */
  function MinuteOf(day: int, hour: int, minute: int): int {
    day * MINUTES_PER_DAY + hour * 60 + minute
  }

  lemma MinuteReadsBack(day: int, hour: int, minute: int)
    requires 0 <= hour <= 23 && 0 <= minute <= 59
    ensures MinuteOf(day, hour, minute) / MINUTES_PER_DAY == day
    ensures MinuteOf(day, hour, minute) % 60 == minute && MinuteOf(day, hour, minute) / 60 % 24 == hour
  {
    assert MinuteOf(day, hour, minute) / 60 == day * 24 + hour;
  }

  lemma DateMatches(expr: string, y: int, month: int, date: int, hour: int, minute: int)
    requires AnyDayOfWeek(expr) && SelectsDate(expr, month, date)
    requires 1 <= month <= 12 && 1 <= date <= DaysInMonth(month, IsLeap(y))
    requires FieldDenotes(Fields(expr)[0], 0, 59, minute) && FieldDenotes(Fields(expr)[1], 0, 23, hour)
    requires 0 <= hour <= 23 && 0 <= minute <= 59
    ensures Matches(expr, MinuteOf(DayOf(y, month, date), hour, minute))
  {
    MinuteReadsBack(DayOf(y, month, date), hour, minute);
    DateReadsBack(y, month, date);
    hide FieldDenotes, Fields, MinuteOf, DayOf, YearOf, MonthOf, DateOf;
  }

  /** Of three successive yearly dates around a day, the first has passed and one of the others is in the window. */
  lemma OneOfThree(day: int, time: int, before: int, here: int, next: int, hour: int, minute: int)
    requires before < day < next && here <= before + 366 && next <= here + 366
    requires 0 <= time < MINUTES_PER_DAY && 0 <= hour <= 23 && 0 <= minute <= 59
    ensures var start := day * MINUTES_PER_DAY + time;
      || start <= MinuteOf(here, hour, minute) < start + WINDOW
      || start <= MinuteOf(next, hour, minute) < start + WINDOW
  {
  }

  /** A date that comes back within 366 days falls into every window of 366 days. */
  lemma WindowCatchesDate(day: int, time: int, month: int, date: int, hour: int, minute: int) returns (y: int)
    requires 1 <= month <= 12 && 1 <= date <= DaysInMonth(month, false)
    requires 0 <= time < MINUTES_PER_DAY && 0 <= hour <= 23 && 0 <= minute <= 59
    ensures var start := day * MINUTES_PER_DAY + time;
      start <= MinuteOf(DayOf(y, month, date), hour, minute) < start + WINDOW
  {
    hide MinuteOf, DayOf, YearOf, DaysInMonth, DayFromYear, MonthStart, IsLeap;
    DatesAround(day, month, date);
    y := YearOf(day);
    OneOfThree(day, time, DayOf(y - 1, month, date), DayOf(y, month, date), DayOf(y + 1, month, date), hour, minute);
    var start := day * MINUTES_PER_DAY + time;
    if !(start <= MinuteOf(DayOf(y, month, date), hour, minute) < start + WINDOW) {
      y := y + 1;
    }
  }

  lemma CommonDateIsEnough(expr: string, after: int)
    requires ExpressionIsValid(expr) && AnyDayOfWeek(expr) && HasCommonDate(expr)
    ensures WindowHasMatch(expr, after)
  {
    hide UtcWallClock, FieldIsValid, FieldDenotes, Fields, DaysInMonth, MonthStart, NextMinute, Matches;
    var month, date :| SelectsDate(expr, month, date) && 1 <= month <= 12 && 1 <= date <= DaysInMonth(month, false);
    FieldWithinBounds(Fields(expr)[0], 0, 59);
    FieldWithinBounds(Fields(expr)[1], 0, 23);
    var minute :| FieldDenotes(Fields(expr)[0], 0, 59, minute);
    var hour :| FieldDenotes(Fields(expr)[1], 0, 23, hour);
    var start := NextMinute(after);
    var y := WindowCatchesDate(start / MINUTES_PER_DAY, start % MINUTES_PER_DAY, month, date, hour, minute);
    LeapShift(month);
    DateMatches(expr, y, month, date, hour, minute);
  }

  /** The 366 days from 1 January 2001 hold no 29 February, so any match there gives a date of common years. */
  lemma CommonWindow(day: int)
    requires DayFromYear(2001) <= day < DayFromYear(2001) + 366
    ensures !IsLeap(YearOf(day))
  {
    YearLength(2001);
    YearLength(2002);
    if day < DayFromYear(2002) {
      YearIsUnique(day, 2001);
    } else {
      YearIsUnique(day, 2002);
    }
  }

  lemma CommonDateIsNeeded(expr: string, m: int)
    requires Matches(expr, m)
    requires DayFromYear(2001) * MINUTES_PER_DAY <= m < DayFromYear(2001) * MINUTES_PER_DAY + WINDOW
    ensures HasCommonDate(expr)
  {
    var day := m / MINUTES_PER_DAY;
    CommonWindow(day);
    assert SelectsDate(expr, MonthOf(day), DateOf(day));
  }

  /** With the day of the week unrestricted, the search succeeds from every instant exactly when some selected date
      exists in common years. */
  lemma SearchNeverFails(expr: string)
    requires ExpressionIsValid(expr) && AnyDayOfWeek(expr)
    ensures (forall after :: WindowHasMatch(expr, after)) <==> HasCommonDate(expr)
  {
    if HasCommonDate(expr) {
      forall after ensures WindowHasMatch(expr, after) {
        CommonDateIsEnough(expr, after);
      }
    }
    if forall after :: WindowHasMatch(expr, after) {
      var after := DayFromYear(2001) * MINUTES_PER_DAY * MS_PER_MINUTE - 1;
      assert WindowHasMatch(expr, after);
      var m :| NextMinute(after) <= m < NextMinute(after) + WINDOW && Matches(expr, m);
      CommonDateIsNeeded(expr, m);
    }
  }

  const MIDNIGHT_ON_LEAP_DAY: seq<seq<Form>> := [[At(0)], [At(0)], [At(29)], [At(2)], [Every]]

  lemma OneForm(form: Form, min: int, max: int, v: int)
    ensures SomeFormDenotes([form], min, max, v) <==> FormDenotes(form, min, max, v)
  {
    assert [form][0] == form;
  }

  /** `0 0 29 2 *` is valid and its weekday is unrestricted, yet no date of a common year is selected. */
  lemma LeapDayFields(expr: string)
    requires expr == ExpressionText(MIDNIGHT_ON_LEAP_DAY)
    ensures ExpressionIsValid(expr) && AnyDayOfWeek(expr)
    ensures forall month, date :: SelectsDate(expr, month, date) ==> month == 2 && date == 29
  {
    hide ExpressionText, FieldDenotes, SomeFormDenotes, FieldIsValid, Fields;
    DocumentedText(MIDNIGHT_ON_LEAP_DAY);
    forall w | 0 <= w <= 6 ensures FieldDenotes(Fields(expr)[4], 0, 6, w) {
      OneForm(Every, 0, 6, w);
      assert FieldDenotes(Fields(expr)[4], FieldMin(4), FieldMax(4), w);
    }
    forall month, date | SelectsDate(expr, month, date) ensures month == 2 && date == 29 {
      OneForm(At(29), 1, 31, date);
      OneForm(At(2), 1, 12, month);
      assert FieldDenotes(Fields(expr)[2], FieldMin(2), FieldMax(2), date);
      assert FieldDenotes(Fields(expr)[3], FieldMin(3), FieldMax(3), month);
    }
  }

  lemma LeapDayIsUncommon(expr: string)
    requires forall month, date :: SelectsDate(expr, month, date) ==> month == 2 && date == 29
    ensures !HasCommonDate(expr)
  {
    hide SelectsDate;
    assert DaysInMonth(2, false) == 28;
  }

  /** So from some instant the search fails. */
  lemma LeapDayAloneFails() returns (expr: string, after: int)
    ensures ExpressionIsValid(expr) && AnyDayOfWeek(expr) && !WindowHasMatch(expr, after)
  {
    expr := ExpressionText(MIDNIGHT_ON_LEAP_DAY);
    LeapDayFields(expr);
    LeapDayIsUncommon(expr);
    hide ExpressionText, ExpressionIsValid, AnyDayOfWeek, HasCommonDate, WindowHasMatch;
    SearchNeverFails(expr);
    after :| !WindowHasMatch(expr, after);
  }

  // ---- The weekly preset ----

  /** The clock at a date and time shows that date and time, and the date's weekday. */
  lemma ClockReads(y: int, month: int, date: int, hour: int, minute: int)
    requires 1 <= month <= 12 && 1 <= date <= DaysInMonth(month, IsLeap(y)) && 0 <= hour <= 23 && 0 <= minute <= 59
    ensures UtcWallClock(MinuteOf(DayOf(y, month, date), hour, minute))
      == WallClock(minute, hour, date, month, WeekDay(DayOf(y, month, date)))
  {
    MinuteReadsBack(DayOf(y, month, date), hour, minute);
    DateReadsBack(y, month, date);
    hide MinuteOf, DayOf, YearOf, MonthOf, DateOf, WeekDay, DaysInMonth, IsLeap;
  }

  const MONDAYS_AT_MIDNIGHT: seq<seq<Form>> := [[At(0)], [At(0)], [Every], [Every], [At(1)]]

  lemma MondayFields(expr: string, c: WallClock)
    requires expr == ExpressionText(MONDAYS_AT_MIDNIGHT)
    requires 1 <= c.dayOfMonth <= 31 && 1 <= c.month <= 12
    ensures ExpressionIsValid(expr) && |Fields(expr)| == 5
    ensures ClockMatches(Fields(expr), c) <==> c.minute == 0 && c.hour == 0 && c.dayOfWeek == 1
  {
    hide ExpressionText, FieldDenotes, SomeFormDenotes, FieldIsValid, Fields;
    DocumentedText(MONDAYS_AT_MIDNIGHT);
    OneForm(At(0), 0, 59, c.minute);
    OneForm(At(0), 0, 23, c.hour);
    OneForm(Every, 1, 31, c.dayOfMonth);
    OneForm(Every, 1, 12, c.month);
    OneForm(At(1), 0, 6, c.dayOfWeek);
    assert FieldDenotes(Fields(expr)[0], FieldMin(0), FieldMax(0), c.minute) == (c.minute == 0);
    assert FieldDenotes(Fields(expr)[1], FieldMin(1), FieldMax(1), c.hour) == (c.hour == 0);
    assert FieldDenotes(Fields(expr)[2], FieldMin(2), FieldMax(2), c.dayOfMonth);
    assert FieldDenotes(Fields(expr)[3], FieldMin(3), FieldMax(3), c.month);
    assert FieldDenotes(Fields(expr)[4], FieldMin(4), FieldMax(4), c.dayOfWeek) == (c.dayOfWeek == 1);
  }

  lemma DateInRange(day: int)
    ensures 1 <= DateOf(day) <= 31 && 1 <= MonthOf(day) <= 12
  {
    MonthLengths(MonthOf(day), IsLeap(YearOf(day)));
    hide DaysInMonth, MonthOf, IsLeap, YearOf;
  }

  lemma MondayMatches(expr: string, m: int)
    requires expr == ExpressionText(MONDAYS_AT_MIDNIGHT)
    ensures ExpressionIsValid(expr)
    ensures Matches(expr, m) <==> m % 60 == 0 && m / 60 % 24 == 0 && WeekDay(m / MINUTES_PER_DAY) == 1
  {
    DateInRange(m / MINUTES_PER_DAY);
    hide ExpressionText, ClockMatches, ExpressionIsValid, Fields, DateOf, MonthOf, WeekDay;
    MondayFields(expr, UtcWallClock(m));
  }

  /** The first Mondays run after the epoch is at midnight of 5 January 1970. */
  lemma FirstMonday(expr: string)
    requires expr == ExpressionText(MONDAYS_AT_MIDNIGHT)
    ensures ExpressionIsValid(expr) && IsNextRun(expr, 0, 345600000)
    ensures YearOf(4) == 1970 && MonthOf(4) == 1 && DateOf(4) == 5 && 345600000 == MinuteOf(4, 0, 0) * MS_PER_MINUTE
  {
    hide ExpressionText, Matches, ExpressionIsValid, YearOf, MonthOf, DateOf;
    forall m ensures Matches(expr, m) <==> m % 60 == 0 && m / 60 % 24 == 0 && WeekDay(m / MINUTES_PER_DAY) == 1 {
      MondayMatches(expr, m);
    }
    MondayMatches(expr, 5760);
    forall m | 1 <= m < 5760 ensures !Matches(expr, m) {
      assert 0 <= m / MINUTES_PER_DAY <= 3;
    }
    FifthDay();
  }

  lemma FifthDay()
    ensures YearOf(4) == 1970 && MonthOf(4) == 1 && DateOf(4) == 5
  {
    hide YearOf, MonthOf, DateOf, DaysInMonth, IsLeap;
    Epoch();
    MonthLengths(1, IsLeap(1970));
    NextDate(0);
    NextDate(1);
    NextDate(2);
    NextDate(3);
  }
}
