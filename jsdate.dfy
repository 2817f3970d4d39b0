/** JavaScript Date arithmetic as the application relies on it, with local time
    taken as the reference time scale (no time zone offset, no daylight saving).
    Months are 0-based (0 = January) as in `Date.prototype.getMonth`.
    A Date's time value is a count of milliseconds since 1970-01-01 00:00:00, or
    Invalid (NaN). */
module JsDate {
  import opened Text

  const MsPerDay: int := 86400000
  /** Largest magnitude of a time value (TimeClip). */
  const MaxTime: int := 8640000000000000

  predicate IsLeapYear(y: int) {
    y % 4 == 0 && (y % 100 != 0 || y % 400 == 0)
  }

  function YearLength(y: int): (n: int)
    ensures n == 365 || n == 366
  {
    if IsLeapYear(y) then 366 else 365
  }

  /** Gregorian month lengths, February having 29 days in leap years. */
  function MonthLength(y: int, m: int): (n: int)
    requires 0 <= m < 12
    ensures 28 <= n <= 31
    ensures n == 29 <==> m == 1 && IsLeapYear(y)
    ensures n == 28 <==> m == 1 && !IsLeapYear(y)
    ensures n == 30 <==> m in {3, 5, 8, 10}
  {
    if m == 1 then (if IsLeapYear(y) then 29 else 28)
    else if m == 3 || m == 5 || m == 8 || m == 10 then 30
    else 31
  }

  /** A calendar date: year, 0-based month, day of the month. */
  datatype Date = Date(year: int, month: int, day: int)

  predicate ValidDate(d: Date) {
    0 <= d.month < 12 && 1 <= d.day <= MonthLength(d.year, d.month)
  }

  /** Days from 1970-01-01 to January 1 of year `y`. */
  function DaysBeforeYear(y: int): int
    decreases if y >= 1970 then y - 1970 else 1970 - y
  {
    if y == 1970 then 0
    else if y > 1970 then DaysBeforeYear(y - 1) + YearLength(y - 1)
    else DaysBeforeYear(y + 1) - YearLength(y)
  }

  /** Days from January 1 to the first of month `m` (0..12) of year `y`. */
  function DaysBeforeMonth(y: int, m: int): (n: int)
    requires 0 <= m <= 12
    ensures 0 <= n
  {
    [0, 31, 59, 90, 120, 151, 181, 212, 243, 273, 304, 334, 365][m]
      + (if m >= 2 && IsLeapYear(y) then 1 else 0)
  }

  /** ECMA-262 MakeDay: the day number of day `dt` of month `m` of year `y`,
      where `m` and `dt` may lie outside their usual ranges and overflow. */
  function MakeDay(y: int, m: int, dt: int): int
  {
    var ym := y + m / 12;
    DaysBeforeYear(ym) + DaysBeforeMonth(ym, m % 12) + dt - 1
  }

  /** Days since 1970-01-01 of a calendar date. */
  function DayNumber(d: Date): int
  {
    MakeDay(d.year, d.month, d.day)
  }

  lemma DaysBeforeYearStep(y: int)
    ensures DaysBeforeYear(y + 1) == DaysBeforeYear(y) + YearLength(y)
  {
  }

  /** Leap years before `y`, counted as Gregorian leap years from 1970 on. */
  function LeapYearsBefore(y: int): int
  {
    (y - 1) / 4 - (y - 1) / 100 + (y - 1) / 400 - 477
  }

  /** The count of days before a year is 365 a year plus one per leap year
      (477 leap years precede 1970). */
  lemma {:induction false} DaysBeforeYearClosed(y: int)
    ensures DaysBeforeYear(y) == 365 * (y - 1970) + LeapYearsBefore(y)
    decreases if y >= 1970 then y - 1970 else 1970 - y
  {
    if y > 1970 {
      DaysBeforeYearClosed(y - 1);
      LeapYearsStep(y - 1);
    } else if y < 1970 {
      DaysBeforeYearClosed(y + 1);
      LeapYearsStep(y);
    }
  }

  lemma LeapYearsStep(y: int)
    ensures LeapYearsBefore(y + 1) == LeapYearsBefore(y) + (if IsLeapYear(y) then 1 else 0)
  {
    DivStep4(y);
    DivStep100(y);
    DivStep400(y);
  }

  lemma DivStep4(y: int) ensures y / 4 - (y - 1) / 4 == if y % 4 == 0 then 1 else 0 {}
  lemma DivStep100(y: int) ensures y / 100 - (y - 1) / 100 == if y % 100 == 0 then 1 else 0 {}
  lemma DivStep400(y: int) ensures y / 400 - (y - 1) / 400 == if y % 400 == 0 then 1 else 0 {}

  lemma DaysBeforeMonthStep(y: int, m: int)
    requires 0 <= m < 12
    ensures DaysBeforeMonth(y, m + 1) == DaysBeforeMonth(y, m) + MonthLength(y, m)
  {
  }

  lemma DaysBeforeYearMonotone(y1: int, y2: int)
    requires y1 < y2
    ensures DaysBeforeYear(y1) + YearLength(y1) <= DaysBeforeYear(y2)
    decreases y2 - y1
  {
    DaysBeforeYearStep(y1);
    if y1 + 1 < y2 {
      DaysBeforeYearMonotone(y1 + 1, y2);
    }
  }

  /** The date `dt` days into month `m` (0..11) of year `y`, carried into later or earlier
      months when `dt` lies outside the month, as the Date constructor and setDate do. */
  function NormalizeDays(y: int, m: int, dt: int): (r: Date)
    requires 0 <= m < 12
    ensures ValidDate(r) && DayNumber(r) == MakeDay(y, m, dt)
    decreases if dt < 1 then 1 else 0, if dt < 1 then -dt else dt
  {
    if dt < 1 then
      var (py, pm) := if m == 0 then (y - 1, 11) else (y, m - 1);
      MonthBack(y, m, dt);
      NormalizeDays(py, pm, dt + MonthLength(py, pm))
    else if dt > MonthLength(y, m) then
      var (ny, nm) := if m == 11 then (y + 1, 0) else (y, m + 1);
      MonthForward(y, m, dt);
      NormalizeDays(ny, nm, dt - MonthLength(y, m))
    else
      Date(y, m, dt)
  }

  /** Day `dt` of a month is day `dt` plus the previous month's length of the previous month. */
  lemma MonthBack(y: int, m: int, dt: int)
    requires 0 <= m < 12
    ensures var (py, pm) := if m == 0 then (y - 1, 11) else (y, m - 1);
      MakeDay(py, pm, dt + MonthLength(py, pm)) == MakeDay(y, m, dt)
  {
    if m == 0 { DaysBeforeYearStep(y - 1); } else { DaysBeforeMonthStep(y, m - 1); }
  }

  /** Day `dt` of a month is day `dt` minus this month's length of the next month. */
  lemma MonthForward(y: int, m: int, dt: int)
    requires 0 <= m < 12
    ensures var (ny, nm) := if m == 11 then (y + 1, 0) else (y, m + 1);
      MakeDay(ny, nm, dt - MonthLength(y, m)) == MakeDay(y, m, dt)
  {
    if m == 11 { DaysBeforeYearStep(y); } else { DaysBeforeMonthStep(y, m); }
  }

  /** The calendar date that `new Date(y, m, dt)` denotes: month overflow is carried into
      the year first, then day overflow across months. */
  function Normalize(y: int, m: int, dt: int): (r: Date)
    ensures ValidDate(r) && DayNumber(r) == MakeDay(y, m, dt)
  {
    NormalizeDays(y + m / 12, m % 12, dt)
  }

  /** The calendar date of a day number (getFullYear, getMonth, getDate). */
  function FromDayNumber(n: int): (r: Date)
    ensures ValidDate(r) && DayNumber(r) == n
  {
    Normalize(1970, 0, n + 1)
  }

  /** Day numbers lie in their year and order dates as the calendar does. */
  lemma DayNumberInYear(d: Date)
    requires ValidDate(d)
    ensures DaysBeforeYear(d.year) <= DayNumber(d) < DaysBeforeYear(d.year) + YearLength(d.year)
  {
    DaysBeforeMonthStep(d.year, d.month);
  }

  /** Distinct valid dates have distinct day numbers. */
  lemma DayNumberInjective(a: Date, b: Date)
    requires ValidDate(a) && ValidDate(b) && DayNumber(a) == DayNumber(b)
    ensures a == b
  {
    DayNumberInYear(a);
    DayNumberInYear(b);
    if a.year < b.year {
      DaysBeforeYearMonotone(a.year, b.year);
    } else if b.year < a.year {
      DaysBeforeYearMonotone(b.year, a.year);
    }
    assert a.year == b.year;
    if a.month != b.month {
      var (lo, hi) := if a.month < b.month then (a, b) else (b, a);
      DaysBeforeMonthStep(lo.year, lo.month);
      MonthStartMonotone(lo.year, lo.month + 1, hi.month);
    }
  }

  lemma MonthStartMonotone(y: int, m1: int, m2: int)
    requires 0 <= m1 <= m2 <= 12
    ensures DaysBeforeMonth(y, m1) <= DaysBeforeMonth(y, m2)
  {
  }

  /** A valid date is left alone by normalisation, and its day number converts back to it. */
  lemma FromDayNumberOfDate(d: Date)
    requires ValidDate(d)
    ensures FromDayNumber(DayNumber(d)) == d
    ensures Normalize(d.year, d.month, d.day) == d
  {
    DayNumberInjective(FromDayNumber(DayNumber(d)), d);
    DayNumberInjective(Normalize(d.year, d.month, d.day), d);
  }

  /** The first of each month comes no earlier than the first of any earlier month,
      with months counted across years as `new Date(y, m, 1)` counts them. */
  lemma MakeDayMonthMonotone(y: int, m1: int, m2: int, dt: int)
    requires m1 <= m2
    ensures MakeDay(y, m1, dt) <= MakeDay(y, m2, dt)
    decreases m2 - m1
  {
    if m1 < m2 {
      MakeDayMonthMonotone(y, m1 + 1, m2, dt);
      var ym := y + m1 / 12;
      if m1 % 12 == 11 {
        assert (m1 + 1) / 12 == m1 / 12 + 1 && (m1 + 1) % 12 == 0;
        DaysBeforeYearStep(ym);
      } else {
        assert (m1 + 1) / 12 == m1 / 12 && (m1 + 1) % 12 == m1 % 12 + 1;
        DaysBeforeMonthStep(ym, m1 % 12);
      }
    }
  }

  /** Day 0 of the next month is the last day of this month (`new Date(y, m + 1, 0)`). */
  lemma DayZeroOfNextMonth(y: int, m: int)
    requires 0 <= m < 12
    ensures Normalize(y, m + 1, 0) == Date(y, m, MonthLength(y, m))
  {
    var last := Date(y, m, MonthLength(y, m));
    if m == 11 {
      assert (m + 1) / 12 == 1 && (m + 1) % 12 == 0;
      DaysBeforeYearStep(y);
    } else {
      assert (m + 1) / 12 == 0 && (m + 1) % 12 == m + 1;
      DaysBeforeMonthStep(y, m);
    }
    DayNumberInjective(Normalize(y, m + 1, 0), last);
  }

  /** Day numbers of the years 0..9999 lie well inside the range of time values. */
  lemma DayNumberBounds(d: Date)
    requires ValidDate(d) && 0 <= d.year <= 9999
    ensures -800000 <= DayNumber(d) <= 3000000
  {
    DaysBeforeYearClosed(d.year);
  }

  /** Date.prototype.getDay of a day number: 0 = Sunday; 1970-01-01 was a Thursday. */
  function WeekDay(n: int): (w: int)
    ensures 0 <= w < 7
  {
    (n + 4) % 7
  }

  /** A Date's time value: milliseconds, or NaN. */
  datatype TimeValue = Invalid | Time(ms: int)

  /** ECMA-262 TimeClip: a time value beyond 8.64e15 ms in magnitude is NaN. */
  function TimeClip(t: int): (r: TimeValue)
    ensures r.Time? <==> -MaxTime <= t <= MaxTime
    ensures r.Time? ==> r.ms == t
  {
    if -MaxTime <= t <= MaxTime then Time(t) else Invalid
  }

  /** `a < b` on Dates: compares time values; false when either is NaN. */
  predicate Less(a: TimeValue, b: TimeValue) {
    a.Time? && b.Time? && a.ms < b.ms
  }

  /** A JavaScript number as the application produces it: an integer or NaN. */
  datatype Num = NaN | Int(v: int)

  /** `new Date(y, m, d)` at local midnight: NaN if any argument is NaN; years 0..99 mean 1900..1999. */
  function NewDate(y: Num, m: Num, d: Num): (r: TimeValue)
    ensures r.Time? ==> y.Int? && m.Int? && d.Int? && r.ms % MsPerDay == 0
  {
    if y.NaN? || m.NaN? || d.NaN? then Invalid
    else
      var yr := if 0 <= y.v <= 99 then 1900 + y.v else y.v;
      TimeClip(MakeDay(yr, m.v, d.v) * MsPerDay)
  }

  /** Local midnight of a day number. */
  function Midnight(n: int): int { n * MsPerDay }

  /** The day number of a time value (the local calendar day it falls on). */
  function DayOf(t: int): (n: int)
    ensures Midnight(n) <= t < Midnight(n) + MsPerDay
  {
    t / MsPerDay
  }

  /** The local calendar date of a time value. */
  function DateOf(t: int): (d: Date)
    ensures ValidDate(d) && DayNumber(d) == DayOf(t)
  {
    FromDayNumber(DayOf(t))
  }

  /** `setHours(0, 0, 0, 0)`: the first millisecond of the same local day. */
  function StartOfDay(t: int): (r: int)
    ensures r <= t < r + MsPerDay && r == Midnight(DayOf(t))
  {
    Midnight(DayOf(t))
  }

  /** `setHours(23, 59, 59, 999)`: the last millisecond of the same local day. */
  function EndOfDay(t: int): (r: int)
    ensures StartOfDay(t) <= t <= r && r == StartOfDay(t) + MsPerDay - 1
  {
    Midnight(DayOf(t)) + MsPerDay - 1
  }

  /** The "YYYY-MM-DD" text of a date, as `toISOString().split('T')[0]` writes it:
      four digits for years 0..9999, otherwise a sign and six digits. */
  function IsoDateText(d: Date): (s: string)
    requires ValidDate(d)
    requires -999999 <= d.year <= 999999
  {
    var year :=
      if 0 <= d.year <= 9999 then PadDigits(d.year, 4)
      else if d.year < 0 then "-" + PadDigits(-d.year, 6)
      else "+" + PadDigits(d.year, 6);
    year + "-" + PadDigits(d.month + 1, 2) + "-" + PadDigits(d.day, 2)
  }

  /** Reads a strict "YYYY-MM-DD" text (a four-digit year) as a valid calendar date. */
  function ParseIsoDate(s: string): (r: Option<Date>)
    ensures r.Some? ==> ValidDate(r.value) && 0 <= r.value.year <= 9999
  {
    if |s| == 10 && s[4] == '-' && s[7] == '-'
       && AllDigits(s[..4]) && AllDigits(s[5..7]) && AllDigits(s[8..])
    then
      var d := Date(ParseDigits(s[..4]), ParseDigits(s[5..7]) - 1, ParseDigits(s[8..]));
      assert d.year < 10000 by { ParseDigitsBound(s[..4]); assert Pow10(4) == 10000; }
      if ValidDate(d) then Some(d) else None
    else None
  }

  /** Writing a date in ISO form and reading it back gives the same date. */
  lemma IsoDateRoundTrip(d: Date)
    requires ValidDate(d) && 0 <= d.year <= 9999
    ensures ParseIsoDate(IsoDateText(d)) == Some(d)
  {
    var s := IsoDateText(d);
    assert s[..4] == PadDigits(d.year, 4);
    assert s[5..7] == PadDigits(d.month + 1, 2);
    assert s[8..] == PadDigits(d.day, 2);
    ParsePadDigits(d.year, 4);
    ParsePadDigits(d.month + 1, 2);
    ParsePadDigits(d.day, 2);
  }
}
