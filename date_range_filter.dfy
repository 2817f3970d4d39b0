/** The date-range picker: named presets turned into `{start, end}` bounds
    relative to "now", the custom range built from two date inputs, and the
    picker's state. */
module DateRangeFilter {
  import opened Text
  import opened JsDate
  import opened ExpenseService

  /** `setHours(0, 0, 0, 0)` on a Date; an invalid Date stays invalid. */
  function StartOfDayValue(t: TimeValue): TimeValue {
    if t.Time? then Time(StartOfDay(t.ms)) else Invalid
  }

  /** The bounds of a preset, "now" being the time value `now`. */
  function GetDateRange(preset: string, now: int): (r: DateRange)
    ensures preset !in {"today", "week", "month", "quarter", "year"} ==> r.start.None? && r.end.None?
    ensures preset in {"today", "week", "month", "quarter", "year"} ==>
      r.start.Some? && r.end == Some(Time(EndOfDay(now)))
  {
    var today := DateOf(now);
    var end := Some(Time(EndOfDay(now)));
    if preset == "today" then DateRange(Some(Time(StartOfDay(now))), end)
    else if preset == "week" then
      // setDate(getDate() - 7) keeps the time of day
      var weekStart := MakeDay(today.year, today.month, today.day - 7) * MsPerDay + (now - StartOfDay(now));
      DateRange(Some(Time(StartOfDay(weekStart))), end)
    else if preset == "month" then
      DateRange(Some(StartOfDayValue(NewDate(Int(today.year), Int(today.month), Int(1)))), end)
    else if preset == "quarter" then
      // setMonth(getMonth() - 3) keeps the day of the month and the time of day
      var quarterStart := MakeDay(today.year, today.month - 3, today.day) * MsPerDay + (now - StartOfDay(now));
      DateRange(Some(Time(StartOfDay(quarterStart))), end)
    else if preset == "year" then
      DateRange(Some(StartOfDayValue(NewDate(Int(today.year), Int(0), Int(1)))), end)
    else DateRange(None, None)
  }

  /** Midnight plus a time of day within the day is still on that day. */
  lemma StartOfDayOfMidnightPlus(n: int, t: int)
    requires 0 <= t < MsPerDay
    ensures StartOfDay(n * MsPerDay + t) == Midnight(n)
  {
  }

  /** The start day of each preset, as a day number. */
  function StartDay(preset: string, now: int): int
    requires preset in {"today", "week", "month", "quarter", "year"}
  {
    var today := DateOf(now);
    if preset == "today" then DayOf(now)
    else if preset == "week" then DayOf(now) - 7
    else if preset == "month" then DayNumber(Date(today.year, today.month, 1))
    else if preset == "quarter" then MakeDay(today.year, today.month - 3, today.day)
    else DayNumber(Date(today.year, 0, 1))
  }

  /** Every preset other than "all" starts at midnight of its start day, which
      is no later than today, and ends at 23:59:59.999 of today; so start <= end. */
  lemma PresetBounds(preset: string, now: int)
    requires preset in {"today", "week", "month", "quarter", "year"}
    requires -MaxTime <= now <= MaxTime && 100 <= DateOf(now).year
    ensures var r := GetDateRange(preset, now);
      && r.start == Some(Time(Midnight(StartDay(preset, now))))
      && StartDay(preset, now) <= DayOf(now)
      && r.end == Some(Time(Midnight(DayOf(now)) + MsPerDay - 1))
      && r.start.value.ms <= now <= r.end.value.ms
  {
    var today := DateOf(now);
    var tod := now - StartOfDay(now);
    if preset == "week" {
      assert MakeDay(today.year, today.month, today.day - 7) == DayNumber(today) - 7;
      StartOfDayOfMidnightPlus(DayNumber(today) - 7, tod);
    } else if preset == "quarter" {
      StartOfDayOfMidnightPlus(MakeDay(today.year, today.month - 3, today.day), tod);
      MakeDayMonthMonotone(today.year, today.month - 3, today.month, today.day);
      assert today.month / 12 == 0 && today.month % 12 == today.month;
    } else if preset == "month" || preset == "year" {
      var m := if preset == "month" then today.month else 0;
      assert m / 12 == 0 && m % 12 == m;
      MonthStartBounds(today, m);
    }
  }

  /** The first of a month of the current year is a day number within the
      range of time values and no later than today. */
  lemma MonthStartBounds(today: Date, m: int)
    requires ValidDate(today) && 100 <= today.year && DayNumber(today) * MsPerDay <= MaxTime
    requires 0 <= m <= today.month
    ensures DayNumber(Date(today.year, m, 1)) <= DayNumber(today)
    ensures -MaxTime <= DayNumber(Date(today.year, m, 1)) * MsPerDay <= MaxTime
  {
    MonthStartMonotone(today.year, m, today.month);
    DaysBeforeYearClosed(today.year);
    assert m / 12 == 0 && m % 12 == m;
  }

  /** "week" starts seven calendar days before today, across month and year ends. */
  lemma WeekStartDate(now: int)
    ensures var today := DateOf(now);
      FromDayNumber(StartDay("week", now)) == Normalize(today.year, today.month, today.day - 7)
  {
    var today := DateOf(now);
    var w := Normalize(today.year, today.month, today.day - 7);
    assert MakeDay(today.year, today.month, today.day - 7) == DayNumber(today) - 7;
    DayNumberInjective(FromDayNumber(DayOf(now) - 7), w);
  }

  /** January 3 gives a week start of December 27 of the year before. */
  lemma WeekCrossesYear(y: int)
    ensures Normalize(y + 1, 0, 3 - 7) == Date(y, 11, 27)
  {
    var d := Date(y, 11, 27);
    DaysBeforeYearStep(y);
    assert 0 / 12 == 0 && 0 % 12 == 0 && 11 / 12 == 0 && 11 % 12 == 11;
    assert DayNumber(d) == MakeDay(y + 1, 0, 3 - 7);
    DayNumberInjective(Normalize(y + 1, 0, 3 - 7), d);
  }

  /** "quarter" is the same day three months back with JS overflow: from
      May 31 of a leap year, February 31 rolls forward to March 2. */
  lemma QuarterOverflow(y: int)
    requires IsLeapYear(y)
    ensures Normalize(y, 4 - 3, 31) == Date(y, 2, 2)
  {
    var d := Date(y, 2, 2);
    assert 1 / 12 == 0 && 1 % 12 == 1 && 2 / 12 == 0 && 2 % 12 == 2;
    assert DayNumber(d) == MakeDay(y, 1, 31);
    DayNumberInjective(Normalize(y, 1, 31), d);
  }

  /** An expense dated today in "YYYY-MM-DD" form passes every preset's range. */
  lemma TodayPassesEveryPreset(preset: string, now: int, e: Expense)
    requires -MaxTime <= now <= MaxTime && 100 <= DateOf(now).year <= 9999
    requires e.date == DateText(IsoDateText(DateOf(now)))
    ensures KeepInRange(GetDateRange(preset, now), e) || NoBounds(Some(GetDateRange(preset, now)))
  {
    var today := DateOf(now);
    var s := IsoDateText(today);
    IsoDateRoundTrip(today);
    IsoTextTime(s);
    assert FilterDate(e.date) == Some(Time(Midnight(DayOf(now)))) by {
      assert s != "" by { assert |s| == 10; }
    }
    if preset in {"today", "week", "month", "quarter", "year"} {
      PresetBounds(preset, now);
    }
  }

  /** `new Date(text + 'T00:00:00')` and `new Date(text + 'T23:59:59')` for a
      "YYYY-MM-DD" input value: local midnight, or 23:59:59.000 of the day. */
  function CustomBound(text: string, endOfDay: bool): (r: TimeValue)
    ensures r.Time? <==> ParseIsoDate(text).Some?
    ensures r.Time? ==> DayOf(r.ms) == DayNumber(ParseIsoDate(text).value)
    ensures r.Time? ==> r.ms % MsPerDay == if endOfDay then MsPerDay - 1000 else 0
  {
    match ParseIsoDate(text)
    case None => Invalid
    case Some(d) => Time(Midnight(DayNumber(d)) + (if endOfDay then 86399000 else 0))
  }

  /** The custom range: both bounds set, from the start day's midnight to
      23:59:59 of the end day, either invalid when its text is not "YYYY-MM-DD". */
  function CustomRange(startText: string, endText: string): (r: DateRange)
    ensures r.start.Some? && r.end.Some?
    ensures r.start.value.Time? <==> ParseIsoDate(startText).Some?
    ensures r.end.value.Time? <==> ParseIsoDate(endText).Some?
    ensures r.start.value.Time? ==> r.start.value.ms == Midnight(DayNumber(ParseIsoDate(startText).value))
    ensures r.end.value.Time? ==>
      r.end.value.ms == Midnight(DayNumber(ParseIsoDate(endText).value)) + MsPerDay - 1000
  {
    DateRange(Some(CustomBound(startText, false)), Some(CustomBound(endText, true)))
  }

  /** A record dated, in "YYYY-MM-DD" form, on a day from the custom start day
      to the custom end day, both ends included, passes the custom range. */
  lemma CustomRangeInclusive(startText: string, endText: string, e: Expense)
    requires ParseIsoDate(startText).Some? && ParseIsoDate(endText).Some?
    requires e.date.DateText? && ParseIsoDate(e.date.text).Some? && ParseIsoDate(e.date.text).value.year >= 100
    requires var d := DayNumber(ParseIsoDate(e.date.text).value);
      DayNumber(ParseIsoDate(startText).value) <= d <= DayNumber(ParseIsoDate(endText).value)
    ensures KeepInRange(CustomRange(startText, endText), e)
  {
    IsoTextTime(e.date.text);
    assert e.date.text != "" by { assert |e.date.text| == 10; }
  }

  /** The picker's state. */
  class DateRangeFilterState {
    var isCustomRange: bool
    var startDate: string
    var endDate: string
    var selectedPreset: string

    constructor()
      ensures !isCustomRange && startDate == "" && endDate == "" && selectedPreset == "all"
    {
      isCustomRange := false;
      startDate := "";
      endDate := "";
      selectedPreset := "all";
    }

    /** `handlePresetChange`: select the preset, leave custom mode and emit its range. */
    method HandlePresetChange(preset: string, now: int) returns (emitted: DateRange)
      modifies this
      ensures selectedPreset == preset && !isCustomRange
      ensures startDate == old(startDate) && endDate == old(endDate)
      ensures emitted == GetDateRange(preset, now)
    {
      selectedPreset := preset;
      isCustomRange := false;
      emitted := GetDateRange(preset, now);
    }

    /** `handleCustomRangeApply`: with both inputs filled, emit the custom range
        and mark the preset "custom"; otherwise do nothing. */
    method HandleCustomRangeApply() returns (emitted: Option<DateRange>)
      modifies this
      ensures startDate == old(startDate) && endDate == old(endDate) && isCustomRange == old(isCustomRange)
      ensures old(startDate) != "" && old(endDate) != "" ==>
        emitted == Some(CustomRange(startDate, endDate)) && selectedPreset == "custom"
      ensures old(startDate) == "" || old(endDate) == "" ==>
        emitted.None? && selectedPreset == old(selectedPreset)
    {
      if startDate != "" && endDate != "" {
        emitted := Some(CustomRange(startDate, endDate));
        selectedPreset := "custom";
      } else {
        emitted := None;
      }
    }

    /** `clearCustomRange`: empty both inputs, back to "all", emit null bounds. */
    method ClearCustomRange() returns (emitted: DateRange)
      modifies this
      ensures startDate == "" && endDate == "" && !isCustomRange && selectedPreset == "all"
      ensures emitted == DateRange(None, None)
    {
      startDate := "";
      endDate := "";
      isCustomRange := false;
      selectedPreset := "all";
      emitted := DateRange(None, None);
    }

    /** The "Custom Range" button toggles custom mode. */
    method ToggleCustomRange()
      modifies this
      ensures isCustomRange == !old(isCustomRange)
      ensures startDate == old(startDate) && endDate == old(endDate) && selectedPreset == old(selectedPreset)
    {
      isCustomRange := !isCustomRange;
    }

    method SetStartDate(value: string)
      modifies this
      ensures startDate == value && endDate == old(endDate)
      ensures isCustomRange == old(isCustomRange) && selectedPreset == old(selectedPreset)
    {
      startDate := value;
    }

    method SetEndDate(value: string)
      modifies this
      ensures endDate == value && startDate == old(startDate)
      ensures isCustomRange == old(isCustomRange) && selectedPreset == old(selectedPreset)
    {
      endDate := value;
    }
  }
}
