/** The month view of the academic calendar: the month being shown, month
    navigation that wraps at the ends of the year, selecting a day, and the
    grid of day cells with their event dots. */
module AcademicCalendar {
  import opened Text
  import opened JsDate
  import opened CalendarData

  // ---------------------------------------------------------------------------
  // Date helpers of the view

  /** The year `new Date(year, …)` stands for: 0..99 mean 1900..1999. */
  function FullYear(year: int): int {
    if 0 <= year <= 99 then 1900 + year else year
  }

  /** `getDate()`: the day of the month of a Date, NaN for an invalid Date. */
  function GetDate(t: TimeValue): (n: Num)
    ensures n.Int? <==> t.Time?
    ensures n.Int? ==> 1 <= n.v <= 31
  {
    if t.Time? then Int(DateOf(t.ms).day) else NaN
  }

  /** `getDay()`: the day of the week of a Date (0 = Sunday), NaN for an invalid Date. */
  function GetDay(t: TimeValue): (n: Num)
    ensures n.Int? <==> t.Time?
    ensures n.Int? ==> 0 <= n.v < 7
  {
    if t.Time? then Int(WeekDay(DayOf(t.ms))) else NaN
  }

  /** The day of a time value at a local midnight is that midnight's day. */
  lemma DayOfMidnight(n: int)
    ensures DayOf(Midnight(n)) == n
  {
  }

  /** A valid `new Date(year, month, day)` falls on day MakeDay of the full year;
      within the years 0..9999 it is valid. */
  lemma NewDateDay(year: int, month: int, day: int, n: int)
    requires n == MakeDay(FullYear(year), month, day)
    ensures NewDate(Int(year), Int(month), Int(day)).Time? ==>
      NewDate(Int(year), Int(month), Int(day)).ms == Midnight(n)
    ensures -800000 <= n <= 3000000 ==> NewDate(Int(year), Int(month), Int(day)) == Time(Midnight(n))
  {
  }

  /** The facts `daysInMonth` rests on: day 0 of the next month is the last day of this month. */
  lemma LastDayOfMonth(month: int, year: int)
    requires 0 <= month < 12
    ensures var t := NewDate(Int(year), Int(month + 1), Int(0));
      (t.Time? ==> DateOf(t.ms).day == MonthLength(FullYear(year), month))
      && (0 <= year <= 9999 ==> t.Time?)
  {
    var y := FullYear(year);
    var last := Date(y, month, MonthLength(y, month));
    DayZeroOfNextMonth(y, month);
    FromDayNumberOfDate(last);
    var n := DayNumber(last);
    assert MakeDay(y, month + 1, 0) == n;
    NewDateDay(year, month + 1, 0, n);
    DayOfMidnight(n);
    if 0 <= year <= 9999 {
      DayNumberBounds(last);
    }
  }

  /** The facts `firstDayOfMonth` rests on: the first of the month is its day number's midnight. */
  lemma FirstOfMonth(month: int, year: int)
    requires 0 <= month < 12
    ensures var t := NewDate(Int(year), Int(month), Int(1));
      (t.Time? ==> DayOf(t.ms) == DayNumber(Date(FullYear(year), month, 1)))
      && (0 <= year <= 9999 ==> t.Time?)
  {
    var first := Date(FullYear(year), month, 1);
    var n := DayNumber(first);
    NewDateDay(year, month, 1, n);
    DayOfMidnight(n);
    if 0 <= year <= 9999 {
      DayNumberBounds(first);
    }
  }

  /** `daysInMonth(month, year)`: the day before the first of the next month. */
  function DaysInMonth(month: int, year: int): (n: Num)
    requires 0 <= month < 12
    ensures n.Int? ==> n.v == MonthLength(FullYear(year), month)
    ensures 0 <= year <= 9999 ==> n.Int?
  {
    LastDayOfMonth(month, year);
    GetDate(NewDate(Int(year), Int(month + 1), Int(0)))
  }

  /** `firstDayOfMonth(month, year)`: the day of the week of the first of the month. */
  function FirstDayOfMonth(month: int, year: int): (n: Num)
    requires 0 <= month < 12
    ensures n.Int? ==> 0 <= n.v < 7 && n.v == WeekDay(DayNumber(Date(FullYear(year), month, 1)))
    ensures 0 <= year <= 9999 ==> n.Int?
  {
    FirstOfMonth(month, year);
    GetDay(NewDate(Int(year), Int(month), Int(1)))
  }

  /** The number of times `for (let i = 0; i < n; i++)` runs: none when `n` is NaN. */
  function Count(n: Num): (c: nat)
    ensures n.Int? && n.v >= 0 ==> c == n.v
    ensures n.NaN? ==> c == 0
  {
    if n.Int? && n.v > 0 then n.v else 0
  }

  /** The day of the month currently selected, with the month and year it was selected in. */
  datatype Selection = Selection(day: int, month: int, year: int)

  /** `isToday(day)`: the cell's date is today's date. */
  function IsToday(day: int, month: int, year: int, today: Date): (b: bool)
    ensures b <==> Date(year, month, day) == today
  {
    day == today.day && month == today.month && year == today.year
  }

  /** `isSelected(day)`: the selection is exactly this day of the month shown. */
  function IsSelected(day: int, month: int, year: int, selected: Option<Selection>): (b: bool)
    ensures b <==> selected == Some(Selection(day, month, year))
  {
    selected.Some? && selected.value.day == day && selected.value.month == month
      && selected.value.year == year
  }

  // ---------------------------------------------------------------------------
  // Navigation

  /** The (month, year) that `navigateMonth(direction)` moves to: "prev" goes back
      one month, any other direction forward one. */
  function MonthStep(month: int, year: int, direction: string): (r: (int, int))
    requires 0 <= month < 12
    ensures 0 <= r.0 < 12
    ensures r.1 * 12 + r.0 == year * 12 + month + (if direction == "prev" then -1 else 1)
  {
    if direction == "prev" then
      if month == 0 then (11, year - 1) else (month - 1, year)
    else
      if month == 11 then (0, year + 1) else (month + 1, year)
  }

  /** Going forward and then back, or back and then forward, returns to the same month. */
  lemma MonthStepInverse(month: int, year: int)
    requires 0 <= month < 12
    ensures var (m, y) := MonthStep(month, year, "next"); MonthStep(m, y, "prev") == (month, year)
    ensures var (m, y) := MonthStep(month, year, "prev"); MonthStep(m, y, "next") == (month, year)
  {
  }

  /** The wrap-around cases: forward from December and back from January change the year. */
  lemma MonthStepWraps(year: int)
    ensures MonthStep(11, year, "next") == (0, year + 1)
    ensures MonthStep(0, year, "prev") == (11, year - 1)
  {
  }

  // ---------------------------------------------------------------------------
  // The grid of day cells

  /** How a day cell is highlighted, in the order the view decides it. */
  datatype CellStyle = TodayCell | SelectedCell | EventCell | PlainCell

  /** A cell of the month grid: a blank before the first of the month, or a day
      with its highlight and the types of the event dots it shows. */
  datatype Cell = Blank(index: nat) | Day(day: int, style: CellStyle, dots: seq<EventType>)

  function Min(a: int, b: int): int { if a <= b then a else b }

  /** The kinds of the first `n` events of a day. */
  function Kinds(events: seq<Event>, n: nat): (r: seq<EventType>)
    requires n <= |events|
    ensures |r| == n && forall i :: 0 <= i < n ==> r[i] == events[i].kind
  {
    seq(n, i requires 0 <= i < n => events[i].kind)
  }

  /** The button of day `day`: today's highlight wins over the selection, which wins
      over the event highlight; dots, at most three, only on an event-highlighted day. */
  function DayCell(table: Calendar, year: int, month: int, day: int, selected: Option<Selection>, today: Date): (c: Cell)
    ensures c.Day? && c.day == day && |c.dots| <= 3
    ensures c.style == TodayCell <==> IsToday(day, month, year, today)
    ensures c.style == SelectedCell <==> !IsToday(day, month, year, today) && IsSelected(day, month, year, selected)
    ensures c.style == EventCell <==>
      !IsToday(day, month, year, today) && !IsSelected(day, month, year, selected)
      && HasEvents(table, year, month + 1, day)
    ensures c.style != EventCell ==> c.dots == []
    ensures c.style == EventCell ==>
      var events := GetEventsForDate(table, year, month + 1, day);
      |c.dots| == Min(3, |events|) && forall i :: 0 <= i < |c.dots| ==> c.dots[i] == events[i].kind
  {
    var hasEvent := HasEvents(table, year, month + 1, day);
    var events := if hasEvent then GetEventsForDate(table, year, month + 1, day) else [];
    var style :=
      if IsToday(day, month, year, today) then TodayCell
      else if IsSelected(day, month, year, selected) then SelectedCell
      else if hasEvent then EventCell
      else PlainCell;
    var dots := if style == EventCell then Kinds(events, Min(3, |events|)) else [];
    Day(day, style, dots)
  }

  function Blanks(n: nat): (r: seq<Cell>)
    ensures |r| == n && forall i :: 0 <= i < n ==> r[i] == Blank(i)
  {
    seq(n, i requires 0 <= i < n => Blank(i))
  }

  /** The cells of days 1..n. */
  function DayCells(table: Calendar, year: int, month: int, n: nat, selected: Option<Selection>, today: Date): (r: seq<Cell>)
    ensures |r| == n
    ensures forall i :: 0 <= i < n ==> r[i] == DayCell(table, year, month, i + 1, selected, today)
  {
    seq(n, i requires 0 <= i < n => DayCell(table, year, month, i + 1, selected, today))
  }

  lemma BlanksSnoc(n: nat)
    ensures Blanks(n + 1) == Blanks(n) + [Blank(n)]
  {
  }

  lemma DayCellsSnoc(table: Calendar, year: int, month: int, n: nat, selected: Option<Selection>, today: Date)
    ensures DayCells(table, year, month, n + 1, selected, today)
      == DayCells(table, year, month, n, selected, today) + [DayCell(table, year, month, n + 1, selected, today)]
  {
  }

  /** `renderCalendarDays()`: the blanks before the first of the month, then a cell per day. */
  function CalendarDays(table: Calendar, year: int, month: int, selected: Option<Selection>, today: Date): (r: seq<Cell>)
    requires 0 <= month < 12
    ensures var start := Count(FirstDayOfMonth(month, year));
      && |r| == start + Count(DaysInMonth(month, year))
      && (forall i :: 0 <= i < start ==> r[i] == Blank(i))
      && (forall i :: start <= i < |r| ==> r[i] == DayCell(table, year, month, i - start + 1, selected, today))
  {
    Blanks(Count(FirstDayOfMonth(month, year))) + DayCells(table, year, month, Count(DaysInMonth(month, year)), selected, today)
  }

  /** The cell at position `i` of the grid: a blank before the first of the month,
      else the cell of day `i - start + 1`. */
  lemma CalendarDaysAt(table: Calendar, year: int, month: int, selected: Option<Selection>, today: Date, i: int)
    requires 0 <= month < 12
    requires 0 <= i < |CalendarDays(table, year, month, selected, today)|
    ensures var start := Count(FirstDayOfMonth(month, year));
      var c := CalendarDays(table, year, month, selected, today)[i];
      && (i < start ==> c == Blank(i))
      && (start <= i ==> c == DayCell(table, year, month, i - start + 1, selected, today))
  {
  }

  /** The grid has as many cells as blanks plus days of the month, at most six weeks. */
  lemma GridLength(table: Calendar, year: int, month: int, selected: Option<Selection>, today: Date)
    requires 0 <= month < 12 && 0 <= year <= 9999
    ensures |CalendarDays(table, year, month, selected, today)|
      == WeekDay(DayNumber(Date(FullYear(year), month, 1))) + MonthLength(FullYear(year), month) <= 42
  {
  }

  /** The grid places the first of the month after as many blanks as its day of the
      week (Sunday first), and day `k` at cell `start + k - 1`. */
  lemma GridLayout(table: Calendar, year: int, month: int, selected: Option<Selection>, today: Date)
    requires 0 <= month < 12 && 0 <= year <= 9999
    ensures var cells := CalendarDays(table, year, month, selected, today);
      var start := WeekDay(DayNumber(Date(FullYear(year), month, 1)));
      && (forall i :: 0 <= i < start ==> cells[i].Blank?)
      && (forall i :: start <= i < |cells| ==> cells[i].Day? && cells[i].day == i - start + 1)
  {
    var cells := CalendarDays(table, year, month, selected, today);
    forall i | 0 <= i < |cells| {
      GridCell(table, year, month, selected, today, i);
    }
  }

  /** The day `k` of the month sits at cell `start + k - 1` of the seven-column grid,
      which is in the column of the week day of day `k`. */
  lemma GridColumns(year: int, month: int)
    requires 0 <= month < 12
    ensures var start := WeekDay(DayNumber(Date(FullYear(year), month, 1)));
      forall k :: 1 <= k ==> (start + k - 1) % 7 == WeekDay(DayNumber(Date(FullYear(year), month, k)))
  {
    var y := FullYear(year);
    var start := WeekDay(DayNumber(Date(y, month, 1)));
    forall k | 1 <= k
      ensures (start + k - 1) % 7 == WeekDay(DayNumber(Date(y, month, k)))
    {
      ColumnOfDay(y, month, start, start + k - 1);
    }
  }

  /** One cell of the grid: a blank before the week day of the first, else the day
      `i - start + 1`. */
  lemma GridCell(table: Calendar, year: int, month: int, selected: Option<Selection>, today: Date, i: int)
    requires 0 <= month < 12 && 0 <= year <= 9999
    requires 0 <= i < |CalendarDays(table, year, month, selected, today)|
    ensures var c := CalendarDays(table, year, month, selected, today)[i];
      var start := WeekDay(DayNumber(Date(FullYear(year), month, 1)));
      && (i < start ==> c.Blank?)
      && (start <= i ==> c.Day? && c.day == i - start + 1)
  {
    var start := WeekDay(DayNumber(Date(FullYear(year), month, 1)));
    assert start == Count(FirstDayOfMonth(month, year));
    CalendarDaysAt(table, year, month, selected, today, i);
    if start <= i {
    }
  }

  /** Cell `i` of the row-major seven-column grid, counted from the first of the month
      at cell `start`, is in the column of its day's week day. */
  lemma ColumnOfDay(y: int, month: int, start: int, i: int)
    requires 0 <= month < 12 && start == WeekDay(DayNumber(Date(y, month, 1))) && start <= i
    ensures i % 7 == WeekDay(DayNumber(Date(y, month, i - start + 1)))
  {
    WeekDayOfDay(y, month, i - start + 1);
  }

  /** Day `k` of a month falls `k - 1` days of the week after the first of the month. */
  lemma WeekDayOfDay(y: int, month: int, k: int)
    requires 0 <= month < 12
    ensures WeekDay(DayNumber(Date(y, month, k))) == (WeekDay(DayNumber(Date(y, month, 1))) + k - 1) % 7
  {
    var n := DayNumber(Date(y, month, 1));
    assert DayNumber(Date(y, month, k)) == n + k - 1;
  }

  /** A cell highlighted as today shows today's date. */
  lemma TodayCellIsToday(table: Calendar, year: int, month: int, selected: Option<Selection>, today: Date, i: int)
    requires 0 <= month < 12
    requires 0 <= i < |CalendarDays(table, year, month, selected, today)|
    ensures var c := CalendarDays(table, year, month, selected, today)[i];
      c.Day? && c.style == TodayCell ==>
        Date(year, month, c.day) == today && i == Count(FirstDayOfMonth(month, year)) + c.day - 1
  {
    CalendarDaysAt(table, year, month, selected, today, i);
  }

  /** In any month at most one cell is highlighted as today, and only when the month
      shown is today's month. */
  lemma TodayHighlightedOnce(table: Calendar, year: int, month: int, selected: Option<Selection>, today: Date)
    requires 0 <= month < 12
    ensures var cells := CalendarDays(table, year, month, selected, today);
      forall i, j :: 0 <= i < j < |cells| && cells[i].Day? && cells[j].Day? && cells[i].style == TodayCell
        ==> cells[j].style != TodayCell
    ensures var cells := CalendarDays(table, year, month, selected, today);
      forall i :: 0 <= i < |cells| && cells[i].Day? && cells[i].style == TodayCell
        ==> year == today.year && month == today.month
  {
    var cells := CalendarDays(table, year, month, selected, today);
    forall i | 0 <= i < |cells| && cells[i].Day? && cells[i].style == TodayCell
      ensures year == today.year && month == today.month
    {
      TodayCellIsToday(table, year, month, selected, today, i);
    }
    forall i, j | 0 <= i < j < |cells| && cells[i].Day? && cells[j].Day? && cells[i].style == TodayCell
      ensures cells[j].style != TodayCell
    {
      TodayCellIsToday(table, year, month, selected, today, i);
      TodayCellIsToday(table, year, month, selected, today, j);
    }
  }

  // ---------------------------------------------------------------------------
  // Dot and legend colors

  /** The color of an event dot in a day cell, as written: break events fall to the
      default color. */
  function DotColor(t: EventType): (c: string)
    ensures t != Break ==> c == LegendColor(t)
  {
    if t == Exam then "bg-red-500"
    else if t == Holiday then "bg-cal-poly-gold"
    else if t == Term then "bg-cal-poly-forest"
    else if t == Commencement then "bg-purple-600"
    else "bg-cal-poly-surf"
  }

  /** The color of a type's swatch in the legend. */
  function LegendColor(t: EventType): string
  {
    if t == Exam then "bg-red-500"
    else if t == Holiday then "bg-cal-poly-gold"
    else if t == Term then "bg-cal-poly-forest"
    else if t == Commencement then "bg-purple-600"
    else if t == Break then "bg-orange-500"
    else "bg-cal-poly-surf"
  }

  /** A break event's dot is not drawn in the color the legend gives breaks. */
  lemma BreakDotDisagreesWithLegend()
    ensures DotColor(Break) != LegendColor(Break)
    ensures DotColor(Break) == "bg-cal-poly-surf" && LegendColor(Break) == "bg-orange-500"
  {
    assert "bg-cal-poly-surf"[3] != "bg-orange-500"[3];
  }

  /** The dot color with the break case the legend has. */
  function DotColorCorrected(t: EventType): (c: string)
    ensures t != Break ==> c == DotColor(t)
  {
    if t == Break then "bg-orange-500" else DotColor(t)
  }

  function IsPrefix(p: string, s: string): bool {
    |p| <= |s| && s[..|p|] == p
  }

  /** Each corrected dot color is the legend color of its type, and the background
      color the event list uses for that type. */
  lemma DotColorMatchesLegend(t: EventType)
    ensures DotColorCorrected(t) == LegendColor(t)
    ensures t in EventTypeColors && IsPrefix(DotColorCorrected(t), EventTypeColors[t])
  {
    match t
    case Term =>
    case Holiday =>
    case Registration =>
    case Exam =>
    case Break =>
    case Commencement =>
  }

  /** The colors of a cell's dots, as written: the legend's color for every type
      but break, whose dots fall to the default color. */
  function CellDotColors(c: Cell): (r: seq<string>)
    ensures c.Day? ==> |r| == |c.dots| && forall i :: 0 <= i < |r| ==> r[i] == DotColor(c.dots[i])
    ensures c.Day? ==> forall i :: 0 <= i < |r| && c.dots[i] != Break ==> r[i] == LegendColor(c.dots[i])
    ensures c.Blank? ==> r == []
  {
    if c.Blank? then []
    else seq(|c.dots|, i requires 0 <= i < |c.dots| => DotColor(c.dots[i]))
  }

  /** The colors of a cell's dots with the break case added: every dot has the
      legend's color for its type. */
  function CellDotColorsCorrected(c: Cell): (r: seq<string>)
    ensures c.Day? ==> |r| == |c.dots| && forall i :: 0 <= i < |r| ==> r[i] == LegendColor(c.dots[i])
    ensures c.Day? ==> forall i :: 0 <= i < |r| && c.dots[i] != Break ==> r[i] == CellDotColors(c)[i]
    ensures c.Blank? ==> r == []
  {
    if c.Blank? then []
    else
      seq(|c.dots|, i requires 0 <= i < |c.dots| => (DotColorMatchesLegend(c.dots[i]); DotColorCorrected(c.dots[i])))
  }

  /** The legend: one entry per event type in the label table's key order, with its
      label and swatch color. */
  function Legend(): (r: seq<(EventType, string, string)>)
    ensures |r| == 6
    ensures forall t: EventType :: r[IndexOfType(t)].0 == t
    ensures forall i :: 0 <= i < |r| ==>
      r[i].0 in EventTypeLabels && r[i].1 == EventTypeLabels[r[i].0] && r[i].2 == LegendColor(r[i].0)
  {
    var types := [Term, Holiday, Registration, Exam, Break, Commencement];
    var r := seq(6, i requires 0 <= i < 6 => (types[i], EventTypeLabels[types[i]], LegendColor(types[i])));
    r
  }

  function IndexOfType(t: EventType): (i: nat)
    ensures i < 6
  {
    match t
    case Term => 0
    case Holiday => 1
    case Registration => 2
    case Exam => 3
    case Break => 4
    case Commencement => 5
  }

  // ---------------------------------------------------------------------------
  // The view's state

  /** The state of the calendar view: the month shown, the selected day and whether
      its event list is open. */
  class CalendarView {
    var currentMonth: int
    var currentYear: int
    var selectedDate: Option<Selection>
    var showEvents: bool
    /** The event table the view looks days up in. */
    const table: Calendar

    ghost predicate Valid()
      reads this
    {
      0 <= currentMonth < 12
    }

    /** The view opens on today's month with nothing selected, over the academic calendar. */
    constructor (today: Date)
      requires ValidDate(today)
      ensures Valid() && table == AcademicEvents
      ensures currentMonth == today.month && currentYear == today.year
      ensures selectedDate == None && !showEvents
    {
      table := AcademicEvents;
      currentMonth := today.month;
      currentYear := today.year;
      selectedDate := None;
      showEvents := false;
    }

    /** `handleDateClick(day)`: clicking the selected day deselects it; clicking any
        other day selects it and opens its event list when it has events. */
    method HandleDateClick(day: int)
      modifies this
      ensures currentMonth == old(currentMonth) && currentYear == old(currentYear)
      ensures old(IsSelected(day, currentMonth, currentYear, selectedDate)) ==>
        selectedDate == None && !showEvents
      ensures !old(IsSelected(day, currentMonth, currentYear, selectedDate)) ==>
        && selectedDate == Some(Selection(day, currentMonth, currentYear))
        && showEvents == HasEvents(table, currentYear, currentMonth + 1, day)
      ensures IsSelected(day, currentMonth, currentYear, selectedDate)
        <==> !old(IsSelected(day, currentMonth, currentYear, selectedDate))
    {
      if IsSelected(day, currentMonth, currentYear, selectedDate) {
        selectedDate := None;
        showEvents := false;
      } else {
        selectedDate := Some(Selection(day, currentMonth, currentYear));
        var events := GetEventsForDate(table, currentYear, currentMonth + 1, day);
        showEvents := |events| > 0;
      }
    }

    /** `navigateMonth(direction)`: moves one month back or forward and clears the selection. */
    method NavigateMonth(direction: string)
      requires Valid()
      modifies this
      ensures Valid()
      ensures (currentMonth, currentYear) == MonthStep(old(currentMonth), old(currentYear), direction)
      ensures selectedDate == None && !showEvents
    {
      if direction == "prev" {
        if currentMonth == 0 {
          currentMonth := 11;
          currentYear := currentYear - 1;
        } else {
          currentMonth := currentMonth - 1;
        }
      } else {
        if currentMonth == 11 {
          currentMonth := 0;
          currentYear := currentYear + 1;
        } else {
          currentMonth := currentMonth + 1;
        }
      }
      selectedDate := None;
      showEvents := false;
    }

    /** `renderCalendarDays()`: the blank cells, then the day cells, built by two loops. */
    method RenderCalendarDays(today: Date) returns (days: seq<Cell>)
      requires Valid()
      ensures days == CalendarDays(table, currentYear, currentMonth, selectedDate, today)
    {
      var year, month, selected := currentYear, currentMonth, selectedDate;
      var totalDays := Count(DaysInMonth(month, year));
      var startDay := Count(FirstDayOfMonth(month, year));
      days := [];
      var i := 0;
      while i < startDay
        invariant 0 <= i <= startDay
        invariant days == Blanks(i)
      {
        BlanksSnoc(i);
        days := days + [Blank(i)];
        i := i + 1;
      }
      var day := 1;
      while day <= totalDays
        invariant 1 <= day <= totalDays + 1
        invariant days == Blanks(startDay) + DayCells(table, year, month, day - 1, selected, today)
      {
        DayCellsSnoc(table, year, month, day - 1, selected, today);
        days := days + [DayCell(table, year, month, day, selected, today)];
        day := day + 1;
      }
    }
  }
}
