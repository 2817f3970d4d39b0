/** The academic calendar data: the table of events keyed by year, 1-based
    month and day, the colors and labels of the event types, and the lookups
    the calendar view uses. */
module CalendarData {
  import opened JsDate
  import opened Sorting

  datatype EventType = Term | Holiday | Registration | Exam | Break | Commencement

  datatype Event = Event(kind: EventType, title: string, description: string)

  /** year -> month (1-based) -> day -> events of that day. */
  type Calendar = map<int, map<int, map<int, seq<Event>>>>

  /** The events of the 2024-2026 academic calendar. */
  const AcademicEvents: Calendar := map[
    2024 := map[
      6 := map[
        24 := [Event(Term, "Beginning of University Year", "Summer 2024 term classes begin")]
      ],
      7 := map[
        4 := [Event(Holiday, "Independence Day", "Academic holiday")],
        8 := [Event(Registration, "End of Second Week", "End of second week of instruction")],
        15 := [Event(Registration, "Census Date", "End of third week of instruction - Census date")]
      ],
      8 := map[
        16 := [Event(Registration, "20% Instruction Remaining", "Twenty Percent of Instruction Remaining")],
        30 := [Event(Term, "Last Day of Summer Classes", "Last day of classes for 10-week session")]
      ],
      9 := map[
        2 := [Event(Holiday, "Labor Day", "Academic holiday")],
        3 := [Event(Exam, "Summer Finals Begin", "Final examination period Sept 3-6")],
        4 := [Event(Exam, "Summer Finals", "Final examinations continue")],
        5 := [Event(Exam, "Summer Finals", "Final examinations continue")],
        6 := [Event(Exam, "Summer Finals End", "End of summer term")],
        7 := [Event(Break, "Academic Holiday Begins", "Academic holiday Sept 7-15")],
        16 := [Event(Term, "Fall Term Begins (Faculty)", "Beginning of fall term (faculty only)")],
        23 := [Event(Term, "Fall Classes Begin", "First day of Fall 2024 classes")]
      ],
      10 := map[
        4 := [Event(Registration, "End of Second Week", "End of second week of instruction")],
        11 := [Event(Registration, "Census Date", "End of third week of instruction - Census date")],
        21 := [Event(Registration, "Voter Registration Deadline", "Deadline to register to vote")]
      ],
      11 := map[
        5 := [Event(Holiday, "Election Day", "Election Day - Classes in session")],
        11 := [Event(Holiday, "Veterans Day", "Academic holiday - Veterans Day observed")],
        15 := [Event(Registration, "20% Instruction Remaining", "Twenty Percent of Instruction Remaining")],
        25 := [Event(Break, "Fall Break Begins", "Academic holiday - Fall Break (Nov 25 - Dec 1)")],
        26 := [Event(Break, "Fall Break", "Thanksgiving Break")],
        27 := [Event(Break, "Fall Break", "Thanksgiving Break")],
        28 := [Event(Holiday, "Thanksgiving", "Thanksgiving Day")],
        29 := [Event(Break, "Fall Break", "Thanksgiving Break")],
        30 := [Event(Break, "Fall Break", "Thanksgiving Break")]
      ],
      12 := map[
        1 := [Event(Break, "Fall Break Ends", "End of Fall Break")],
        6 := [Event(Term, "Last Day of Fall Classes", "Last day of classes")],
        7 := [Event(Exam, "Common Final Exams", "Common final exams (optional)")],
        9 := [Event(Exam, "Fall Finals Begin", "Final examination period Dec 9-13")],
        10 := [Event(Exam, "Fall Finals", "Final examinations continue")],
        11 := [Event(Exam, "Fall Finals", "Final examinations continue")],
        12 := [Event(Exam, "Fall Finals", "Final examinations continue")],
        13 := [Event(Exam, "Fall Finals End", "End of final examination period")],
        14 := [Event(Term, "Faculty Workday", "Faculty workday, no classes")],
        16 := [Event(Term, "Faculty Workday", "Faculty workday, no classes - End of term")],
        17 := [Event(Break, "Winter Break Begins", "Academic holiday (Dec 17 - Jan 5)")],
        25 := [Event(Holiday, "Christmas", "Christmas Day")]
      ]
    ],
    2025 := map[
      1 := map[
        1 := [Event(Holiday, "New Year's Day", "New Year's Day")],
        6 := [Event(Term, "Winter Classes Begin", "Beginning of winter term - classes begin")],
        17 := [Event(Registration, "End of Second Week", "End of second week of instruction")],
        20 := [Event(Holiday, "Martin Luther King Jr. Day", "Academic holiday - MLK Jr. Birthday observed")],
        21 := [Event(Term, "Monday Schedule", "Classes follow a Monday Schedule")],
        27 := [Event(Registration, "Census Date", "End of third week of instruction - Census date")]
      ],
      2 := map[
        17 := [Event(Holiday, "Presidents' Day", "Academic holiday - Washington's Birthday observed")],
        28 := [Event(Registration, "20% Instruction Remaining", "Twenty Percent of Instruction Remaining")]
      ],
      3 := map[
        14 := [Event(Term, "Last Day of Winter Classes", "Last day of classes")],
        15 := [Event(Exam, "Common Final Exams", "Common final exams (optional)")],
        17 := [Event(Exam, "Winter Finals Begin", "Final examination period March 17-21")],
        18 := [Event(Exam, "Winter Finals", "Final examinations continue")],
        19 := [Event(Exam, "Winter Finals", "Final examinations continue")],
        20 := [Event(Exam, "Winter Finals", "Final examinations continue")],
        21 := [Event(Exam, "Winter Finals End", "End of final examination period")],
        24 := [Event(Term, "Faculty Workday", "Faculty workday, no classes - End of term")],
        25 := [Event(Break, "Spring Break Begins", "Academic Holiday (March 25-31)")],
        26 := [Event(Break, "Spring Break", "Academic Holiday")],
        27 := [Event(Break, "Spring Break", "Academic Holiday")],
        28 := [Event(Break, "Spring Break", "Academic Holiday")],
        29 := [Event(Break, "Spring Break", "Academic Holiday")],
        30 := [Event(Break, "Spring Break", "Academic Holiday")],
        31 := [Event(Break, "Spring Break Ends", "End of Spring Break")]
      ],
      4 := map[
        1 := [Event(Term, "Spring Classes Begin", "Beginning of spring term - classes begin")],
        14 := [Event(Registration, "End of Second Week", "End of second week of instruction")],
        21 := [Event(Registration, "Census Date", "End of third week of instruction - Census date")]
      ],
      5 := map[
        22 := [Event(Registration, "20% Instruction Remaining", "Twenty Percent of Instruction Remaining")],
        26 := [Event(Holiday, "Memorial Day", "Academic holiday - Memorial Day observed")],
        27 := [Event(Term, "Monday Schedule", "Classes follow a Monday Schedule")]
      ],
      6 := map[
        6 := [Event(Term, "Last Day of Spring Classes", "Last day of classes")],
        7 := [Event(Exam, "Common Final Exams", "Common final exams (optional)")],
        9 := [Event(Exam, "Spring Finals Begin", "Final examination period June 9-13")],
        10 := [Event(Exam, "Spring Finals", "Final examinations continue")],
        11 := [Event(Exam, "Spring Finals", "Final examinations continue")],
        12 := [Event(Exam, "Spring Finals", "Final examinations continue")],
        13 := [Event(Exam, "Spring Finals End", "End of final examination period")],
        14 := [Event(Commencement, "Commencement", "Graduation ceremonies")],
        15 := [Event(Commencement, "Commencement", "Graduation ceremonies continue")],
        16 := [Event(Term, "Faculty Workday", "Faculty workday - End of term & university year")],
        23 := [Event(Term, "Beginning of University Year", "Summer 2025 term classes begin")]
      ],
      7 := map[
        4 := [Event(Holiday, "Independence Day", "Academic holiday")],
        7 := [Event(Registration, "End of Second Week", "End of second week of instruction")],
        14 := [Event(Registration, "Census Date", "End of third week of instruction - Census date")]
      ],
      8 := map[
        15 := [Event(Registration, "20% Instruction Remaining", "Twenty Percent of Instruction Remaining")],
        29 := [Event(Term, "Last Day of Summer Classes", "Last day of classes for 10-week session")]
      ],
      9 := map[
        1 := [Event(Holiday, "Labor Day", "Academic holiday")],
        2 := [Event(Exam, "Summer Finals Begin", "Final examination period Sept 2-5")],
        3 := [Event(Exam, "Summer Finals", "Final examinations continue")],
        4 := [Event(Exam, "Summer Finals", "Final examinations continue")],
        5 := [Event(Exam, "Summer Finals End", "End of summer term")],
        6 := [Event(Break, "Academic Holiday Begins", "Academic holiday Sept 6-10")],
        11 := [Event(Term, "Fall Term Begins (Faculty)", "Beginning of fall term (faculty only)")],
        18 := [Event(Term, "Fall Classes Begin", "First day of Fall 2025 classes")]
      ],
      10 := map[
        1 := [Event(Registration, "End of Second Week", "End of second week of instruction")],
        8 := [Event(Registration, "Census Date", "End of third week of instruction - Census date")]
      ],
      11 := map[
        11 := [Event(Holiday, "Veterans Day", "Academic holiday - Veterans Day observed")],
        14 := [Event(Registration, "20% Instruction Remaining", "Twenty Percent of Instruction Remaining")],
        24 := [Event(Break, "Fall Break Begins", "Academic holiday - Fall Break (Nov 24-30)")],
        25 := [Event(Break, "Fall Break", "Thanksgiving Break")],
        26 := [Event(Break, "Fall Break", "Thanksgiving Break")],
        27 := [Event(Holiday, "Thanksgiving", "Thanksgiving Day")],
        28 := [Event(Break, "Fall Break", "Thanksgiving Break")],
        29 := [Event(Break, "Fall Break", "Thanksgiving Break")],
        30 := [Event(Break, "Fall Break Ends", "End of Fall Break")]
      ],
      12 := map[
        5 := [Event(Term, "Last Day of Fall Classes", "Last day of classes")],
        6 := [Event(Exam, "Common Final Exams", "Common final exams (optional)")],
        8 := [Event(Exam, "Fall Finals Begin", "Final examination period Dec 8-12")],
        9 := [Event(Exam, "Fall Finals", "Final examinations continue")],
        10 := [Event(Exam, "Fall Finals", "Final examinations continue")],
        11 := [Event(Exam, "Fall Finals", "Final examinations continue")],
        12 := [Event(Exam, "Fall Finals End", "End of final examination period")],
        13 := [Event(Term, "Faculty Workday", "Faculty workday, no classes - End of term")],
        14 := [Event(Break, "Winter Break Begins", "Academic holiday (Dec 14 - Jan 4)")],
        25 := [Event(Holiday, "Christmas", "Christmas Day")]
      ]
    ],
    2026 := map[
      1 := map[
        1 := [Event(Holiday, "New Year's Day", "New Year's Day")],
        5 := [Event(Term, "Winter Classes Begin", "Beginning of winter term - classes begin")],
        16 := [Event(Registration, "End of Second Week", "End of second week of instruction")],
        19 := [Event(Holiday, "Martin Luther King Jr. Day", "Academic holiday - MLK Jr. Birthday observed")],
        20 := [Event(Term, "Monday Schedule", "Classes follow a Monday Schedule")],
        26 := [Event(Registration, "Census Date", "End of third week of instruction - Census date")]
      ],
      2 := map[
        16 := [Event(Holiday, "Presidents' Day", "Academic holiday - Washington's Birthday observed")],
        27 := [Event(Registration, "20% Instruction Remaining", "Twenty Percent of Instruction Remaining")]
      ],
      3 := map[
        13 := [Event(Term, "Last Day of Winter Classes", "Last day of classes")],
        14 := [Event(Exam, "Common Final Exams", "Common final exams (optional)")],
        16 := [Event(Exam, "Winter Finals Begin", "Final examination period March 16-20")],
        17 := [Event(Exam, "Winter Finals", "Final examinations continue")],
        18 := [Event(Exam, "Winter Finals", "Final examinations continue")],
        19 := [Event(Exam, "Winter Finals", "Final examinations continue")],
        20 := [Event(Exam, "Winter Finals End", "End of final examination period")],
        23 := [Event(Term, "Faculty Workday", "Faculty workday, no classes - End of term")],
        24 := [Event(Break, "Spring Break Begins", "Academic Holiday (March 24-29)")],
        25 := [Event(Break, "Spring Break", "Academic Holiday")],
        26 := [Event(Break, "Spring Break", "Academic Holiday")],
        27 := [Event(Break, "Spring Break", "Academic Holiday")],
        28 := [Event(Break, "Spring Break", "Academic Holiday")],
        29 := [Event(Break, "Spring Break Ends", "End of Spring Break")],
        30 := [Event(Term, "Spring Classes Begin", "Beginning of spring term - classes begin")],
        31 := [Event(Holiday, "Cesar Chavez Day", "Academic Holiday - Cesar Chavez Day")]
      ],
      4 := map[
        13 := [Event(Registration, "End of Second Week", "End of second week of instruction")],
        20 := [Event(Registration, "Census Date", "End of third week of instruction - Census date")]
      ],
      5 := map[
        21 := [Event(Registration, "20% Instruction Remaining", "Twenty Percent of Instruction Remaining")],
        25 := [Event(Holiday, "Memorial Day", "Academic holiday - Memorial Day observed")]
      ],
      6 := map[
        5 := [Event(Term, "Last Day of Spring Classes", "Last day of classes")],
        6 := [Event(Exam, "Common Final Exams", "Common final exams (optional)")],
        8 := [Event(Exam, "Spring Finals Begin", "Final examination period June 8-12")],
        9 := [Event(Exam, "Spring Finals", "Final examinations continue")],
        10 := [Event(Exam, "Spring Finals", "Final examinations continue")],
        11 := [Event(Exam, "Spring Finals", "Final examinations continue")],
        12 := [Event(Exam, "Spring Finals End", "End of final examination period")],
        13 := [Event(Commencement, "Commencement", "Graduation ceremonies")],
        14 := [Event(Commencement, "Commencement", "Graduation ceremonies - End of term & university year")]
      ]
    ]
  ]

  const EventTypeColors: map<EventType, string> := map[
    Term := "bg-cal-poly-forest text-white",
    Holiday := "bg-cal-poly-gold text-white",
    Registration := "bg-cal-poly-surf text-white",
    Exam := "bg-red-500 text-white",
    Break := "bg-orange-500 text-white",
    Commencement := "bg-purple-600 text-white"
  ]

  const EventTypeLabels: map<EventType, string> := map[
    Term := "Term",
    Holiday := "Holiday",
    Registration := "Registration",
    Exam := "Finals",
    Break := "Break",
    Commencement := "Graduation"
  ]

  /** Every event type, hence the type of every event in the table, has a
      color and a label. */
  lemma EveryTypeHasColorAndLabel(e: Event)
    ensures e.kind in EventTypeColors && e.kind in EventTypeLabels
  {
    match e.kind
    case Term =>
    case Holiday =>
    case Registration =>
    case Exam =>
    case Break =>
    case Commencement =>
  }

  /** `academicEvents[year]?.[month]?.[day] || []`. */
  function GetEventsForDate(table: Calendar, year: int, month: int, day: int): (r: seq<Event>)
    ensures !(year in table && month in table[year] && day in table[year][month]) ==> r == []
    ensures year in table && month in table[year] && day in table[year][month] ==>
      r == table[year][month][day]
  {
    if year in table && month in table[year] && day in table[year][month]
    then table[year][month][day] else []
  }

  /** `hasEvents`: the day's list has a positive length. */
  function HasEvents(table: Calendar, year: int, month: int, day: int): (b: bool)
    ensures b <==> GetEventsForDate(table, year, month, day) != []
  {
    var n := if year in table && month in table[year] && day in table[year][month]
             then |table[year][month][day]| else 0;
    n > 0
  }

  /** Independence Day 2024 is in the table. */
  lemma TableHasIndependenceDay()
    ensures GetEventsForDate(AcademicEvents, 2024, 7, 4) == [Event(Holiday, "Independence Day", "Academic holiday")]
  {
  }

  /** A day of a listed month without events has none. */
  lemma TableMissesDay()
    ensures !HasEvents(AcademicEvents, 2024, 7, 5)
  {
  }

  /** A year outside the table has no events. */
  lemma TableMissesYear()
    ensures GetEventsForDate(AcademicEvents, 2023, 7, 4) == []
  {
  }

  /** An entry of `getMonthEvents`: the event with its day and its Date. */
  datatype MonthEvent = MonthEvent(event: Event, day: int, date: TimeValue)

  /** The minimum of a non-empty set of integers. */
  function MinOf(s: set<int>): (m: int)
    requires s != {}
    ensures m in s && forall x :: x in s ==> m <= x
  {
    MinExists(s);
    var m :| m in s && forall x :: x in s ==> m <= x;
    m
  }

  lemma MinExists(s: set<int>)
    requires s != {}
    ensures exists m :: m in s && forall x :: x in s ==> m <= x
    decreases |s|
  {
    assert exists y :: y in s by {
      if forall x :: x !in s {
      }
    }
    var y :| y in s;
    if s - {y} != {} {
      MinExists(s - {y});
      var m :| m in s - {y} && forall x :: x in s - {y} ==> m <= x;
      var least := if y < m then y else m;
      forall x | x in s ensures least <= x {
        if x != y {
          assert x in s - {y};
        }
      }
    } else {
      assert forall x :: x in s ==> x == y;
    }
  }

  /** The keys of an object whose keys are integers, in the order
      `Object.entries` lists them: ascending. */
  function SortedKeys(s: set<int>): (r: seq<int>)
    ensures |r| == |s|
    ensures forall i :: 0 <= i < |r| ==> r[i] in s
    ensures forall i, j :: 0 <= i < j < |r| ==> r[i] < r[j]
    decreases |s|
  {
    if s == {} then []
    else
      var m := MinOf(s);
      var rest := SortedKeys(s - {m});
      assert forall i :: 0 <= i < |rest| ==> m < rest[i];
      [m] + rest
  }

  /** One day's entries, in the order of its event list. */
  function DayEntries(year: int, month: int, day: int, events: seq<Event>): (r: seq<MonthEvent>)
    ensures |r| == |events|
    ensures forall i :: 0 <= i < |r| ==>
      r[i] == MonthEvent(events[i], day, NewDate(Int(year), Int(month - 1), Int(day)))
  {
    if events == [] then []
    else [MonthEvent(events[0], day, NewDate(Int(year), Int(month - 1), Int(day)))]
         + DayEntries(year, month, day, events[1..])
  }

  /** The entries of the listed days, day after day. */
  function EntriesOfDays(year: int, month: int, days: seq<int>, monthEvents: map<int, seq<Event>>): seq<MonthEvent>
    requires forall i :: 0 <= i < |days| ==> days[i] in monthEvents
  {
    if days == [] then []
    else EntriesOfDays(year, month, days[..|days| - 1], monthEvents)
         + DayEntries(year, month, days[|days| - 1], monthEvents[days[|days| - 1]])
  }

  function MonthOf(table: Calendar, year: int, month: int): map<int, seq<Event>> {
    if year in table && month in table[year] then table[year][month] else map[]
  }

  /** The entries pushed by the nested loops of `getMonthEvents`, before sorting. */
  function MonthEntries(table: Calendar, year: int, month: int): seq<MonthEvent> {
    var monthEvents := MonthOf(table, year, month);
    EntriesOfDays(year, month, SortedKeys(monthEvents.Keys), monthEvents)
  }

  /** The comparator `a.day - b.day`. */
  function ByDay(): (MonthEvent, MonthEvent) -> bool {
    (a: MonthEvent, b: MonthEvent) => a.day <= b.day
  }

  /** `getMonthEvents`: for each day key in order, push one entry per event of
      that day; then sort by day. */
  method GetMonthEvents(table: Calendar, year: int, month: int) returns (events: seq<MonthEvent>)
    ensures events == SortBy(MonthEntries(table, year, month), ByDay())
  {
    var monthEvents := MonthOf(table, year, month);
    var days := SortedKeys(monthEvents.Keys);
    var list: seq<MonthEvent> := [];
    var i := 0;
    while i < |days|
      invariant 0 <= i <= |days|
      invariant list == EntriesOfDays(year, month, days[..i], monthEvents)
    {
      var day := days[i];
      var dayEvents := monthEvents[day];
      ghost var before := list;
      var j := 0;
      while j < |dayEvents|
        invariant 0 <= j <= |dayEvents|
        invariant list == before + DayEntries(year, month, day, dayEvents)[..j]
      {
        DayEntriesSnoc(year, month, day, dayEvents, j);
        list := list + [MonthEvent(dayEvents[j], day, NewDate(Int(year), Int(month - 1), Int(day)))];
        j := j + 1;
      }
      assert DayEntries(year, month, day, dayEvents)[..j] == DayEntries(year, month, day, dayEvents);
      EntriesOfDaysSnoc(year, month, days, i, monthEvents);
      i := i + 1;
    }
    assert days[..i] == days;
    events := SortBy(list, ByDay());
  }

  lemma DayEntriesSnoc(year: int, month: int, day: int, events: seq<Event>, j: nat)
    requires j < |events|
    ensures DayEntries(year, month, day, events)[..j + 1] ==
      DayEntries(year, month, day, events)[..j] + [MonthEvent(events[j], day, NewDate(Int(year), Int(month - 1), Int(day)))]
  {
    var r := DayEntries(year, month, day, events);
    assert r[..j + 1] == r[..j] + [r[j]];
  }

  lemma EntriesOfDaysSnoc(year: int, month: int, days: seq<int>, i: nat, monthEvents: map<int, seq<Event>>)
    requires i < |days|
    requires forall k :: 0 <= k < |days| ==> days[k] in monthEvents
    ensures EntriesOfDays(year, month, days[..i + 1], monthEvents) ==
      EntriesOfDays(year, month, days[..i], monthEvents) + DayEntries(year, month, days[i], monthEvents[days[i]])
  {
    assert days[..i + 1][..i] == days[..i];
  }

  /** An absent month gives no entries. */
  lemma AbsentMonthEmpty(table: Calendar, year: int, month: int)
    requires !(year in table && month in table[year])
    ensures SortBy(MonthEntries(table, year, month), ByDay()) == []
  {
  }

  function SumLengths(days: seq<int>, monthEvents: map<int, seq<Event>>): int
    requires forall i :: 0 <= i < |days| ==> days[i] in monthEvents
  {
    if days == [] then 0
    else SumLengths(days[..|days| - 1], monthEvents) + |monthEvents[days[|days| - 1]]|
  }

  /** The entries of listed days: as many as the events of those days, each
      with a listed day and the Date of that day (month `month - 1`, 0-based). */
  lemma {:induction false} EntriesOfDaysSpec(year: int, month: int, days: seq<int>, monthEvents: map<int, seq<Event>>)
    requires forall i :: 0 <= i < |days| ==> days[i] in monthEvents
    ensures var r := EntriesOfDays(year, month, days, monthEvents);
      && |r| == SumLengths(days, monthEvents)
      && forall k :: 0 <= k < |r| ==>
           r[k].day in days && r[k].event in monthEvents[r[k].day] &&
           r[k].date == NewDate(Int(year), Int(month - 1), Int(r[k].day))
  {
    if days != [] {
      var init := days[..|days| - 1];
      EntriesOfDaysSpec(year, month, init, monthEvents);
      var a := EntriesOfDays(year, month, init, monthEvents);
      var last := days[|days| - 1];
      var b := DayEntries(year, month, last, monthEvents[last]);
      var r := a + b;
      forall k | 0 <= k < |r|
        ensures r[k].day in days && r[k].event in monthEvents[r[k].day] &&
                r[k].date == NewDate(Int(year), Int(month - 1), Int(r[k].day))
      {
        if k < |a| {
          assert r[k] == a[k];
          assert r[k].day in init;
        } else {
          assert r[k] == b[k - |a|];
        }
      }
    }
  }

  /** Entries of days listed in ascending order are already in day order. */
  lemma {:induction false} EntriesOfDaysSorted(year: int, month: int, days: seq<int>, monthEvents: map<int, seq<Event>>)
    requires forall i :: 0 <= i < |days| ==> days[i] in monthEvents
    requires forall i, j :: 0 <= i < j < |days| ==> days[i] < days[j]
    ensures SortedBy(EntriesOfDays(year, month, days, monthEvents), ByDay())
  {
    if days != [] {
      var init := days[..|days| - 1];
      EntriesOfDaysSorted(year, month, init, monthEvents);
      EntriesOfDaysSpec(year, month, init, monthEvents);
      var a := EntriesOfDays(year, month, init, monthEvents);
      var last := days[|days| - 1];
      var b := DayEntries(year, month, last, monthEvents[last]);
      var r := a + b;
      forall i, j | 0 <= i < j < |r| ensures ByDay()(r[i], r[j]) {
        if j >= |a| {
          assert r[j].day == last;
          if i < |a| {
            assert r[i] == a[i];
            var k :| 0 <= k < |init| && init[k] == r[i].day;
            assert days[k] == r[i].day;
          }
        } else {
          assert r[i] == a[i] && r[j] == a[j];
        }
      }
    }
  }

  /** `getMonthEvents` lists one entry per event of the month, each carrying
      its day key and the Date of that day, in ascending day order; the sort
      leaves the order of the loops unchanged. */
  lemma MonthEventsSpec(table: Calendar, year: int, month: int)
    ensures var r := SortBy(MonthEntries(table, year, month), ByDay());
      var monthEvents := MonthOf(table, year, month);
      && r == MonthEntries(table, year, month)
      && |r| == SumLengths(SortedKeys(monthEvents.Keys), monthEvents)
      && (forall k :: 0 <= k < |r| ==>
            r[k].day in monthEvents && r[k].event in monthEvents[r[k].day] &&
            r[k].date == NewDate(Int(year), Int(month - 1), Int(r[k].day)))
      && (forall i, j :: 0 <= i < j < |r| ==> r[i].day <= r[j].day)
  {
    var monthEvents := MonthOf(table, year, month);
    var days := SortedKeys(monthEvents.Keys);
    EntriesOfDaysSpec(year, month, days, monthEvents);
    EntriesOfDaysSorted(year, month, days, monthEvents);
    SortByOfSorted(MonthEntries(table, year, month), ByDay());
  }
}
