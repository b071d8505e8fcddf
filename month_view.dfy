/**
  The month view of src/components/calendar/views/MonthView.tsx: the grid of
  whole Sunday-to-Saturday weeks covering the current month, the flags of
  each cell and the events drawn in it.
*/
module MonthView {
  import opened Dates
  import opened CalendarTypes
  import opened Wrappers
  import opened Placement
  import CalendarContext

  /**
    eachDayOfInterval from startOfWeek(startOfMonth(d)) to
    endOfWeek(endOfMonth(d)), weeks starting on Sunday. The year view draws
    each month with the same computation.
  */
  function MonthGrid(d: Date): (days: seq<Date>)
    requires ValidDate(d)
    ensures |days| > 0
    ensures days[0] == StartOfWeek(StartOfMonth(d)) && days[|days| - 1] == EndOfWeek(EndOfMonth(d))
    ensures forall i :: 0 <= i < |days| ==> ValidDate(days[i]) && DayNumber(days[i]) == DayNumber(days[0]) + i
    ensures |days| == DayNumber(days[|days| - 1]) - DayNumber(days[0]) + 1
  {
    EachDay(StartOfWeek(StartOfMonth(d)), EndOfWeek(EndOfMonth(d)))
  }

  /**
    The grid starts on the Sunday on or before the 1st, ends on the Saturday
    on or after the month's last day, and so holds four to six whole weeks.
  */
  lemma MonthGridShape(d: Date)
    requires ValidDate(d)
    ensures var g := MonthGrid(d);
      && |g| % 7 == 0 && 28 <= |g| <= 42
      && Weekday(g[0]) == 0 && DayNumber(StartOfMonth(d)) - 6 <= DayNumber(g[0]) <= DayNumber(StartOfMonth(d))
      && Weekday(g[|g| - 1]) == 6 && DayNumber(EndOfMonth(d)) <= DayNumber(g[|g| - 1]) <= DayNumber(EndOfMonth(d)) + 6
  {
    var g := MonthGrid(d);
    GridWeekday(d, |g| - 1);
    WholeWeeks(|g|);
  }

  /** A grid of 28 to 43 cells whose last cell sits in the last column holds 28 to 42 cells in whole weeks. */
  lemma WholeWeeks(n: int)
    requires 28 <= n <= 43 && (n - 1) % 7 == 6
    ensures n % 7 == 0 && n <= 42
  {
    SevenDivMod(n - 1, (n - 1) / 7, 6);
  }

  /** isSameMonth(day, currentDate). */
  predicate IsCurrentMonth(day: Date, current: Date) {
    day.year == current.year && day.month == current.month
  }

  predicate IsWeekend(day: Date)
    requires 0 <= day.month < 12
  {
    Weekday(day) == 0 || Weekday(day) == 6
  }

  /** The grid's day numbers are the day number of the month's first day, shifted back by its weekday. */
  lemma DayNumberInMonth(d: Date, k: int)
    requires ValidDate(d) && 1 <= k <= DaysInMonth(d.year, d.month)
    ensures ValidDate(Date(d.year, d.month, k))
    ensures DayNumber(Date(d.year, d.month, k)) == DayNumber(StartOfMonth(d)) + k - 1
  {
  }

  /**
    Day k of the month sits at index Weekday(first) + k - 1 of the grid and
    nowhere else: every day of the month appears exactly once.
  */
  lemma MonthDaysOnce(d: Date, k: int)
    requires ValidDate(d) && 1 <= k <= DaysInMonth(d.year, d.month)
    ensures var g, w := MonthGrid(d), Weekday(StartOfMonth(d));
      && w + k - 1 < |g|
      && g[w + k - 1] == Date(d.year, d.month, k)
      && forall i :: 0 <= i < |g| && g[i] == Date(d.year, d.month, k) ==> i == w + k - 1
  {
    var g, w := MonthGrid(d), Weekday(StartOfMonth(d));
    MonthGridShape(d);
    var f, l := DayNumber(StartOfMonth(d)), DayNumber(EndOfMonth(d));
    assert l == f + DaysInMonth(d.year, d.month) - 1;
    assert DayNumber(g[0]) == f - w;
    assert |g| == DayNumber(g[|g| - 1]) - DayNumber(g[0]) + 1;
    assert w + k - 1 < |g|;
    DayNumberInMonth(d, k);
    ConsecutiveMembers(g, DayNumber(g[0]), Date(d.year, d.month, k));
  }

  /** A grid cell is flagged isCurrentMonth exactly when it is one of the month's own days. */
  lemma CurrentMonthCells(d: Date, i: int)
    requires ValidDate(d)
    requires 0 <= i < |MonthGrid(d)|
    ensures var w := Weekday(StartOfMonth(d));
      IsCurrentMonth(MonthGrid(d)[i], d) <==> w <= i < w + DaysInMonth(d.year, d.month)
  {
    var g, w := MonthGrid(d), Weekday(StartOfMonth(d));
    if IsCurrentMonth(g[i], d) {
      DayNumberInMonth(d, g[i].day);
    } else if w <= i < w + DaysInMonth(d.year, d.month) {
      MonthDaysOnce(d, i - w + 1);
    }
  }

  /** Column i of every grid row holds weekday i: the grid's cell i falls on weekday i % 7. */
  lemma GridWeekday(d: Date, i: int)
    requires ValidDate(d)
    requires 0 <= i < |MonthGrid(d)|
    ensures Weekday(MonthGrid(d)[i]) == i % 7
  {
    var g := MonthGrid(d);
    WeekdayFromSunday(g[0], g[i], i);
  }

  /** The weekend flag falls on the first and last column of every grid row. */
  lemma WeekendCells(d: Date, i: int)
    requires ValidDate(d)
    requires 0 <= i < |MonthGrid(d)|
    ensures IsWeekend(MonthGrid(d)[i]) <==> i % 7 == 0 || i % 7 == 6
  {
    GridWeekday(d, i);
  }

  /** getEventsForDay: enabled calendar, start on `day`; every such event, in list order, with no cap. */
  function EventsForDay(events: seq<CalendarEvent>, cals: seq<Calendar>, day: Date): (r: seq<CalendarEvent>)
    ensures forall e :: e in r <==> e in events && e.calendarId in EnabledIds(cals) && e.start.date == day
  {
    Placed(events, cals, day, None)
  }

  /** A visible event is drawn in the grid cell of its start day and in no other cell. */
  lemma EventInOneCell(d: Date, events: seq<CalendarEvent>, cals: seq<Calendar>, e: CalendarEvent, i: int)
    requires ValidDate(d) && ValidDate(e.start.date)
    requires e in events && IsVisible(cals, e)
    requires 0 <= i < |MonthGrid(d)|
    ensures var g := MonthGrid(d);
      e in EventsForDay(events, cals, g[i]) <==> DayNumber(e.start.date) == DayNumber(g[0]) + i
  {
    var g := MonthGrid(d);
    if DayNumber(e.start.date) == DayNumber(g[0]) + i {
      DayNumberInjective(e.start.date, g[i]);
    }
  }

  /** The number of event entries drawn over a list of cells. */
  function CellTotal(events: seq<CalendarEvent>, cals: seq<Calendar>, cells: seq<Date>): nat {
    if cells == [] then 0 else |EventsForDay(events, cals, cells[0])| + CellTotal(events, cals, cells[1..])
  }

  /** How often `day` occurs in `cells`. */
  function Occurrences(cells: seq<Date>, day: Date): nat {
    if cells == [] then 0 else (if cells[0] == day then 1 else 0) + Occurrences(cells[1..], day)
  }

  /** The visible events starting on one of `cells`, in list order. */
  function VisibleWithin(events: seq<CalendarEvent>, cals: seq<Calendar>, cells: seq<Date>): seq<CalendarEvent> {
    if events == [] then []
    else
      (if IsVisible(cals, events[0]) && events[0].start.date in cells then [events[0]] else [])
        + VisibleWithin(events[1..], cals, cells)
  }

  /** VisibleWithin keeps exactly the visible events that start on one of the cells. */
  lemma {:induction false} VisibleWithinMembers(events: seq<CalendarEvent>, cals: seq<Calendar>, cells: seq<Date>)
    ensures forall e :: e in VisibleWithin(events, cals, cells) <==> e in events && IsVisible(cals, e) && e.start.date in cells
  {
    if events != [] {
      VisibleWithinMembers(events[1..], cals, cells);
      assert forall e :: e in events <==> e == events[0] || e in events[1..];
    }
  }

  lemma {:induction false} OccurrencesDistinct(cells: seq<Date>, day: Date)
    requires forall i, j :: 0 <= i < j < |cells| ==> cells[i] != cells[j]
    ensures Occurrences(cells, day) == if day in cells then 1 else 0
  {
    if cells != [] {
      OccurrencesDistinct(cells[1..], day);
      assert cells[0] !in cells[1..] by {
        forall j | 0 <= j < |cells[1..]| ensures cells[1..][j] != cells[0] {
          assert cells[1..][j] == cells[j + 1];
        }
      }
      assert day in cells <==> day == cells[0] || day in cells[1..];
    }
  }

  /** Adding one event in front adds one entry per cell of its start day, when it is visible. */
  lemma {:induction false} CellTotalCons(e: CalendarEvent, rest: seq<CalendarEvent>, cals: seq<Calendar>, cells: seq<Date>)
    ensures CellTotal([e] + rest, cals, cells)
         == (if IsVisible(cals, e) then Occurrences(cells, e.start.date) else 0) + CellTotal(rest, cals, cells)
  {
    if cells != [] {
      CellTotalCons(e, rest, cals, cells[1..]);
      PlacedAppend([e], rest, cals, cells[0], None);
      PlacedSingle(e, cals, cells[0], None);
    }
  }

  /**
    Over cells that are pairwise distinct days, the entries drawn are exactly
    the visible events starting on one of them, each once.
  */
  lemma {:induction false} CellTotalCountsVisible(events: seq<CalendarEvent>, cals: seq<Calendar>, cells: seq<Date>)
    requires forall i, j :: 0 <= i < j < |cells| ==> cells[i] != cells[j]
    ensures CellTotal(events, cals, cells) == |VisibleWithin(events, cals, cells)|
  {
    if events == [] {
      EmptyCells(cals, cells);
    } else {
      assert events == [events[0]] + events[1..];
      CellTotalCons(events[0], events[1..], cals, cells);
      OccurrencesDistinct(cells, events[0].start.date);
      CellTotalCountsVisible(events[1..], cals, cells);
    }
  }

  lemma {:induction false} EmptyCells(cals: seq<Calendar>, cells: seq<Date>)
    ensures CellTotal([], cals, cells) == 0
  {
    if cells != [] {
      EmptyCells(cals, cells[1..]);
    }
  }

  /** When every event is visible and starts on one of the cells, none is filtered out. */
  lemma {:induction false} VisibleWithinAll(events: seq<CalendarEvent>, cals: seq<Calendar>, cells: seq<Date>)
    requires forall e :: e in events ==> IsVisible(cals, e) && e.start.date in cells
    ensures VisibleWithin(events, cals, cells) == events
  {
    if events != [] {
      assert events[0] in events;
      assert forall e :: e in events[1..] ==> e in events;
      VisibleWithinAll(events[1..], cals, cells);
    }
  }

  /** One unfolding of VisibleWithin. */
  lemma VisibleWithinStep(events: seq<CalendarEvent>, cals: seq<Calendar>, cells: seq<Date>)
    requires events != []
    ensures VisibleWithin(events, cals, cells)
         == (if IsVisible(cals, events[0]) && events[0].start.date in cells then [events[0]] else [])
            + VisibleWithin(events[1..], cals, cells)
  {
  }

  lemma EmptyWithin(cals: seq<Calendar>, cells: seq<Date>)
    ensures VisibleWithin([], cals, cells) == []
  {
  }

  /** Filtering distributes over concatenation: the kept events stay in list order. */
  lemma {:induction false} VisibleWithinAppend(a: seq<CalendarEvent>, b: seq<CalendarEvent>, cals: seq<Calendar>, cells: seq<Date>)
    ensures VisibleWithin(a + b, cals, cells) == VisibleWithin(a, cals, cells) + VisibleWithin(b, cals, cells)
  {
    if a != [] {
      var h := if IsVisible(cals, a[0]) && a[0].start.date in cells then [a[0]] else [];
      var x, y := VisibleWithin(a[1..], cals, cells), VisibleWithin(b, cals, cells);
      assert (a + b)[0] == a[0] && (a + b)[1..] == a[1..] + b;
      VisibleWithinStep(a + b, cals, cells);
      VisibleWithinAppend(a[1..], b, cals, cells);
      VisibleWithinStep(a, cals, cells);
      assert h + (x + y) == (h + x) + y;
    } else {
      assert a + b == b;
    }
  }

  /** The month grid holds no day twice. */
  lemma MonthGridDistinct(d: Date)
    requires ValidDate(d)
    ensures var g := MonthGrid(d); forall i, j :: 0 <= i < j < |g| ==> g[i] != g[j]
  {
  }

  /** Day numbers of the days around October 2025. */
  lemma October2025Numbers()
    ensures DayNumber(Date(2025, 8, 28)) == 739521 && DayNumber(Date(2025, 9, 1)) == 739524
    ensures DayNumber(Date(2025, 9, 31)) == 739554 && DayNumber(Date(2025, 10, 1)) == 739555
    ensures Weekday(Date(2025, 9, 1)) == 3 && Weekday(Date(2025, 9, 31)) == 5
  {
    SevenDivMod(DayNumber(Date(2025, 9, 1)) + 1, 105646, 3);
    SevenDivMod(DayNumber(Date(2025, 9, 31)) + 1, 105650, 5);
  }

  /**
    October 2025 starts on a Wednesday and ends on a Friday: for any current
    date in that month the grid runs from Sunday 28 September to Saturday
    1 November, five rows.
  */
  lemma October2025Grid(d: Date)
    requires ValidDate(d) && d.year == 2025 && d.month == 9
    ensures var g := MonthGrid(d);
      && |g| == 35 && g[0] == Date(2025, 8, 28) && g[34] == Date(2025, 10, 1)
      && Weekday(StartOfMonth(d)) == 3
  {
    var g := MonthGrid(d);
    October2025Numbers();
    assert StartOfMonth(d) == Date(2025, 9, 1) && EndOfMonth(d) == Date(2025, 9, 31);
    assert DayNumber(g[0]) == 739521 && DayNumber(g[|g| - 1]) == 739555;
    DayNumberInjective(g[0], Date(2025, 8, 28));
    DayNumberInjective(g[34], Date(2025, 10, 1));
  }

  /** Every seeded event starts on 1 November 2025 or on a day of October 2025. */
  lemma SeedStartDays()
    ensures forall k :: 0 <= k < |CalendarContext.SampleEvents| ==>
      var s := CalendarContext.SampleEvents[k].start.date;
      s == Date(2025, 10, 1) || (s.year == 2025 && s.month == 9 && 1 <= s.day <= 31)
  {
  }

  /** Every day of October 2025, and 1 November 2025, is a cell of the October 2025 grid. */
  lemma InOctober2025Grid(d: Date, x: Date)
    requires ValidDate(d) && d.year == 2025 && d.month == 9
    requires x == Date(2025, 10, 1) || (x.year == 2025 && x.month == 9 && 1 <= x.day <= 31)
    ensures x in MonthGrid(d)
  {
    October2025Grid(d);
    if x != Date(2025, 10, 1) {
      MonthDaysOnce(d, x.day);
    }
  }

  /** Every seeded event starts on a day of the October 2025 grid. */
  lemma SeedStartsInOctober2025(d: Date)
    requires ValidDate(d) && d.year == 2025 && d.month == 9
    ensures forall e :: e in CalendarContext.SampleEvents ==> e.start.date in MonthGrid(d)
  {
    var events := CalendarContext.SampleEvents;
    SeedStartDays();
    forall e | e in events ensures e.start.date in MonthGrid(d) {
      var k :| 0 <= k < |events| && events[k] == e;
      InOctober2025Grid(d, e.start.date);
    }
  }

  /** When every event is visible and starts on a day of the grid, the grid draws each of them exactly once. */
  lemma GridDrawsEach(d: Date, events: seq<CalendarEvent>, cals: seq<Calendar>)
    requires ValidDate(d)
    requires forall e :: e in events ==> IsVisible(cals, e) && e.start.date in MonthGrid(d)
    ensures CellTotal(events, cals, MonthGrid(d)) == |events|
  {
    MonthGridDistinct(d);
    CellTotalCountsVisible(events, cals, MonthGrid(d));
    VisibleWithinAll(events, cals, MonthGrid(d));
  }

  /** With the seeded calendars, a grid of October 2025 draws all seven seeded events, each once. */
  lemma October2025Events(d: Date)
    requires ValidDate(d) && d.year == 2025 && d.month == 9
    ensures CellTotal(CalendarContext.SampleEvents, CalendarContext.SampleCalendars, MonthGrid(d)) == 7
  {
    SeedStartsInOctober2025(d);
    CalendarContext.SeedAllVisible();
    GridDrawsEach(d, CalendarContext.SampleEvents, CalendarContext.SampleCalendars);
  }

  /**
    When every event but the j-th is visible on a day of the grid and the
    j-th is hidden, the grid draws every event but that one, each once.
  */
  lemma GridDrawsAllBut(d: Date, events: seq<CalendarEvent>, j: int, cals: seq<Calendar>)
    requires ValidDate(d) && 0 <= j < |events|
    requires forall k :: 0 <= k < |events| && k != j ==>
               IsVisible(cals, events[k]) && events[k].start.date in MonthGrid(d)
    requires !IsVisible(cals, events[j])
    ensures CellTotal(events, cals, MonthGrid(d)) == |events| - 1
  {
    var g := MonthGrid(d);
    var a, x, b := events[..j], events[j], events[j + 1..];
    assert events == a + [x] + b;
    AroundShown(events, j, cals, g);
    VisibleAround(a, x, b, cals, g);
    MonthGridDistinct(d);
    CellTotalCountsVisible(a + [x] + b, cals, g);
  }

  /** The events before and after the j-th inherit the index-wise facts as membership facts. */
  lemma AroundShown(events: seq<CalendarEvent>, j: int, cals: seq<Calendar>, cells: seq<Date>)
    requires 0 <= j < |events|
    requires forall k :: 0 <= k < |events| && k != j ==>
               IsVisible(cals, events[k]) && events[k].start.date in cells
    ensures forall e :: e in events[..j] ==> IsVisible(cals, e) && e.start.date in cells
    ensures forall e :: e in events[j + 1..] ==> IsVisible(cals, e) && e.start.date in cells
  {
    forall e | e in events[..j] ensures IsVisible(cals, e) && e.start.date in cells {
      var k :| 0 <= k < j && events[..j][k] == e;
      assert e == events[k];
    }
    forall e | e in events[j + 1..] ensures IsVisible(cals, e) && e.start.date in cells {
      var k :| 0 <= k < |events| - j - 1 && events[j + 1..][k] == e;
      assert e == events[k + j + 1];
    }
  }

  /** Between events that are all visible on the cells, a hidden one is the only one filtered out. */
  lemma VisibleAround(a: seq<CalendarEvent>, x: CalendarEvent, b: seq<CalendarEvent>, cals: seq<Calendar>, cells: seq<Date>)
    requires forall e :: e in a ==> IsVisible(cals, e) && e.start.date in cells
    requires forall e :: e in b ==> IsVisible(cals, e) && e.start.date in cells
    requires !IsVisible(cals, x)
    ensures VisibleWithin(a + [x] + b, cals, cells) == a + b
  {
    VisibleWithinAll(a, cals, cells);
    VisibleWithinAll(b, cals, cells);
    VisibleWithinStep([x], cals, cells);
    assert [x][1..] == [];
    assert VisibleWithin([x], cals, cells) == [] by {
      EmptyWithin(cals, cells);
    }
    VisibleWithinAppend(a, [x], cals, cells);
    assert VisibleWithin(a + [x], cals, cells) == a;
    VisibleWithinAppend(a + [x], b, cals, cells);
  }

  /**
    With calendar '2' unticked, a grid of October 2025 draws six entries:
    every seeded event but Halloween, each once.
  */
  lemma October2025WithoutCalendarTwo(d: Date)
    requires ValidDate(d) && d.year == 2025 && d.month == 9
    ensures CellTotal(CalendarContext.SampleEvents,
                      CalendarContext.ToggleCalendars(CalendarContext.SampleCalendars, "2"), MonthGrid(d)) == 6
  {
    var events := CalendarContext.SampleEvents;
    var cals := CalendarContext.ToggleCalendars(CalendarContext.SampleCalendars, "2");
    SeedStartsInOctober2025(d);
    CalendarContext.SeedWithoutCalendarTwo();
    forall k | 0 <= k < |events| && k != 3
      ensures events[k].start.date in MonthGrid(d)
    {
      assert events[k] in events;
    }
    GridDrawsAllBut(d, events, 3, cals);
  }
}
