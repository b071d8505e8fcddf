/**
  The sidebar of src/components/calendar/CalendarSidebar.tsx: a mini calendar
  with its own displayed month, which starts at the current date and then
  moves independently with JavaScript's setMonth, and the list of calendars
  with their visibility checkboxes.
*/
module CalendarSidebar {
  import opened Dates
  import opened CalendarContext
  import MonthView

  /** `days`: eachDayOfInterval from the first to the last day of the mini calendar's month. */
  function MiniDays(mini: Date): (days: seq<Date>)
    requires ValidDate(mini)
    ensures |days| == DaysInMonth(mini.year, mini.month)
    ensures forall k :: 0 <= k < |days| ==> ValidDate(days[k]) && DayNumber(days[k]) == DayNumber(StartOfMonth(mini)) + k
  {
    EachDay(StartOfMonth(mini), EndOfMonth(mini))
  }

  /** The k-th listed day is day k + 1 of the month, so every listed day is in the displayed month. */
  lemma MiniDaysInOrder(mini: Date)
    requires ValidDate(mini)
    ensures var days := MiniDays(mini);
      forall k :: 0 <= k < |days| ==> days[k] == Date(mini.year, mini.month, k + 1) && MonthView.IsCurrentMonth(days[k], mini)
  {
    var days := MiniDays(mini);
    forall k | 0 <= k < |days|
      ensures days[k] == Date(mini.year, mini.month, k + 1)
    {
      DayNumberInjective(days[k], Date(mini.year, mini.month, k + 1));
    }
  }

  /** A date is listed exactly when it is a day of the displayed month. */
  lemma MiniDaysMembers(mini: Date, x: Date)
    requires ValidDate(mini) && ValidDate(x)
    ensures x in MiniDays(mini) <==> MonthView.IsCurrentMonth(x, mini)
  {
    var days := MiniDays(mini);
    MiniDaysInOrder(mini);
    if MonthView.IsCurrentMonth(x, mini) {
      assert days[x.day - 1] == x;
    }
  }

  /** `emptyDays`: one blank cell per weekday before the month's first day (getDay of the 1st). */
  function LeadingBlanks(mini: Date): (n: int)
    requires ValidDate(mini)
    ensures 0 <= n < 7
  {
    Weekday(StartOfMonth(mini))
  }

  /**
    After the blanks, the k-th day lands in column (blanks + k) % 7, which is
    its own weekday, and blanks and days together fill at most 37 cells.
  */
  lemma MiniGridColumns(mini: Date)
    requires ValidDate(mini)
    ensures LeadingBlanks(mini) + |MiniDays(mini)| <= 37
    ensures var days := MiniDays(mini);
      forall k :: 0 <= k < |days| ==> (LeadingBlanks(mini) + k) % 7 == Weekday(days[k])
  {
    var days := MiniDays(mini);
    forall k | 0 <= k < |days|
      ensures (LeadingBlanks(mini) + k) % 7 == Weekday(days[k])
    {
      DayColumn(StartOfMonth(mini), days[k], k);
    }
  }

  /** The day `k` days after `first` has weekday (getDay of `first` + k) % 7. */
  lemma DayColumn(first: Date, x: Date, k: int)
    requires ValidDate(first) && ValidDate(x) && 0 <= k
    requires DayNumber(x) == DayNumber(first) + k
    ensures (Weekday(first) + k) % 7 == Weekday(x)
  {
    var a := DayNumber(first) + 1;
    SevenDivMod(a + k, a / 7 + (a % 7 + k) / 7, (a % 7 + k) % 7);
  }

  /** The 1st of the month `k` months after `d`'s, as setMonth computes it. */
  function TargetMonth(d: Date, k: int): (r: Date)
    ensures 0 <= r.month < 12 && r.day == 1
    ensures MonthIndex(r) == MonthIndex(d) + k
  {
    var idx := MonthIndex(d) + k;
    Date(idx / 12, idx % 12, 1)
  }

  /** The 1st of the month after the one of `f`: one month length later. */
  lemma FollowingMonth(f: Date)
    requires 0 <= f.month < 12 && f.day == 1
    ensures var g := if f.month == 11 then Date(f.year + 1, 0, 1) else Date(f.year, f.month + 1, 1);
      DayNumber(g) == DayNumber(f) + DaysInMonth(f.year, f.month)
  {
    MonthLength(f.year, f.month);
    YearLength(f.year);
  }

  /** When the day exists in the target month, setMonth keeps it there. */
  lemma SetMonthFits(d: Date, k: int)
    requires ValidDate(d)
    requires d.day <= DaysInMonth(TargetMonth(d, k).year, TargetMonth(d, k).month)
    ensures SetMonth(d, k) == TargetMonth(d, k).(day := d.day)
  {
    DayNumberInjective(SetMonth(d, k), TargetMonth(d, k).(day := d.day));
  }

  /**
    When the target month is too short for the day, setMonth rolls over:
    the result is in the month after the target, on the day by which the
    original day exceeds the target month's length.
  */
  lemma SetMonthOverflows(d: Date, k: int)
    requires ValidDate(d)
    requires d.day > DaysInMonth(TargetMonth(d, k).year, TargetMonth(d, k).month)
    ensures var f := TargetMonth(d, k);
      var over := d.day - DaysInMonth(f.year, f.month);
      SetMonth(d, k) == if f.month == 11 then Date(f.year + 1, 0, over) else Date(f.year, f.month + 1, over)
  {
    var f := TargetMonth(d, k);
    var over := d.day - DaysInMonth(f.year, f.month);
    var g := if f.month == 11 then Date(f.year + 1, 0, 1) else Date(f.year, f.month + 1, 1);
    FollowingMonth(f);
    DayNumberInjective(SetMonth(d, k), g.(day := over));
  }

  /**
    From 31 October 2025 the next-month arrow shows 1 December, as there is
    no 31 November.
  */
  lemma NextFromOctoberThirtyFirst()
    ensures SetMonth(Date(2025, 9, 31), 1) == Date(2025, 11, 1)
  {
    SetMonthOverflows(Date(2025, 9, 31), 1);
  }

  /** The header's addMonths, by contrast, stops at 30 November. */
  lemma HeaderClampsOctoberThirtyFirst()
    ensures AddMonths(Date(2025, 9, 31), 1) == Date(2025, 10, 30)
  {
  }

  /** From 31 March 2025 the previous-month arrow lands on 3 March, past the 28 days of February. */
  lemma PreviousFromMarchThirtyFirst()
    ensures SetMonth(Date(2025, 2, 31), -1) == Date(2025, 2, 3)
  {
    SetMonthOverflows(Date(2025, 2, 31), -1);
  }

  class Sidebar {
    const store: CalendarStore
    var miniCalendarDate: DateTime

    predicate Valid()
      reads this, store
    {
      ValidDateTime(miniCalendarDate) && store.Valid()
    }

    /** useState(currentDate): the mini calendar starts on the current date. */
    constructor (store: CalendarStore)
      requires store.Valid()
      ensures this.store == store && miniCalendarDate == store.currentDate
      ensures Valid()
    {
      this.store := store;
      miniCalendarDate := store.currentDate;
    }

    /** handlePrevMonth: setMonth(getMonth() - 1) on a copy; the time of day and the store stay. */
    method HandlePrevMonth()
      requires Valid()
      modifies this
      ensures miniCalendarDate == old(miniCalendarDate).(date := SetMonth(old(miniCalendarDate).date, -1))
      ensures store.currentDate == old(store.currentDate) && Valid()
    {
      miniCalendarDate := miniCalendarDate.(date := SetMonth(miniCalendarDate.date, -1));
    }

    /** handleNextMonth: setMonth(getMonth() + 1) on a copy; the time of day and the store stay. */
    method HandleNextMonth()
      requires Valid()
      modifies this
      ensures miniCalendarDate == old(miniCalendarDate).(date := SetMonth(old(miniCalendarDate).date, 1))
      ensures store.currentDate == old(store.currentDate) && Valid()
    {
      miniCalendarDate := miniCalendarDate.(date := SetMonth(miniCalendarDate.date, 1));
    }

    /**
      handleDayClick: the clicked day (a listed day, at midnight) becomes the
      current date; the mini calendar does not follow.
    */
    method HandleDayClick(day: Date)
      requires Valid() && ValidDate(day)
      modifies store
      ensures store.currentDate == DateTime(day, 0, 0)
      ensures store.view == old(store.view) && store.calendars == old(store.calendars)
      ensures miniCalendarDate == old(miniCalendarDate) && Valid()
    {
      store.SetCurrentDate(DateTime(day, 0, 0));
    }

    /** A calendar's checkbox: toggleCalendar(calendar.id). */
    method HandleToggle(id: string)
      requires Valid()
      modifies store
      ensures store.calendars == ToggleCalendars(old(store.calendars), id)
      ensures store.currentDate == old(store.currentDate) && store.view == old(store.view)
      ensures miniCalendarDate == old(miniCalendarDate) && Valid()
    {
      store.ToggleCalendar(id);
    }
  }
}
