/**
  The year view of src/components/calendar/views/YearView.tsx: twelve month
  tiles of the current year, each the same week grid the month view draws,
  with days outside the tile's own month dimmed. It shows no events; a click
  on any day makes that day, at midnight, the current date.
*/
module YearView {
  import opened Dates
  import opened CalendarContext
  import MonthView

  /** `months`: the 1st of each month of the current date's year, January first. */
  function YearMonths(current: Date): (months: seq<Date>)
    ensures |months| == 12
    ensures forall i :: 0 <= i < 12 ==> months[i] == Date(current.year, i, 1)
  {
    seq(12, i => Date(current.year, i, 1))
  }

  /** The tiles depend on the year of the current date alone. */
  lemma TilesFollowYear(a: Date, b: Date)
    requires a.year == b.year
    ensures YearMonths(a) == YearMonths(b)
  {
    assert forall i :: 0 <= i < 12 ==> YearMonths(a)[i] == YearMonths(b)[i];
  }

  /** Tile i comes before tile j when i < j: the tiles run through the year in calendar order. */
  lemma TilesInOrder(current: Date, i: int, j: int)
    requires 0 <= i < j < 12
    ensures ValidDate(YearMonths(current)[i]) && ValidDate(YearMonths(current)[j])
    ensures DayNumber(YearMonths(current)[i]) < DayNumber(YearMonths(current)[j])
  {
    MonthLength(current.year, i);
    MonthsAscend(current.year, i, j);
  }

  /**
    renderMonth(monthDate): tile i flags a cell as belonging to its month
    (isSameMonth against monthDate, not against the current date) exactly for
    the days of month i.
  */
  lemma TileFlags(current: Date, i: int, k: int)
    requires 0 <= i < 12
    requires 0 <= k < |MonthView.MonthGrid(YearMonths(current)[i])|
    ensures var m := YearMonths(current)[i];
      var w := Weekday(StartOfMonth(m));
      MonthView.IsCurrentMonth(MonthView.MonthGrid(m)[k], m) <==> w <= k < w + DaysInMonth(current.year, i)
  {
    MonthView.CurrentMonthCells(YearMonths(current)[i], k);
  }

  /**
    Every day of the current year is drawn, undimmed, in the tile of its own
    month, and is dimmed in the tiles of the other months.
  */
  lemma EveryDayInItsTile(current: Date, x: Date)
    requires ValidDate(x) && x.year == current.year
    ensures var months := YearMonths(current);
      && x in MonthView.MonthGrid(months[x.month])
      && MonthView.IsCurrentMonth(x, months[x.month])
      && forall i :: 0 <= i < 12 && i != x.month ==> !MonthView.IsCurrentMonth(x, months[i])
  {
    var m := YearMonths(current)[x.month];
    MonthView.MonthDaysOnce(m, x.day);
    assert Date(m.year, m.month, x.day) == x;
  }

  /** onClick of a day cell: setCurrentDate(day), with the day's time at midnight. */
  method ClickDay(store: CalendarStore, day: Date)
    requires ValidDate(day)
    modifies store
    ensures store.currentDate == DateTime(day, 0, 0)
    ensures store.view == old(store.view) && store.calendars == old(store.calendars)
    ensures store.Valid()
  {
    store.SetCurrentDate(DateTime(day, 0, 0));
  }
}
