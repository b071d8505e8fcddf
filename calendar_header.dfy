/**
  The navigation of src/components/calendar/CalendarHeader.tsx: the previous
  and next arrows move the current date by one unit of the current view, the
  today button jumps to the fixed date 5 October 2025, and the view menu
  picks one of the five views.
*/
module CalendarHeader {
  import opened Dates
  import opened CalendarTypes
  import opened CalendarContext

  datatype Direction = Previous | Next

  function Sign(dir: Direction): int {
    if dir == Next then 1 else -1
  }

  function Opposite(dir: Direction): Direction {
    if dir == Next then Previous else Next
  }

  /**
    The date an arrow moves to: addMonths, addWeeks, addDays or addYears by
    one (their sub- counterparts going back), keeping the time of day. The
    agenda view has no case in either switch, so the date stays.
  */
  function Step(t: DateTime, view: CalendarView, dir: Direction): (r: DateTime)
    requires ValidDate(t.date)
    ensures ValidDate(r.date) && r.hour == t.hour && r.minute == t.minute
    ensures view == Day ==> DayNumber(r.date) == DayNumber(t.date) + Sign(dir)
    ensures view == Week ==> DayNumber(r.date) == DayNumber(t.date) + 7 * Sign(dir)
    ensures view == Month ==> MonthIndex(r.date) == MonthIndex(t.date) + Sign(dir)
    ensures view == Year ==> MonthIndex(r.date) == MonthIndex(t.date) + 12 * Sign(dir)
    ensures view == Agenda ==> r == t
  {
    match view
    case Month => t.(date := AddMonths(t.date, Sign(dir)))
    case Week => t.(date := AddDays(t.date, 7 * Sign(dir)))
    case Day => t.(date := AddDays(t.date, Sign(dir)))
    case Year => t.(date := AddMonths(t.date, 12 * Sign(dir)))
    case Agenda => t
  }

  /** A year step lands on the same month of the next or previous year. */
  lemma YearStepMonth(t: DateTime, dir: Direction)
    requires ValidDate(t.date)
    ensures Step(t, Year, dir).date.year == t.date.year + Sign(dir)
    ensures Step(t, Year, dir).date.month == t.date.month
  {
    var r := Step(t, Year, dir).date;
    MonthIndexInjective(r, Date(t.date.year + Sign(dir), t.date.month, 1));
  }

  /** In day and week views, one step forward and one back (in either order) return to the same date and time. */
  lemma DayWeekRoundTrip(t: DateTime, view: CalendarView, dir: Direction)
    requires ValidDate(t.date) && (view == Day || view == Week)
    ensures Step(Step(t, view, dir), view, Opposite(dir)) == t
  {
    var n := if view == Day then Sign(dir) else 7 * Sign(dir);
    AddDaysInverse(t.date, n);
  }

  /** `n` arrow presses in the same view and direction. */
  function Steps(t: DateTime, view: CalendarView, dir: Direction, n: nat): (r: DateTime)
    requires ValidDate(t.date)
    ensures ValidDate(r.date)
    decreases n
  {
    if n == 0 then t else Steps(Step(t, view, dir), view, dir, n - 1)
  }

  /** `n` day steps move the date by `n` days, back or forward, and keep the time. */
  lemma {:induction false} DaySteps(t: DateTime, dir: Direction, n: nat)
    requires ValidDate(t.date)
    ensures var r := Steps(t, Day, dir, n);
      && DayNumber(r.date) == DayNumber(t.date) + n * Sign(dir)
      && r.hour == t.hour && r.minute == t.minute
    decreases n
  {
    if n > 0 {
      DaySteps(Step(t, Day, dir), dir, n - 1);
      assert (n - 1) * Sign(dir) + Sign(dir) == n * Sign(dir);
    }
  }

  /** `n` week steps move the date by 7n days, back or forward, and keep the time. */
  lemma {:induction false} WeekSteps(t: DateTime, dir: Direction, n: nat)
    requires ValidDate(t.date)
    ensures var r := Steps(t, Week, dir, n);
      && DayNumber(r.date) == DayNumber(t.date) + 7 * n * Sign(dir)
      && r.hour == t.hour && r.minute == t.minute
    decreases n
  {
    if n > 0 {
      WeekSteps(Step(t, Week, dir), dir, n - 1);
      assert 7 * (n - 1) * Sign(dir) + 7 * Sign(dir) == 7 * n * Sign(dir);
    }
  }

  /** In agenda view any number of arrow presses leaves the date and time as they are. */
  lemma {:induction false} AgendaSteps(t: DateTime, dir: Direction, n: nat)
    requires ValidDate(t.date)
    ensures Steps(t, Agenda, dir, n) == t
    decreases n
  {
    if n > 0 {
      AgendaSteps(Step(t, Agenda, dir), dir, n - 1);
    }
  }

  /** A week step is seven day steps. */
  lemma WeekIsSevenDays(t: DateTime, dir: Direction)
    requires ValidDate(t.date)
    ensures Step(t, Week, dir) == Steps(t, Day, dir, 7)
  {
    DaySteps(t, dir, 7);
    DayNumberInjective(Step(t, Week, dir).date, Steps(t, Day, dir, 7).date);
  }

  /**
    A month step and its opposite return to the same date whenever the day is
    at most 28, the shortest month length, so that no clamping happens.
  */
  lemma MonthRoundTrip(t: DateTime, dir: Direction)
    requires ValidDate(t.date) && t.date.day <= 28
    ensures Step(Step(t, Month, dir), Month, Opposite(dir)) == t
  {
    var back := Step(Step(t, Month, dir), Month, Opposite(dir));
    MonthIndexInjective(back.date, t.date);
  }

  /**
    Past the 28th a month round trip can lose days: from 31 January 2025 the
    next month is 28 February, and going back from there gives 28 January.
  */
  lemma MonthRoundTripClamps()
    ensures Step(At(2025, 0, 31, 9, 0), Month, Next) == At(2025, 1, 28, 9, 0)
    ensures Step(At(2025, 1, 28, 9, 0), Month, Previous) == At(2025, 0, 28, 9, 0)
  {
  }

  /** handleToday's target: `new Date(2025, 9, 5)`, the provider's initial date. */
  const Today: DateTime := At(2025, 9, 5, 0, 0)

  /** handlePrevious and handleNext: set the current date to the step's result, except in agenda view. */
  method Navigate(store: CalendarStore, dir: Direction)
    requires store.Valid()
    modifies store
    ensures store.currentDate == Step(old(store.currentDate), old(store.view), dir)
    ensures store.view == old(store.view) && store.calendars == old(store.calendars)
    ensures store.Valid()
  {
    if store.view != Agenda {
      store.SetCurrentDate(Step(store.currentDate, store.view, dir));
    }
  }

  method HandlePrevious(store: CalendarStore)
    requires store.Valid()
    modifies store
    ensures store.currentDate == Step(old(store.currentDate), old(store.view), Previous)
    ensures store.view == old(store.view) && store.calendars == old(store.calendars)
    ensures store.Valid()
  {
    Navigate(store, Previous);
  }

  method HandleNext(store: CalendarStore)
    requires store.Valid()
    modifies store
    ensures store.currentDate == Step(old(store.currentDate), old(store.view), Next)
    ensures store.view == old(store.view) && store.calendars == old(store.calendars)
    ensures store.Valid()
  {
    Navigate(store, Next);
  }

  /** handleToday: 5 October 2025 at midnight, whatever the current date and view. */
  method HandleToday(store: CalendarStore)
    modifies store
    ensures store.currentDate == Today && store.currentDate == InitialDate
    ensures store.view == old(store.view) && store.calendars == old(store.calendars)
    ensures store.Valid()
  {
    store.SetCurrentDate(Today);
  }

  /** A view-menu item: setView with exactly the chosen view. */
  method SelectView(store: CalendarStore, v: CalendarView)
    requires store.Valid()
    modifies store
    ensures store.view == v
    ensures store.currentDate == old(store.currentDate) && store.calendars == old(store.calendars)
    ensures store.Valid()
  {
    store.SetView(v);
  }
}
