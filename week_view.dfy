/**
  The week view of src/components/calendar/views/WeekView.tsx: seven day
  columns from the Sunday of the current week, each cut into 24 hour slots
  that show the events starting in that hour.
*/
module WeekView {
  import opened Dates
  import opened CalendarTypes
  import opened Wrappers
  import opened Placement
  import CalendarContext

  /** eachDayOfInterval(startOfWeek(currentDate), endOfWeek(currentDate)), weeks starting on Sunday. */
  function WeekDays(current: Date): (days: seq<Date>)
    requires ValidDate(current)
    ensures |days| == 7
    ensures forall i :: 0 <= i < 7 ==> ValidDate(days[i]) && DayNumber(days[i]) == DayNumber(current) - Weekday(current) + i
  {
    EachDay(StartOfWeek(current), EndOfWeek(current))
  }

  /**
    Column i is weekday i (Sunday first), the current date sits in its own
    weekday's column, and a date is shown exactly when it lies in the same
    Sunday-to-Saturday week as the current date.
  */
  lemma WeekDaysShape(current: Date)
    requires ValidDate(current)
    ensures var days := WeekDays(current);
      && (forall i :: 0 <= i < 7 ==> Weekday(days[i]) == i)
      && days[Weekday(current)] == current
      && forall x :: ValidDate(x) ==>
           (x in days <==> DayNumber(current) - Weekday(current) <= DayNumber(x) < DayNumber(current) - Weekday(current) + 7)
  {
    var days := WeekDays(current);
    forall i | 0 <= i < 7 ensures Weekday(days[i]) == i {
      WeekdayAfter(current, days[i], i);
    }
    DayNumberInjective(days[Weekday(current)], current);
    forall x | ValidDate(x)
      ensures x in days <==> DayNumber(current) - Weekday(current) <= DayNumber(x) < DayNumber(current) - Weekday(current) + 7
    {
      ConsecutiveMembers(days, DayNumber(current) - Weekday(current), x);
    }
  }

  /** A shown date sits in the column of its own weekday. */
  lemma ColumnOfDay(current: Date, x: Date)
    requires ValidDate(current) && ValidDate(x)
    requires x in WeekDays(current)
    ensures WeekDays(current)[Weekday(x)] == x
  {
    var days := WeekDays(current);
    WeekDaysShape(current);
    ConsecutiveMembers(days, DayNumber(current) - Weekday(current), x);
  }

  /** getEventsForDayAndHour: enabled calendar, start on `day`, start hour `hour`. */
  function EventsForDayAndHour(events: seq<CalendarEvent>, cals: seq<Calendar>, day: Date, hour: int): (r: seq<CalendarEvent>)
    ensures forall e :: e in r <==> e in events && IsVisible(cals, e) && e.start.date == day && e.start.hour == hour
  {
    Placed(events, cals, day, Some(hour))
  }

  /**
    A visible event is drawn in the week grid exactly once: in the column of
    its start day's weekday and the row of its start hour, provided that day
    lies in the shown week; otherwise nowhere.
  */
  lemma EventCell(current: Date, events: seq<CalendarEvent>, cals: seq<Calendar>, e: CalendarEvent, i: int, h: int)
    requires ValidDate(current) && ValidDate(e.start.date)
    requires e in events && IsVisible(cals, e)
    requires 0 <= i < 7
    ensures e in EventsForDayAndHour(events, cals, WeekDays(current)[i], h)
        <==> e.start.date in WeekDays(current) && i == Weekday(e.start.date) && h == e.start.hour
  {
    var days := WeekDays(current);
    WeekDaysShape(current);
    if e.start.date in days {
      ColumnOfDay(current, e.start.date);
    }
  }

  /** Each column's 24 hour slots hold exactly the visible events starting on that day, each once. */
  lemma ColumnHoldsDay(current: Date, events: seq<CalendarEvent>, cals: seq<Calendar>, i: int)
    requires ValidDate(current) && 0 <= i < 7
    requires forall e :: e in events ==> 0 <= e.start.hour < 24
    ensures multiset(SlotEntries(events, cals, WeekDays(current)[i], Hours()))
         == multiset(Placed(events, cals, WeekDays(current)[i], None))
  {
    DaySlotsPartition(events, cals, WeekDays(current)[i]);
  }

  /** Within the seven days from a Sunday, the week shown starts on that Sunday. */
  lemma WeekOfSunday(d: Date, sunday: Date)
    requires ValidDate(d) && ValidDate(sunday) && Weekday(sunday) == 0
    requires DayNumber(sunday) <= DayNumber(d) < DayNumber(sunday) + 7
    ensures WeekDays(d)[0] == sunday
  {
    var n := DayNumber(d) - DayNumber(sunday);
    WeekdayFromSunday(sunday, d, n);
    SevenDivMod(n, 0, n);
    var first := WeekDays(d)[0];
    assert DayNumber(first) == DayNumber(d) - n;
    DayNumberInjective(first, sunday);
  }

  /**
    For any current date from Sunday 5 to Saturday 11 October 2025, the
    seeded team meeting (14:00 to 15:00 on the 5th) is drawn only in the
    Sunday column, in the 14:00 row.
  */
  lemma SeedMeetingCell(d: Date, i: int, h: int)
    requires ValidDate(d) && d.year == 2025 && d.month == 9 && 5 <= d.day <= 11
    requires 0 <= i < 7
    ensures var meeting := CalendarContext.SampleEvents[5];
      meeting in EventsForDayAndHour(CalendarContext.SampleEvents, CalendarContext.SampleCalendars, WeekDays(d)[i], h)
      <==> i == 0 && h == 14
  {
    var meeting := CalendarContext.SampleEvents[5];
    CalendarContext.SeedMeeting();
    OctoberFifthSunday();
    WeekOfSunday(d, meeting.start.date);
    WeekDaysShape(d);
    EventCell(d, CalendarContext.SampleEvents, CalendarContext.SampleCalendars, meeting, i, h);
  }

  /** 5 October 2025 was a Sunday. */
  lemma OctoberFifthSunday()
    ensures Weekday(Date(2025, 9, 5)) == 0
  {
    SevenDivMod(DayNumber(Date(2025, 9, 5)) + 1, 105647, 0);
  }
}
