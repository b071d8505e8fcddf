/**
  The day view of src/components/calendar/views/DayView.tsx: the current
  date cut into 24 hour slots, each showing the visible events that start on
  that date in that hour.
*/
module DayView {
  import opened Dates
  import opened CalendarTypes
  import opened Wrappers
  import opened Placement
  import MonthView
  import WeekView
  import CalendarContext

  /** getEventsForHour: enabled calendar, start on the current date, start hour `hour`. */
  function EventsForHour(events: seq<CalendarEvent>, cals: seq<Calendar>, current: Date, hour: int): (r: seq<CalendarEvent>)
    ensures forall e :: e in r <==> e in events && IsVisible(cals, e) && e.start.date == current && e.start.hour == hour
  {
    WeekView.EventsForDayAndHour(events, cals, current, hour)
  }

  /** The events of the 24 slots, slot after slot. */
  function DayEntries(events: seq<CalendarEvent>, cals: seq<Calendar>, current: Date): seq<CalendarEvent> {
    SlotEntries(events, cals, current, Hours())
  }

  /**
    The slots of the day view hold, all together, exactly the events the
    month view draws in the current date's cell, each as often as there.
  */
  lemma DayMatchesMonthCell(events: seq<CalendarEvent>, cals: seq<Calendar>, current: Date)
    requires forall e :: e in events ==> 0 <= e.start.hour < 24
    ensures multiset(DayEntries(events, cals, current)) == multiset(MonthView.EventsForDay(events, cals, current))
  {
    DaySlotsPartition(events, cals, current);
  }

  /** Each visible event of the current date is in the slot of its start hour and in no other. */
  lemma EventSlot(events: seq<CalendarEvent>, cals: seq<Calendar>, current: Date, e: CalendarEvent, h: int)
    requires e in events && IsVisible(cals, e) && e.start.date == current
    ensures e in EventsForHour(events, cals, current, h) <==> h == e.start.hour
  {
  }

  /**
    On 5 October 2025 with the seeded data, the team meeting (14:00 to
    15:00) fills the 14:00 slot alone: every other slot of the day is empty.
  */
  lemma SeedOctoberFifth(h: int)
    ensures EventsForHour(CalendarContext.SampleEvents, CalendarContext.SampleCalendars, Date(2025, 9, 5), h)
         == if h == 14 then [CalendarContext.SampleEvents[5]] else []
  {
    CalendarContext.SeedMeeting();
    CalendarContext.SeedOnlyMeetingOnFifth();
    OnlyOneOnDay(CalendarContext.SampleEvents, CalendarContext.SampleCalendars, Date(2025, 9, 5), Some(h), 5);
  }

  /** When only the event at index `j` starts on `day`, a cell of that day holds it alone, or nothing. */
  lemma OnlyOneOnDay(events: seq<CalendarEvent>, cals: seq<Calendar>, day: Date, hour: Option<int>, j: int)
    requires 0 <= j < |events|
    requires forall k :: 0 <= k < |events| && k != j ==> events[k].start.date != day
    ensures Placed(events, cals, day, hour) == if IsShown(cals, day, hour, events[j]) then [events[j]] else []
  {
    var pre, e, post := events[..j], events[j], events[j + 1..];
    assert events == pre + [e] + post;
    assert forall k :: 0 <= k < |pre| ==> pre[k] == events[k];
    assert forall k :: 0 <= k < |post| ==> post[k] == events[j + 1 + k];
    NoneShown(pre, cals, day, hour);
    NoneShown(post, cals, day, hour);
    PlacedSingle(e, cals, day, hour);
    PlacedAppend(pre, [e], cals, day, hour);
    assert Placed(pre + [e], cals, day, hour) == Placed([e], cals, day, hour);
    PlacedAppend(pre + [e], post, cals, day, hour);
  }

  /** A list none of whose events starts on `day` places nothing there. */
  lemma {:induction false} NoneShown(events: seq<CalendarEvent>, cals: seq<Calendar>, day: Date, hour: Option<int>)
    requires forall k :: 0 <= k < |events| ==> events[k].start.date != day
    ensures Placed(events, cals, day, hour) == []
  {
    if events != [] {
      NoneShown(events[1..], cals, day, hour);
    }
  }
}
