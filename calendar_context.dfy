/**
  The calendar provider of src/contexts/CalendarContext.tsx: the seeded
  calendars and events, the state the provider owns (current date, view,
  calendar list; the event list is fixed) and the guard of useCalendar.
*/
module CalendarContext {
  import opened Dates
  import opened CalendarTypes
  import opened Wrappers
  import opened Placement

  const SampleCalendars: seq<Calendar> := [
    Calendar("1", "Personal", Blue, true),
    Calendar("2", "Cumpleaños", Green, true),
    Calendar("3", "Tareas", Red, true)
  ]

  /** `new Date(y, m, d)` and `new Date(y, m, d, h, min)`. */
  function At(y: int, m: int, d: int, h: int, min: int): DateTime {
    DateTime(Date(y, m, d), h, min)
  }

  const SampleEvents: seq<CalendarEvent> := [
    CalendarEvent("1", "Día de la Resistencia Indígena", At(2025, 9, 12, 0, 0), At(2025, 9, 13, 0, 0), Green, "1", true),
    CalendarEvent("2", "Día de la Raza", At(2025, 9, 13, 0, 0), At(2025, 9, 14, 0, 0), Green, "1", true),
    CalendarEvent("3", "Día del Dr. José Gregorio Hernández", At(2025, 9, 26, 0, 0), At(2025, 9, 27, 0, 0), Green, "1", true),
    CalendarEvent("4", "Halloween", At(2025, 9, 31, 0, 0), At(2025, 10, 1, 0, 0), Green, "2", true),
    CalendarEvent("5", "Día de Todos los Santos", At(2025, 10, 1, 0, 0), At(2025, 10, 2, 0, 0), Green, "1", true),
    CalendarEvent("6", "Reunión de equipo", At(2025, 9, 5, 14, 0), At(2025, 9, 5, 15, 0), Blue, "1", false),
    CalendarEvent("7", "Cancelled: 45-Minute 5", At(2025, 9, 8, 2, 0), At(2025, 9, 8, 2, 45), Blue, "1", false)
  ]

  /** The provider's initial current date: 5 October 2025, midnight. */
  const InitialDate: DateTime := At(2025, 9, 5, 0, 0)

  const MissingProviderMessage: string := "useCalendar must be used within a CalendarProvider"

  /** The seeded calendars: ids '1', '2', '3', all enabled, with the colours of the type. */
  lemma SeedCalendars()
    ensures |SampleCalendars| == 3
    ensures SampleCalendars[0].id == "1" && SampleCalendars[1].id == "2" && SampleCalendars[2].id == "3"
    ensures forall c :: c in SampleCalendars ==> c.enabled && IsDeclaredColor(c.color)
  {
  }

  /** The seeded event ids '1' .. '7' are pairwise distinct. */
  lemma SeedEventIds()
    ensures |SampleEvents| == 7
    ensures forall i, j :: 0 <= i < j < |SampleEvents| ==> SampleEvents[i].id != SampleEvents[j].id
  {
  }

  /** Every seeded event belongs to calendar '1' or '2' and has one of the five declared colours. */
  lemma SeedEventCalendars()
    ensures forall e :: e in SampleEvents ==> e.calendarId == SampleCalendars[0].id || e.calendarId == SampleCalendars[1].id
    ensures forall e :: e in SampleEvents ==> IsDeclaredColor(e.color)
  {
  }

  /** With the seeded calendars every seeded event is visible. */
  lemma SeedAllVisible()
    ensures forall e :: e in SampleEvents ==> IsVisible(SampleCalendars, e)
  {
    SeedCalendars();
    SeedEventCalendars();
    forall e | e in SampleEvents ensures IsVisible(SampleCalendars, e) {
      if e.calendarId == SampleCalendars[0].id {
        VisibleWhenEnabled(SampleCalendars, e, SampleCalendars[0]);
      } else {
        VisibleWhenEnabled(SampleCalendars, e, SampleCalendars[1]);
      }
    }
  }

  /** The seeded team meeting is event '6', visible, from 14:00 to 15:00 on 5 October 2025. */
  lemma SeedMeeting()
    ensures SampleEvents[5] in SampleEvents && IsVisible(SampleCalendars, SampleEvents[5])
    ensures SampleEvents[5].id == "6" && SampleEvents[5].start == At(2025, 9, 5, 14, 0) && SampleEvents[5].end == At(2025, 9, 5, 15, 0)
  {
    VisibleWhenEnabled(SampleCalendars, SampleEvents[5], SampleCalendars[0]);
  }

  /** No seeded event other than the meeting starts on 5 October 2025. */
  lemma SeedOnlyMeetingOnFifth()
    ensures forall k :: 0 <= k < |SampleEvents| && k != 5 ==> SampleEvents[k].start.date != Date(2025, 9, 5)
  {
  }

  /** Every seeded start and end is a real date-time, and no event ends before it starts. */
  lemma SeedEventTimes()
    ensures forall e :: e in SampleEvents ==>
              ValidDateTime(e.start) && ValidDateTime(e.end) && Minutes(e.start) <= Minutes(e.end)
  {
    forall e | e in SampleEvents
      ensures ValidDateTime(e.start) && ValidDateTime(e.end) && Minutes(e.start) <= Minutes(e.end)
    {
      assert ValidDate(e.start.date) && ValidDate(e.end.date);
      DayNumberOrder(e.start.date, e.end.date);
    }
  }

  /** One calendar after toggleCalendar(id): `enabled` flips when the ids match. */
  function Flip(c: Calendar, id: string): Calendar {
    if c.id == id then c.(enabled := !c.enabled) else c
  }

  /** toggleCalendar's update of the list: every calendar in order, each passed through Flip. */
  function ToggleCalendars(cals: seq<Calendar>, id: string): (r: seq<Calendar>)
    ensures |r| == |cals|
    ensures forall i :: 0 <= i < |cals| ==>
              r[i].id == cals[i].id && r[i].name == cals[i].name && r[i].color == cals[i].color
    ensures forall i :: 0 <= i < |cals| ==> (r[i].enabled <==> (cals[i].enabled != (cals[i].id == id)))
  {
    if cals == [] then [] else [Flip(cals[0], id)] + ToggleCalendars(cals[1..], id)
  }

  /** An id no calendar carries leaves the list identical. */
  lemma {:induction false} ToggleUnknownId(cals: seq<Calendar>, id: string)
    requires forall c :: c in cals ==> c.id != id
    ensures ToggleCalendars(cals, id) == cals
  {
    if cals != [] {
      ToggleUnknownId(cals[1..], id);
    }
  }

  /** Toggling the same id twice restores the original list. */
  lemma {:induction false} ToggleTwice(cals: seq<Calendar>, id: string)
    ensures ToggleCalendars(ToggleCalendars(cals, id), id) == cals
  {
    if cals != [] {
      ToggleTwice(cals[1..], id);
      assert ToggleCalendars(cals, id)[1..] == ToggleCalendars(cals[1..], id);
    }
  }

  /** Unticking calendar '2' in the seeded list keeps calendar '1' enabled and leaves no enabled calendar '2'. */
  lemma SeedToggleTwo()
    ensures var cals := ToggleCalendars(SampleCalendars, "2");
      && |cals| == 3 && cals[0].id == "1" && cals[0].enabled
      && forall c :: c in cals && c.id == "2" ==> !c.enabled
  {
    var cals := ToggleCalendars(SampleCalendars, "2");
    SeedCalendars();
    forall c | c in cals && c.id == "2" ensures !c.enabled {
      var k :| 0 <= k < |cals| && cals[k] == c;
      assert k == 1;
    }
  }

  /** Of the seeded events only Halloween (event '4') belongs to calendar '2'; the others belong to calendar '1'. */
  lemma SeedEventOwners()
    ensures forall k :: 0 <= k < |SampleEvents| ==> SampleEvents[k].calendarId == if k == 3 then "2" else "1"
  {
  }

  /** Unticking calendar '2' in the seeded list hides Halloween and no other seeded event. */
  lemma SeedWithoutCalendarTwo()
    ensures forall k :: 0 <= k < |SampleEvents| ==>
              (IsVisible(ToggleCalendars(SampleCalendars, "2"), SampleEvents[k]) <==> k != 3)
  {
    var cals := ToggleCalendars(SampleCalendars, "2");
    SeedToggleTwo();
    SeedEventOwners();
    forall k | 0 <= k < |SampleEvents| && k != 3 ensures IsVisible(cals, SampleEvents[k]) {
      VisibleWhenEnabled(cals, SampleEvents[k], cals[0]);
    }
  }

  /** useCalendar: the context value when a provider is present, the error otherwise. */
  function UseCalendar<C>(context: Option<C>): (r: Result<C, string>)
    ensures r.Failure? <==> context.None?
    ensures context.Some? ==> r == Success(context.value)
    ensures context.None? ==> r.error == MissingProviderMessage
  {
    match context
    case None => Failure(MissingProviderMessage)
    case Some(c) => Success(c)
  }

  /**
    The state a CalendarProvider owns. Each setter replaces one field; the
    event list is a constant, since the provider exposes no way to change it.
  */
  class CalendarStore {
    var currentDate: DateTime
    var view: CalendarView
    var calendars: seq<Calendar>
    const events: seq<CalendarEvent>

    /** The current date is a real calendar date and time of day. */
    predicate Valid()
      reads this
    {
      ValidDateTime(currentDate)
    }

    constructor ()
      ensures currentDate == InitialDate && view == Month
      ensures calendars == SampleCalendars && events == SampleEvents
      ensures Valid()
    {
      currentDate := InitialDate;
      view := Month;
      calendars := SampleCalendars;
      events := SampleEvents;
    }

    /** setCurrentDate: every date a component passes is a real JavaScript Date. */
    method SetCurrentDate(date: DateTime)
      requires ValidDateTime(date)
      modifies this
      ensures currentDate == date
      ensures view == old(view) && calendars == old(calendars)
      ensures Valid()
    {
      currentDate := date;
    }

    method SetView(v: CalendarView)
      requires Valid()
      modifies this
      ensures view == v
      ensures currentDate == old(currentDate) && calendars == old(calendars)
      ensures Valid()
    {
      view := v;
    }

    method ToggleCalendar(id: string)
      requires Valid()
      modifies this
      ensures calendars == ToggleCalendars(old(calendars), id)
      ensures currentDate == old(currentDate) && view == old(view)
      ensures Valid()
    {
      calendars := ToggleCalendars(calendars, id);
    }
  }
}
