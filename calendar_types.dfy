/** The records of src/types/calendar.ts. */
module CalendarTypes {
  import opened Dates

  datatype CalendarView = Month | Week | Day | Year | Agenda

  /**
    Colour names. The declared type of an event's or calendar's colour has
    five of them (see IsDeclaredColor); the full event dialog offers ten and
    stores the chosen name unchecked, so a saved event can hold any of these.
  */
  datatype Color = Red | Orange | Yellow | Green | Teal | Blue | Indigo | Purple | Pink | Gray

  predicate IsDeclaredColor(c: Color) {
    c == Blue || c == Green || c == Red || c == Purple || c == Orange
  }

  /** An event; the optional `allDay` flag reads as false when absent. */
  datatype CalendarEvent = CalendarEvent(
    id: string,
    title: string,
    start: DateTime,
    end: DateTime,
    color: Color,
    calendarId: string,
    allDay: bool)

  /** What a dialog hands to onSave: an event without its id. */
  datatype EventDraft = EventDraft(
    title: string,
    start: DateTime,
    end: DateTime,
    color: Color,
    calendarId: string,
    allDay: bool)

  datatype Calendar = Calendar(id: string, name: string, color: Color, enabled: bool)
}
