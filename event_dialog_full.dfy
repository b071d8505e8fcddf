/**
  The full event dialog of src/components/calendar/EventDialogFull.tsx: a
  title, start and end dates picked separately, the all-day switch, two
  half-hour times, the target calendar and a colour from a palette of ten.
  Saving hands an event without id to the parent and resets part of the form.
*/
module EventDialogFull {
  import opened Wrappers
  import opened Dates
  import opened CalendarTypes
  import opened TimeSlots
  import EventDialog

  /** `colors`: the ten colour names of the picker, in display order. */
  function Palette(): (p: seq<Color>)
    ensures |p| == 10
  {
    [Red, Orange, Yellow, Green, Teal, Blue, Indigo, Purple, Pink, Gray]
  }

  /** Every colour can be picked, and each appears once in the palette. */
  lemma PaletteComplete(c: Color)
    ensures c in Palette()
    ensures forall i, j :: 0 <= i < j < 10 ==> Palette()[i] != Palette()[j]
  {
    match c
    case Red => assert Palette()[0] == c;
    case Orange => assert Palette()[1] == c;
    case Yellow => assert Palette()[2] == c;
    case Green => assert Palette()[3] == c;
    case Teal => assert Palette()[4] == c;
    case Blue => assert Palette()[5] == c;
    case Indigo => assert Palette()[6] == c;
    case Purple => assert Palette()[7] == c;
    case Pink => assert Palette()[8] == c;
    case Gray => assert Palette()[9] == c;
  }

  /** Half of the palette lies outside the five colours the event type declares. */
  lemma PaletteBeyondDeclared()
    ensures forall i :: 0 <= i < 10 ==> (IsDeclaredColor(Palette()[i]) <==> i in {0, 1, 3, 5, 7})
  {
  }

  /**
    handleSave's result: nothing for a blank title or when no start date is
    set; otherwise an event from the start date to the end date (the start
    date when no end date is set), at the chosen times unless all-day, with
    the selected colour and calendar.
  */
  function SaveEvent(title: string, allDay: bool, startDate: Option<DateTime>, endDate: Option<DateTime>,
                     startTime: string, endTime: string, calendar: string, color: Color): (r: Option<EventDraft>)
    requires startTime in TimeOptions() && endTime in TimeOptions()
    ensures r.Some? <==> EventDialog.CanSave(title) && startDate.Some?
    ensures r.Some? ==> (r.value.title == title && r.value.color == color
                         && r.value.calendarId == calendar && r.value.allDay == allDay)
    ensures r.Some? ==> (r.value.start.date == startDate.value.date
                         && r.value.end.date == (if endDate.Some? then endDate.value else startDate.value).date)
  {
    if !EventDialog.CanSave(title) || startDate.None? then None
    else
      var s := startDate.value;
      var e := if endDate.Some? then endDate.value else s;
      var start := if allDay then s else SetHours(s, startTime);
      var end := if allDay then e else SetHours(e, endTime);
      Some(EventDraft(title, start, end, color, calendar, allDay))
  }

  /** Without an end date an all-day event ends exactly at its start. */
  lemma EndDefaultsToStart(title: string, s: DateTime, startTime: string, endTime: string, calendar: string, color: Color)
    requires startTime in TimeOptions() && endTime in TimeOptions() && EventDialog.CanSave(title)
    ensures var r := SaveEvent(title, true, Some(s), None, startTime, endTime, calendar, color);
      r.Some? && r.value.start == s && r.value.end == s
  {
  }

  /** A timed event chosen as labels i and j runs from hour i / 2 of the start date to hour j / 2 of the end date. */
  lemma SaveTimedFull(title: string, s: DateTime, e: DateTime, i: nat, j: nat, calendar: string, color: Color)
    requires i < 48 && j < 48 && EventDialog.CanSave(title)
    ensures var r := SaveEvent(title, false, Some(s), Some(e), TimeOptions()[i], TimeOptions()[j], calendar, color);
      && r.Some?
      && r.value.start == DateTime(s.date, i / 2, 30 * (i % 2))
      && r.value.end == DateTime(e.date, j / 2, 30 * (j % 2))
  {
    SetHoursSlot(s, i);
    SetHoursSlot(e, j);
  }

  /**
    With the selected date as start date, no end date, blue and the default
    calendar, the full dialog saves exactly what the quick dialog saves.
  */
  lemma AgreesWithQuickDialog(title: string, allDay: bool, day: Option<DateTime>, startTime: string, endTime: string, calendar: string)
    requires startTime in TimeOptions() && endTime in TimeOptions()
    ensures SaveEvent(title, allDay, day, None, startTime, endTime, calendar, Blue)
         == EventDialog.SaveDraft(title, allDay, startTime, endTime, day, calendar)
  {
  }

  /** Nothing checks the order of the dates: an end date before the start date is saved as it is. */
  lemma EndDateMayPrecedeStart(title: string, s: DateTime, e: DateTime, calendar: string, color: Color)
    requires EventDialog.CanSave(title) && ValidDateTime(s) && ValidDateTime(e)
    requires DayNumber(e.date) < DayNumber(s.date)
    requires "10:00" in TimeOptions()
    ensures var r := SaveEvent(title, true, Some(s), Some(e), "10:00", "10:00", calendar, color);
      r.Some? && Minutes(r.value.end) < Minutes(r.value.start)
  {
    var a, b := DayNumber(e.date), DayNumber(s.date);
    assert a * 1440 <= b * 1440 - 1440;
  }

  class Dialog {
    var title: string
    var startDate: Option<DateTime>
    var endDate: Option<DateTime>
    var startTime: string
    var endTime: string
    var allDay: bool
    var recurrence: string
    var location: string
    var description: string
    var selectedCalendar: string
    var selectedColor: Color

    /** The two times always hold one of the offered labels: the selects offer nothing else. */
    predicate Valid()
      reads this
    {
      startTime in TimeOptions() && endTime in TimeOptions()
    }

    /** The fields resetForm restores: blank title, all-day, 10:00 to 10:30, no repeat, no location or description. */
    predicate IsFormReset()
      reads this
    {
      && title == "" && allDay && startTime == "10:00" && endTime == "10:30"
      && recurrence == "no-repeat" && location == "" && description == ""
    }

    /** The initial state: both dates from the selected date (unset when there is none), blue, the default calendar. */
    constructor (selectedDate: Option<DateTime>, defaultCalendarId: string)
      ensures startDate == selectedDate && endDate == selectedDate
      ensures selectedCalendar == defaultCalendarId && selectedColor == Blue
      ensures IsFormReset()
      ensures Valid()
    {
      title := "";
      startDate := selectedDate;
      endDate := selectedDate;
      startTime := "10:00";
      endTime := "10:30";
      allDay := true;
      recurrence := "no-repeat";
      location := "";
      description := "";
      selectedCalendar := defaultCalendarId;
      selectedColor := Blue;
      new;
      assert startDate == selectedDate && endDate == selectedDate;
      assert selectedCalendar == defaultCalendarId && selectedColor == Blue;
      assert IsFormReset();
      ResetIsValid();
    }

    method SetTitle(s: string)
      modifies this`title
      ensures title == s
    {
      title := s;
    }

    /** The start date picker; deselecting a day leaves the start date unset. */
    method SetStartDate(d: Option<DateTime>)
      modifies this`startDate
      ensures startDate == d
    {
      startDate := d;
    }

    method SetEndDate(d: Option<DateTime>)
      modifies this`endDate
      ensures endDate == d
    {
      endDate := d;
    }

    method SetStartTime(s: string)
      requires s in TimeOptions()
      modifies this`startTime
      ensures startTime == s
    {
      startTime := s;
    }

    method SetEndTime(s: string)
      requires s in TimeOptions()
      modifies this`endTime
      ensures endTime == s
    {
      endTime := s;
    }

    method SetAllDay(b: bool)
      modifies this`allDay
      ensures allDay == b
    {
      allDay := b;
    }

    method SelectCalendar(id: string)
      modifies this`selectedCalendar
      ensures selectedCalendar == id
    {
      selectedCalendar := id;
    }

    /** A colour button of the picker. */
    method SelectColor(c: Color)
      modifies this`selectedColor
      ensures selectedColor == c
    {
      selectedColor := c;
    }

    /** The reset form's times, 10:00 and 10:30, are offered labels. */
    lemma ResetIsValid()
      requires IsFormReset()
      ensures Valid()
    {
      DefaultsOffered();
    }

    /** resetForm: the dates, the calendar and the colour are kept. */
    method ResetForm()
      modifies this`title, this`allDay, this`startTime, this`endTime
      modifies this`recurrence, this`location, this`description
      ensures IsFormReset()
      ensures Valid()
    {
      title := "";
      allDay := true;
      startTime := "10:00";
      endTime := "10:30";
      recurrence := "no-repeat";
      location := "";
      description := "";
      assert IsFormReset();
      ResetIsValid();
    }

    /**
      handleSave: returns what onSave receives, or None when the guard
      returns early; a save runs resetForm, an early return changes nothing.
    */
    method HandleSave() returns (saved: Option<EventDraft>)
      requires Valid()
      modifies this`title, this`allDay, this`startTime, this`endTime
      modifies this`recurrence, this`location, this`description
      ensures saved == SaveEvent(old(title), old(allDay), old(startDate), old(endDate),
                                 old(startTime), old(endTime), old(selectedCalendar), old(selectedColor))
      ensures saved.Some? ==> IsFormReset()
      ensures saved.None? ==> unchanged(this)
      ensures Valid()
    {
      if !EventDialog.CanSave(title) || startDate.None? {
        return None;
      }
      var s := startDate.value;
      var e := if endDate.Some? then endDate.value else s;
      var start, end := s, e;
      if !allDay {
        start := SetHours(s, startTime);
        end := SetHours(e, endTime);
      }
      saved := Some(EventDraft(title, start, end, selectedColor, selectedCalendar, allDay));
      ResetForm();
    }
  }
}
