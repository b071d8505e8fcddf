/**
  The quick event dialog of src/components/calendar/EventDialog.tsx: a title,
  an all-day switch and two half-hour times. Saving hands an event without
  id to the parent, on the day the dialog was opened for, and clears the form.
*/
module EventDialog {
  import opened Wrappers
  import opened Dates
  import opened CalendarTypes
  import opened Text
  import opened TimeSlots

  /** `disabled={!title.trim()}`: the Save button is enabled exactly for a non-blank title. */
  predicate CanSave(title: string) {
    Trim(title) != []
  }

  /** A title can be saved exactly when it holds a character that is not whitespace. */
  lemma CanSaveIffVisibleChar(title: string)
    ensures CanSave(title) <==> exists k :: 0 <= k < |title| && !IsWhitespace(title[k])
  {
    BlankIffAllWhitespace(title);
  }

  /**
    handleSave's result: nothing for a blank title or when no date was
    selected; otherwise the title, a blue event in the given calendar, with
    start and end on the selected date, at the chosen times unless all-day.
  */
  function SaveDraft(title: string, allDay: bool, startTime: string, endTime: string,
                     selectedDate: Option<DateTime>, calendarId: string): (r: Option<EventDraft>)
    requires startTime in TimeOptions() && endTime in TimeOptions()
    ensures r.Some? <==> CanSave(title) && selectedDate.Some?
    ensures r.Some? ==> (r.value.title == title && r.value.color == Blue
                         && r.value.calendarId == calendarId && r.value.allDay == allDay)
    ensures r.Some? ==> r.value.start.date == selectedDate.value.date && r.value.end.date == selectedDate.value.date
  {
    if !CanSave(title) || selectedDate.None? then None
    else
      var day := selectedDate.value;
      var start := if allDay then day else SetHours(day, startTime);
      var end := if allDay then day else SetHours(day, endTime);
      Some(EventDraft(title, start, end, Blue, calendarId, allDay))
  }

  /** An all-day event starts and ends at the selected date itself, its time included. */
  lemma SaveAllDay(title: string, startTime: string, endTime: string, day: DateTime, calendarId: string)
    requires startTime in TimeOptions() && endTime in TimeOptions() && CanSave(title)
    ensures var r := SaveDraft(title, true, startTime, endTime, Some(day), calendarId);
      r.Some? && r.value.start == day && r.value.end == day
  {
  }

  /**
    A timed event chosen as labels i and j starts at hour i / 2 and ends at
    hour j / 2 of the selected day, each on the hour or half past.
  */
  lemma SaveTimed(title: string, i: nat, j: nat, day: DateTime, calendarId: string)
    requires i < 48 && j < 48 && CanSave(title)
    ensures var r := SaveDraft(title, false, TimeOptions()[i], TimeOptions()[j], Some(day), calendarId);
      && r.Some?
      && r.value.start == DateTime(day.date, i / 2, 30 * (i % 2))
      && r.value.end == DateTime(day.date, j / 2, 30 * (j % 2))
  {
    SetHoursSlot(day, i);
    SetHoursSlot(day, j);
  }

  /** A saved event's start and end are valid date-times whenever the selected date is. */
  lemma SaveValid(title: string, allDay: bool, startTime: string, endTime: string, day: DateTime, calendarId: string)
    requires startTime in TimeOptions() && endTime in TimeOptions() && ValidDateTime(day)
    requires CanSave(title)
    ensures var r := SaveDraft(title, allDay, startTime, endTime, Some(day), calendarId);
      ValidDateTime(r.value.start) && ValidDateTime(r.value.end)
  {
  }

  /**
    Nothing checks the order of the two times: start 10:00 and end 09:00 save
    an event that ends before it starts.
  */
  lemma EndMayPrecedeStart(title: string, day: DateTime, calendarId: string)
    requires CanSave(title) && ValidDate(day.date)
    ensures "10:00" in TimeOptions() && "09:00" in TimeOptions()
    ensures var r := SaveDraft(title, false, "10:00", "09:00", Some(day), calendarId);
      Minutes(r.value.end) < Minutes(r.value.start)
  {
    NineOClock();
    TenOClock();
    SaveTimed(title, 20, 18, day, calendarId);
  }

  class Dialog {
    var title: string
    var allDay: bool
    var startTime: string
    var endTime: string
    var showMoreOptions: bool

    /** The two times always hold one of the offered labels: the selects offer nothing else. */
    predicate Valid()
      reads this
    {
      startTime in TimeOptions() && endTime in TimeOptions()
    }

    /** The empty form: blank title, all-day, 09:00 to 10:00, more options hidden. */
    predicate IsReset()
      reads this
    {
      title == "" && allDay && startTime == "09:00" && endTime == "10:00" && !showMoreOptions
    }

    /** The reset form's times, 09:00 and 10:00, are offered labels. */
    lemma ResetIsValid()
      requires IsReset()
      ensures Valid()
    {
      DefaultsOffered();
    }

    constructor ()
      ensures IsReset() && Valid()
    {
      title := "";
      allDay := true;
      startTime := "09:00";
      endTime := "10:00";
      showMoreOptions := false;
      new;
      ResetIsValid();
    }

    method SetTitle(s: string)
      modifies this
      ensures title == s
      ensures allDay == old(allDay) && startTime == old(startTime) && endTime == old(endTime)
      ensures showMoreOptions == old(showMoreOptions)
    {
      title := s;
    }

    method SetAllDay(b: bool)
      modifies this
      ensures allDay == b
      ensures title == old(title) && startTime == old(startTime) && endTime == old(endTime)
      ensures showMoreOptions == old(showMoreOptions)
    {
      allDay := b;
    }

    method SetStartTime(s: string)
      requires s in TimeOptions()
      modifies this
      ensures startTime == s
      ensures title == old(title) && allDay == old(allDay) && endTime == old(endTime)
      ensures showMoreOptions == old(showMoreOptions)
    {
      startTime := s;
    }

    method SetEndTime(s: string)
      requires s in TimeOptions()
      modifies this
      ensures endTime == s
      ensures title == old(title) && allDay == old(allDay) && startTime == old(startTime)
      ensures showMoreOptions == old(showMoreOptions)
    {
      endTime := s;
    }

    /** The "more options" button flips the flag. */
    method ToggleMoreOptions()
      modifies this
      ensures showMoreOptions == !old(showMoreOptions)
      ensures title == old(title) && allDay == old(allDay)
      ensures startTime == old(startTime) && endTime == old(endTime)
    {
      showMoreOptions := !showMoreOptions;
    }

    /**
      handleSave: returns what onSave receives, or None when the guard
      returns early; a save resets the form, an early return leaves it.
    */
    method HandleSave(selectedDate: Option<DateTime>, calendarId: string) returns (saved: Option<EventDraft>)
      requires Valid()
      modifies this
      ensures saved == SaveDraft(old(title), old(allDay), old(startTime), old(endTime), selectedDate, calendarId)
      ensures saved.Some? ==> IsReset()
      ensures saved.None? ==> (title == old(title) && allDay == old(allDay) && startTime == old(startTime)
                               && endTime == old(endTime) && showMoreOptions == old(showMoreOptions))
      ensures Valid()
    {
      if !CanSave(title) || selectedDate.None? {
        return None;
      }
      var day := selectedDate.value;
      var start, end := day, day;
      if !allDay {
        start := SetHours(day, startTime);
        end := SetHours(day, endTime);
      }
      saved := Some(EventDraft(title, start, end, Blue, calendarId, allDay));
      Reset();
    }

    /** The form reset at the end of handleSave. */
    method Reset()
      modifies this
      ensures IsReset() && Valid()
    {
      title := "";
      allDay := true;
      startTime := "09:00";
      endTime := "10:00";
      showMoreOptions := false;
      ResetIsValid();
    }
  }
}
