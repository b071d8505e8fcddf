/**
  The event filter the month, week and day views share: an event is drawn in
  a cell when its calendar is enabled, its start falls on the cell's day and,
  for the hour slots of the week and day views, its start hour is the slot's
  hour. The end of an event plays no part.
*/
module Placement {
  import opened Dates
  import opened CalendarTypes
  import opened Wrappers

  /** The ids of the enabled calendars, in list order. */
  function EnabledIds(cals: seq<Calendar>): (ids: seq<string>)
    ensures forall id :: id in ids <==> exists c :: c in cals && c.enabled && c.id == id
  {
    if cals == [] then []
    else
      assert forall c :: c in cals <==> c == cals[0] || c in cals[1..];
      (if cals[0].enabled then [cals[0].id] else []) + EnabledIds(cals[1..])
  }

  predicate IsVisible(cals: seq<Calendar>, e: CalendarEvent) {
    e.calendarId in EnabledIds(cals)
  }

  /** Whether `e` belongs in the cell of `day` (and of `hour`, for an hour slot). */
  predicate IsShown(cals: seq<Calendar>, day: Date, hour: Option<int>, e: CalendarEvent) {
    IsVisible(cals, e) && e.start.date == day && (hour.None? || e.start.hour == hour.value)
  }

  /** An event is visible as soon as one enabled calendar carries its calendarId. */
  lemma VisibleWhenEnabled(cals: seq<Calendar>, e: CalendarEvent, c: Calendar)
    requires c in cals && c.enabled && c.id == e.calendarId
    ensures IsVisible(cals, e)
  {
  }

  /** The events of one cell: the shown ones, in the order of the event list. */
  function Placed(events: seq<CalendarEvent>, cals: seq<Calendar>, day: Date, hour: Option<int>): (r: seq<CalendarEvent>)
    ensures forall e :: e in r <==> e in events && IsShown(cals, day, hour, e)
    ensures |r| <= |events|
  {
    if events == [] then []
    else
      assert forall e :: e in events <==> e == events[0] || e in events[1..];
      (if IsShown(cals, day, hour, events[0]) then [events[0]] else []) + Placed(events[1..], cals, day, hour)
  }

  /** Filtering distributes over concatenation, so a cell keeps the events' list order. */
  lemma {:induction false} PlacedAppend(a: seq<CalendarEvent>, b: seq<CalendarEvent>, cals: seq<Calendar>, day: Date, hour: Option<int>)
    ensures Placed(a + b, cals, day, hour) == Placed(a, cals, day, hour) + Placed(b, cals, day, hour)
  {
    if a != [] {
      assert (a + b)[0] == a[0] && (a + b)[1..] == a[1..] + b;
      PlacedAppend(a[1..], b, cals, day, hour);
      PlacedStep(a + b, cals, day, hour);
      PlacedStep(a, cals, day, hour);
    } else {
      assert a + b == b;
    }
  }

  /** A one-event list is kept exactly when the event is shown. */
  lemma PlacedSingle(e: CalendarEvent, cals: seq<Calendar>, day: Date, hour: Option<int>)
    ensures Placed([e], cals, day, hour) == if IsShown(cals, day, hour, e) then [e] else []
  {
    assert [e][1..] == [];
  }

  /** An event whose calendarId names no calendar is never shown. */
  lemma OrphanNeverShown(cals: seq<Calendar>, e: CalendarEvent, day: Date, hour: Option<int>)
    requires forall c :: c in cals ==> c.id != e.calendarId
    ensures !IsShown(cals, day, hour, e)
  {
  }

  /** Placement does not read an event's end. */
  lemma ShownIgnoresEnd(cals: seq<Calendar>, day: Date, hour: Option<int>, e: CalendarEvent, end: DateTime)
    ensures IsShown(cals, day, hour, e) == IsShown(cals, day, hour, e.(end := end))
  {
  }

  /** The hour slots of the day view and of each week-view column. */
  function Hours(): (hs: seq<int>)
    ensures |hs| == 24 && forall i :: 0 <= i < 24 ==> hs[i] == i
  {
    seq(24, i => i)
  }

  /** The slots are the hours 0 to 23, each once, ascending. */
  lemma HoursCoverDay()
    ensures forall h :: h in Hours() <==> 0 <= h < 24
    ensures forall i, j :: 0 <= i < j < |Hours()| ==> Hours()[i] < Hours()[j]
  {
    forall h | 0 <= h < 24 ensures h in Hours() {
      assert Hours()[h] == h;
    }
  }

  /** The entries of the hour slots `hs` of `day`, slot after slot. */
  function SlotEntries(events: seq<CalendarEvent>, cals: seq<Calendar>, day: Date, hs: seq<int>): seq<CalendarEvent> {
    if hs == [] then [] else Placed(events, cals, day, Some(hs[0])) + SlotEntries(events, cals, day, hs[1..])
  }

  /** The events shown on `day` whose start hour is one of `hs`, in list order. */
  function PlacedIn(events: seq<CalendarEvent>, cals: seq<Calendar>, day: Date, hs: seq<int>): (r: seq<CalendarEvent>)
    ensures forall e :: e in r <==> e in events && IsShown(cals, day, None, e) && e.start.hour in hs
  {
    if events == [] then []
    else
      assert forall e :: e in events <==> e == events[0] || e in events[1..];
      (if IsShown(cals, day, None, events[0]) && events[0].start.hour in hs then [events[0]] else [])
        + PlacedIn(events[1..], cals, day, hs)
  }

  /** Adding a slot for an hour not yet covered adds exactly the events starting in that hour. */
  lemma {:induction false} PlacedInCons(events: seq<CalendarEvent>, cals: seq<Calendar>, day: Date, h: int, hs: seq<int>)
    requires h !in hs
    ensures multiset(Placed(events, cals, day, Some(h))) + multiset(PlacedIn(events, cals, day, hs))
         == multiset(PlacedIn(events, cals, day, [h] + hs))
  {
    if events != [] {
      var e, rest := events[0], events[1..];
      PlacedInCons(rest, cals, day, h, hs);
      HeadHours(e, cals, day, h, hs);
      PlacedStep(events, cals, day, Some(h));
      PlacedInStep(events, cals, day, hs);
      PlacedInStep(events, cals, day, [h] + hs);
    }
  }

  /** One event is kept for the new hour or for the old ones, never for both. */
  lemma HeadHours(e: CalendarEvent, cals: seq<Calendar>, day: Date, h: int, hs: seq<int>)
    requires h !in hs
    ensures multiset(if IsShown(cals, day, Some(h), e) then [e] else [])
          + multiset(if IsShown(cals, day, None, e) && e.start.hour in hs then [e] else [])
         == multiset(if IsShown(cals, day, None, e) && e.start.hour in [h] + hs then [e] else [])
  {
  }

  /** One unfolding of Placed. */
  lemma PlacedStep(events: seq<CalendarEvent>, cals: seq<Calendar>, day: Date, hour: Option<int>)
    requires events != []
    ensures Placed(events, cals, day, hour)
         == (if IsShown(cals, day, hour, events[0]) then [events[0]] else []) + Placed(events[1..], cals, day, hour)
  {
  }

  /** One unfolding of PlacedIn. */
  lemma PlacedInStep(events: seq<CalendarEvent>, cals: seq<Calendar>, day: Date, hs: seq<int>)
    requires events != []
    ensures PlacedIn(events, cals, day, hs)
         == (if IsShown(cals, day, None, events[0]) && events[0].start.hour in hs then [events[0]] else [])
            + PlacedIn(events[1..], cals, day, hs)
  {
  }

  /** Slots for pairwise distinct hours hold, together, each event of those hours exactly once. */
  lemma {:induction false} SlotEntriesCount(events: seq<CalendarEvent>, cals: seq<Calendar>, day: Date, hs: seq<int>)
    requires forall i, j :: 0 <= i < j < |hs| ==> hs[i] != hs[j]
    ensures multiset(SlotEntries(events, cals, day, hs)) == multiset(PlacedIn(events, cals, day, hs))
  {
    if hs == [] {
      NoHours(events, cals, day);
    } else {
      SlotEntriesCount(events, cals, day, hs[1..]);
      assert hs[0] !in hs[1..] by {
        forall j | 0 <= j < |hs| - 1 ensures hs[1..][j] != hs[0] {
          assert hs[1..][j] == hs[j + 1];
        }
      }
      PlacedInCons(events, cals, day, hs[0], hs[1..]);
      assert [hs[0]] + hs[1..] == hs;
    }
  }

  lemma {:induction false} NoHours(events: seq<CalendarEvent>, cals: seq<Calendar>, day: Date)
    ensures PlacedIn(events, cals, day, []) == []
  {
    if events != [] {
      NoHours(events[1..], cals, day);
    }
  }

  /** When every start hour is one of `hs`, the hour filter keeps every event shown on the day. */
  lemma {:induction false} PlacedInEveryHour(events: seq<CalendarEvent>, cals: seq<Calendar>, day: Date, hs: seq<int>)
    requires forall e :: e in events ==> e.start.hour in hs
    ensures PlacedIn(events, cals, day, hs) == Placed(events, cals, day, None)
  {
    if events != [] {
      assert events[0] in events;
      assert forall e :: e in events[1..] ==> e in events;
      PlacedInEveryHour(events[1..], cals, day, hs);
    }
  }

  /**
    The 24 hour slots of a day hold exactly the events shown on that day,
    each as often as it occurs in the event list: none is lost to a missing
    slot and none is drawn twice.
  */
  lemma DaySlotsPartition(events: seq<CalendarEvent>, cals: seq<Calendar>, day: Date)
    requires forall e :: e in events ==> 0 <= e.start.hour < 24
    ensures multiset(SlotEntries(events, cals, day, Hours())) == multiset(Placed(events, cals, day, None))
  {
    HoursCoverDay();
    SlotEntriesCount(events, cals, day, Hours());
    PlacedInEveryHour(events, cals, day, Hours());
  }
}
