# Calendar app: a Dafny model of its date grids, event placement, navigation and dialogs

This project models the logic of a small React calendar app (a month, week, day and
year view, a header with navigation arrows, a sidebar with a mini calendar and the
calendar checkboxes, and two dialogs that create events), and proves what each part promises.

- **Provider state** (`CalendarContext`): the seeded calendars and events, the initial
  date and view, `toggleCalendar`, and the guard of `useCalendar`.
  - The provider is the class `CalendarStore`. Its setters replace one field each.
  - The event list is a `const`, since nothing can change it.
- **Dates** (`Dates`): proleptic Gregorian arithmetic over a day number, with 0-based
  months as JavaScript has them.
  - The date-fns helpers the components call: `startOfMonth`, `endOfMonth`,
    `startOfWeek`/`endOfWeek` with Sunday first, `eachDayOfInterval`, `addDays`, `addMonths`.
  - JavaScript's `Date.setMonth`.
- **Views** (`MonthView`, `WeekView`, `DayView`, `YearView`): the day grids.
  - One shared event filter (`Placement`): an event is drawn in a cell when its calendar
    is enabled and its *start* falls on the cell's day. The week and day views also
    require its start hour to be the slot's hour.
  - The year view reads no events.
- **Navigation** (`CalendarHeader`, `CalendarSidebar`): the arrows, the fixed "today",
  the view menu, the mini calendar's own month, and day clicks. These are methods on the store.
- **Dialogs** (`EventDialog`, `EventDialogFull`): the 48 half-hour labels and their
  parsing back to hour and minute (`TimeSlots`, `Text`), the save guard, the all-day
  and timed branches, end-date defaulting, and the form resets.
  - Each dialog is a class whose fields are the form state.
  - `HandleSave` returns what `onSave` receives, or `None` when the guard returns early.

## Model

| member | source | states |
|---|---|---|
| CalendarContext.SeedCalendars | src/contexts/CalendarContext.tsx:17-21 | three seeded calendars, ids '1', '2', '3', all enabled, each with a colour of the declared type |
| CalendarContext.SeedEventIds | src/contexts/CalendarContext.tsx:23-85 | seven seeded events whose ids are pairwise distinct |
| CalendarContext.SeedEventCalendars | src/contexts/CalendarContext.tsx:23-85 | every seeded event's calendarId is a seeded calendar's id ('1' or '2'), and every colour is a declared one |
| CalendarContext.SeedEventOwners | src/contexts/CalendarContext.tsx:23-85 | Halloween (event '4') is the only seeded event of calendar '2'; all the others belong to calendar '1' |
| CalendarContext.SeedAllVisible | src/contexts/CalendarContext.tsx:17-21 | with the seeded calendars every seeded event is visible |
| CalendarContext.SeedMeeting | src/contexts/CalendarContext.tsx:69-76 | the team meeting is event '6', visible, from 14:00 to 15:00 on 5 October 2025 |
| CalendarContext.SeedOnlyMeetingOnFifth | src/contexts/CalendarContext.tsx:23-85 | no seeded event other than the meeting starts on 5 October 2025 |
| CalendarContext.SeedEventTimes | src/contexts/CalendarContext.tsx:23-85 | every seeded start and end is a real date-time, and no event ends before it starts |
| CalendarContext.ToggleCalendars | src/contexts/CalendarContext.tsx:93-97 | the toggled list has the same length and order, the same ids, names and colours; `enabled` is flipped exactly where the id matches |
| CalendarContext.ToggleUnknownId | src/contexts/CalendarContext.tsx:95 | an id that no calendar carries leaves the list identical |
| CalendarContext.ToggleTwice | src/contexts/CalendarContext.tsx:95 | toggling the same id twice restores the original list |
| CalendarContext.SeedToggleTwo | src/contexts/CalendarContext.tsx:93-97 | after toggling '2' in the seeded list, calendar '1' is still enabled and no enabled calendar has id '2' |
| CalendarContext.SeedWithoutCalendarTwo | src/contexts/CalendarContext.tsx:93-97 | after toggling '2', exactly the seeded events other than Halloween stay visible |
| CalendarContext.UseCalendar | src/contexts/CalendarContext.tsx:116-122 | fails, with the provider message, exactly when no context value is present; otherwise returns that value |
| CalendarContext.CalendarStore.constructor | src/contexts/CalendarContext.tsx:88-91 | initial state: 5 October 2025 at midnight, month view, the seeded calendars, the seeded events |
| CalendarContext.CalendarStore.SetCurrentDate | src/contexts/CalendarContext.tsx:88 | replaces the current date with a valid date-time; the view and the calendars stay, and the store stays valid |
| CalendarContext.CalendarStore.SetView | src/contexts/CalendarContext.tsx:89 | replaces the view; the date and the calendars stay, and the store stays valid |
| CalendarContext.CalendarStore.ToggleCalendar | src/contexts/CalendarContext.tsx:93-97 | the calendars become ToggleCalendars of the old list; the date and the view stay, and the store stays valid |
| Dates.DaysInMonth | src/components/calendar/views/MonthView.tsx:21 | 28 to 31 days, and February has 29 exactly in leap years |
| Dates.Weekday | src/components/calendar/views/MonthView.tsx:57 | getDay is in 0..6 |
| Dates.DayNumberOrder | src/components/calendar/views/MonthView.tsx:25 | valid dates are ordered by day number exactly as (year, month, day) are ordered |
| Dates.DayNumberInjective | src/components/calendar/views/MonthView.tsx:33 | valid dates with equal day numbers are the same day, as isSameDay compares |
| Dates.FromDayNumber | src/components/calendar/CalendarHeader.tsx:39 | the valid date whose day number is the argument |
| Dates.FromDayNumberRoundTrip | src/components/calendar/CalendarHeader.tsx:39 | converting a valid date to its day number and back gives the date again |
| Dates.NextDay | src/components/calendar/views/MonthView.tsx:25 | the next calendar day is valid and has day number one higher |
| Dates.PrevDay | src/components/calendar/CalendarHeader.tsx:39 | the previous calendar day is valid and has day number one lower |
| Dates.AddDays | src/components/calendar/CalendarHeader.tsx:36-39 | addDays/subDays: a valid date exactly n days later or earlier |
| Dates.AddOneDay | src/components/calendar/CalendarHeader.tsx:56 | adding one day gives the next calendar day, and subtracting one gives the previous one |
| Dates.AddDaysInverse | src/components/calendar/CalendarHeader.tsx:39 | adding n days and then subtracting n days returns the date |
| Dates.AddDaysCompose | src/components/calendar/CalendarHeader.tsx:53 | adding m days and then n days is adding m + n days |
| Dates.StartOfMonth | src/components/calendar/views/MonthView.tsx:20 | the 1st of the date's month and year |
| Dates.EndOfMonth | src/components/calendar/views/MonthView.tsx:21 | the last day of the date's month; the day after it is a 1st |
| Dates.StartOfWeek | src/components/calendar/views/MonthView.tsx:22 | the Sunday on or before the date |
| Dates.EndOfWeek | src/components/calendar/views/MonthView.tsx:23 | the Saturday on or after the date |
| Dates.EachDay | src/components/calendar/views/MonthView.tsx:25 | eachDayOfInterval: the consecutive valid days from start to end, both included |
| Dates.ConsecutiveMembers | src/components/calendar/views/MonthView.tsx:25 | a date is in a consecutive day list exactly when its day number is in the list's range, and it sits at the matching index |
| Dates.ConsecutiveDistinct | src/components/calendar/views/MonthView.tsx:25 | a consecutive day list holds each date at most once |
| Dates.AddMonths | src/components/calendar/CalendarHeader.tsx:33 | addMonths (an assumption, see Left out): k months later, with the day clamped to the target month's length |
| Dates.SetMonth | src/components/calendar/CalendarSidebar.tsx:23 | setMonth: the 1st of the target month plus day - 1 days, so an overflowing day rolls into the next month |
| Text.TrimStart | src/components/calendar/EventDialog.tsx:35 | a suffix of the input: everything removed is whitespace, and what remains starts with a non-whitespace character or is empty |
| Text.TrimEnd | src/components/calendar/EventDialog.tsx:35 | a prefix of the input: everything removed is whitespace, and what remains ends with a non-whitespace character or is empty |
| Text.BlankIffAllWhitespace | src/components/calendar/EventDialog.tsx:35 | `title.trim()` is empty exactly when every character of the title is whitespace |
| Text.TrimIdempotent | src/components/calendar/EventDialog.tsx:35 | trimming twice is trimming once |
| Text.IndexOf | src/components/calendar/EventDialog.tsx:37 | the first position of the separator, or the length when there is none |
| Text.SplitPiecesFree | src/components/calendar/EventDialog.tsx:37 | no piece of a split contains the separator |
| Text.JoinSplit | src/components/calendar/EventDialog.tsx:37 | joining the pieces of a split gives back the string |
| Text.SplitJoin | src/components/calendar/EventDialog.tsx:37 | splitting a join of separator-free pieces gives back the pieces |
| Text.Number | src/components/calendar/EventDialog.tsx:37 | a number exactly for strings of decimal digits (NaN otherwise) |
| Text.NatToString | src/components/calendar/EventDialog.tsx:69 | toString of a natural number: a non-empty digit string, one digit exactly below 10 |
| Text.NatToStringValue | src/components/calendar/EventDialog.tsx:69 | reading back the digits of n gives n |
| Text.PadStart | src/components/calendar/EventDialog.tsx:69 | padStart: the original string at the end, fill characters in front, length max(width, original length) |
| Text.LeadingZeros | src/components/calendar/EventDialog.tsx:69 | zeros in front of a digit string leave its value unchanged |
| Text.PaddedValue | src/components/calendar/EventDialog.tsx:69 | a number padded with '0' reads back as itself |
| TimeSlots.TimeOptions | src/components/calendar/EventDialog.tsx:66-70 | 48 labels; label i is the hour i / 2 in two digits, then ":00" for even i or ":30" for odd i |
| TimeSlots.TwoDigitsLength | src/components/calendar/EventDialog.tsx:68 | an hour below 100 padded to two places has exactly two characters |
| TimeSlots.SlotLabelShape | src/components/calendar/EventDialog.tsx:66-70 | every offered label is "HH:mm": five characters, digits around a colon at index 2 |
| TimeSlots.DigitsUnsplit | src/components/calendar/EventDialog.tsx:37 | a digit string holds no ':' and splits into itself |
| TimeSlots.TwoDigitsValue | src/components/calendar/EventDialog.tsx:69 | a two-digit hour holds no ':' and reads back as the hour |
| TimeSlots.MinuteValues | src/components/calendar/EventDialog.tsx:68 | the minute parts "00" and "30" read back as 0 and 30 |
| TimeSlots.ParseSlotLabel | src/components/calendar/EventDialog.tsx:37-38 | splitting label i on ':' and mapping Number gives hour i / 2 and minute 30 * (i % 2) |
| TimeSlots.ParseLabel | src/components/calendar/EventDialog.tsx:37-38 | a two-digit hour, ':' and a digit minute part parse to that hour and minute |
| TimeSlots.ParseTwoParts | src/components/calendar/EventDialog.tsx:37-38 | a string that splits into two digit strings parses to their numbers |
| TimeSlots.OptionsParse | src/components/calendar/EventDialogFull.tsx:81-82 | every offered label parses to an hour below 24 and a minute of 0 or 30 |
| TimeSlots.OptionsDistinct | src/components/calendar/EventDialogFull.tsx:111-115 | no label is offered twice |
| TimeSlots.DefaultsOffered | src/components/calendar/EventDialogFull.tsx:55-56 | the default times "09:00", "10:00" and "10:30" of the two dialogs are among the labels |
| TimeSlots.NineOClock | src/components/calendar/EventDialog.tsx:30 | "09:00" is label 18 |
| TimeSlots.TenOClock | src/components/calendar/EventDialogFull.tsx:55-56 | "10:00" and "10:30" are labels 20 and 21 |
| TimeSlots.SetHours | src/components/calendar/EventDialog.tsx:44-45 | setHours with a parsed label keeps the day and takes the label's hour and minute |
| TimeSlots.SetHoursSlot | src/components/calendar/EventDialog.tsx:44-45 | choosing label i sets the time to hour i / 2 and minute 30 * (i % 2) |
| Placement.EnabledIds | src/components/calendar/views/MonthView.tsx:29 | an id is listed exactly when some enabled calendar carries it |
| Placement.VisibleWhenEnabled | src/components/calendar/views/MonthView.tsx:32 | an event whose calendarId an enabled calendar carries is visible |
| Placement.Placed | src/components/calendar/views/WeekView.tsx:26-35 | a cell holds exactly the events with an enabled calendar, a start on the cell's day and, for an hour slot, a start in that hour |
| Placement.PlacedAppend | src/components/calendar/views/WeekView.tsx:28 | filtering distributes over concatenation, so a cell keeps the events' list order |
| Placement.PlacedSingle | src/components/calendar/views/WeekView.tsx:28 | a one-event list is kept exactly when the event is shown |
| Placement.OrphanNeverShown | src/components/calendar/views/MonthView.tsx:29-32 | an event whose calendarId names no calendar is never shown |
| Placement.ShownIgnoresEnd | src/components/calendar/views/WeekView.tsx:32-33 | changing an event's end never changes where it is shown |
| Placement.Hours | src/components/calendar/views/DayView.tsx:10 | 24 slots, slot i being hour i |
| Placement.HoursCoverDay | src/components/calendar/views/WeekView.tsx:24 | the slots are the hours 0 to 23, each once, ascending |
| Placement.PlacedIn | src/components/calendar/views/DayView.tsx:12-21 | the events shown on the day whose start hour is one of the given hours |
| Placement.PlacedInCons | src/components/calendar/views/DayView.tsx:12-21 | a slot for a new hour adds exactly the events starting in that hour |
| Placement.SlotEntriesCount | src/components/calendar/views/DayView.tsx:12-21 | slots for distinct hours hold, together, each event of those hours exactly once |
| Placement.PlacedInEveryHour | src/components/calendar/views/DayView.tsx:12-21 | when every start hour is among the slots, the slots lose no event shown on the day |
| Placement.DaySlotsPartition | src/components/calendar/views/DayView.tsx:12-21 | the 24 slots of a day together hold exactly that day's shown events, each once |
| MonthView.MonthGrid | src/components/calendar/views/MonthView.tsx:20-25 | consecutive valid days from startOfWeek(startOfMonth) to endOfWeek(endOfMonth) |
| MonthView.MonthGridShape | src/components/calendar/views/MonthView.tsx:22-25 | the grid starts on the Sunday on or before the 1st and ends on the Saturday on or after the last day; 28 to 42 cells, in whole weeks |
| MonthView.WholeWeeks | src/components/calendar/views/MonthView.tsx:22-25 | a grid of 28 to 43 cells ending in the Saturday column has whole weeks and at most 42 cells |
| MonthView.DayNumberInMonth | src/components/calendar/views/MonthView.tsx:20 | day k of the month is valid and lies k - 1 days after the 1st |
| MonthView.MonthDaysOnce | src/components/calendar/views/MonthView.tsx:22-25 | day k of the month is at grid index weekday(1st) + k - 1 and nowhere else |
| MonthView.CurrentMonthCells | src/components/calendar/views/MonthView.tsx:54 | a cell is flagged isCurrentMonth exactly for the month's own days |
| MonthView.GridWeekday | src/components/calendar/views/MonthView.tsx:57 | cell i falls on weekday i % 7 |
| MonthView.WeekendCells | src/components/calendar/views/MonthView.tsx:57 | isWeekend holds exactly in the first and last column of each row |
| MonthView.EventsForDay | src/components/calendar/views/MonthView.tsx:28-35 | getEventsForDay keeps exactly the events with an enabled calendar that start on the day |
| MonthView.EventInOneCell | src/components/calendar/views/MonthView.tsx:80-92 | a visible event is drawn in the cell of its start day and in no other |
| MonthView.VisibleWithinMembers | src/components/calendar/views/MonthView.tsx:28-35 | the reference list keeps exactly the visible events starting on one of the cells |
| MonthView.OccurrencesDistinct | src/components/calendar/views/MonthView.tsx:25 | in a list of distinct days a day occurs once if listed, otherwise never |
| MonthView.CellTotalCons | src/components/calendar/views/MonthView.tsx:80-92 | one more event adds one entry per cell of its start day when it is visible |
| MonthView.CellTotalCountsVisible | src/components/calendar/views/MonthView.tsx:80-92 | over distinct cells the entries drawn are the visible events starting on a cell, each once, with no cap |
| MonthView.VisibleWithinAll | src/components/calendar/views/MonthView.tsx:28-35 | when every event is visible and starts on a cell, nothing is filtered out |
| MonthView.VisibleWithinAppend | src/components/calendar/views/MonthView.tsx:30 | filtering distributes over concatenation, keeping list order |
| MonthView.VisibleAround | src/components/calendar/views/MonthView.tsx:30-34 | between events that are all visible on the cells, a hidden one is the only one filtered out |
| MonthView.MonthGridDistinct | src/components/calendar/views/MonthView.tsx:25 | the grid holds no day twice |
| MonthView.October2025Numbers | src/contexts/CalendarContext.tsx:88 | 1 October 2025 is a Wednesday and 31 October 2025 a Friday |
| MonthView.October2025Grid | src/components/calendar/views/MonthView.tsx:20-25 | a grid of October 2025 runs from Sunday 28 September to Saturday 1 November: 35 cells |
| MonthView.SeedStartDays | src/contexts/CalendarContext.tsx:23-85 | every seeded event starts in October 2025 or on 1 November 2025 |
| MonthView.InOctober2025Grid | src/components/calendar/views/MonthView.tsx:20-25 | every day of October 2025, and 1 November 2025, is a cell of the October 2025 grid |
| MonthView.SeedStartsInOctober2025 | src/contexts/CalendarContext.tsx:23-85 | every seeded event starts on a cell of the October 2025 grid |
| MonthView.GridDrawsEach | src/components/calendar/views/MonthView.tsx:80-92 | when all events are visible and start on grid days, the grid draws each exactly once |
| MonthView.GridDrawsAllBut | src/components/calendar/views/MonthView.tsx:80-92 | when all events but one hidden event are visible on grid days, the grid draws all the others, each once |
| MonthView.October2025Events | src/components/calendar/views/MonthView.tsx:80-92 | at the initial state the October 2025 grid draws all seven seeded events |
| MonthView.October2025WithoutCalendarTwo | src/components/calendar/views/MonthView.tsx:80-92 | with calendar '2' unticked the October 2025 grid draws six entries |
| WeekView.WeekDays | src/components/calendar/views/WeekView.tsx:20-22 | seven consecutive valid days starting weekday(current) days before the current date |
| WeekView.WeekDaysShape | src/components/calendar/views/WeekView.tsx:20-22 | column i is weekday i, the current date is in its weekday's column, and a date is shown exactly when it lies in that Sunday-to-Saturday week |
| WeekView.ColumnOfDay | src/components/calendar/views/WeekView.tsx:20-22 | a shown date sits in the column of its own weekday |
| WeekView.EventsForDayAndHour | src/components/calendar/views/WeekView.tsx:26-35 | a cell keeps exactly the events with an enabled calendar whose start is on the day and in the hour |
| WeekView.EventCell | src/components/calendar/views/WeekView.tsx:26-35 | a visible event is in cell (column i, hour h) exactly when it starts on that column's day in hour h |
| WeekView.ColumnHoldsDay | src/components/calendar/views/WeekView.tsx:26-35 | the 24 slots of a column hold exactly the visible events of that day, each once |
| WeekView.WeekOfSunday | src/components/calendar/views/WeekView.tsx:20 | for every date of the seven days from a Sunday, the week starts on that Sunday |
| WeekView.SeedMeetingCell | src/components/calendar/views/WeekView.tsx:32-33 | in the week of 5 October 2025 the 14:00-15:00 meeting is only in the Sunday column at 14:00 |
| WeekView.OctoberFifthSunday | src/contexts/CalendarContext.tsx:88 | 5 October 2025 was a Sunday |
| DayView.EventsForHour | src/components/calendar/views/DayView.tsx:12-21 | a slot keeps exactly the events with an enabled calendar that start on the current date in that hour; it is the week view's cell filter for that day |
| DayView.DayMatchesMonthCell | src/components/calendar/views/DayView.tsx:12-21 | the 24 slots together hold exactly what the month view draws in the current date's cell, each as often |
| DayView.EventSlot | src/components/calendar/views/DayView.tsx:18-19 | a visible event of the current date is in the slot of its start hour and in no other |
| DayView.SeedOctoberFifth | src/components/calendar/views/DayView.tsx:18-19 | on 5 October 2025 the seeded meeting fills the 14:00 slot alone, and every other slot is empty |
| DayView.OnlyOneOnDay | src/components/calendar/views/DayView.tsx:12-21 | when only one event starts on the day, a cell of that day holds that event alone or nothing |
| DayView.NoneShown | src/components/calendar/views/DayView.tsx:12-21 | when no event starts on the day, every cell of that day is empty |
| YearView.YearMonths | src/components/calendar/views/YearView.tsx:18-19 | twelve tiles, tile i being the 1st of month i of the current year |
| YearView.TilesFollowYear | src/components/calendar/views/YearView.tsx:18-19 | the tiles depend only on the current date's year |
| YearView.TilesInOrder | src/components/calendar/views/YearView.tsx:19 | the tiles are valid dates in strictly increasing order |
| YearView.TileFlags | src/components/calendar/views/YearView.tsx:44 | in tile i a cell is undimmed exactly for the days of month i, judged against the tile's own month |
| YearView.EveryDayInItsTile | src/components/calendar/views/YearView.tsx:23-29 | every day of the year is an undimmed cell of its month's tile and is dimmed in every other tile |
| YearView.ClickDay | src/components/calendar/views/YearView.tsx:50 | a click sets the current date to the day at midnight; the view and the calendars stay |
| CalendarHeader.Step | src/components/calendar/CalendarHeader.tsx:30-62 | one arrow press: ±1 day, ±7 days, ±1 month or ±12 months by view, the time kept; agenda leaves the date |
| CalendarHeader.YearStepMonth | src/components/calendar/CalendarHeader.tsx:42 | a year step keeps the month and changes the year by one |
| CalendarHeader.DayWeekRoundTrip | src/components/calendar/CalendarHeader.tsx:35-39 | in day and week views next then previous, or previous then next, returns the same date and time |
| CalendarHeader.Steps | src/components/calendar/CalendarHeader.tsx:47-62 | n arrow presses give a valid date |
| CalendarHeader.DaySteps | src/components/calendar/CalendarHeader.tsx:55-56 | n day steps move the date by n days and keep the time |
| CalendarHeader.WeekSteps | src/components/calendar/CalendarHeader.tsx:34-53 | n week steps move the date by 7n days and keep the time |
| CalendarHeader.AgendaSteps | src/components/calendar/CalendarHeader.tsx:29-62 | in agenda view the arrows never change the date or the time |
| CalendarHeader.WeekIsSevenDays | src/components/calendar/CalendarHeader.tsx:52-56 | one week step equals seven day steps |
| CalendarHeader.MonthRoundTrip | src/components/calendar/CalendarHeader.tsx:32-33 | on a day up to the 28th, a month step and its opposite return the same date |
| CalendarHeader.MonthRoundTripClamps | src/components/calendar/CalendarHeader.tsx:49-50 | from 31 January 2025 a month step gives 28 February, and going back gives 28 January |
| CalendarHeader.Navigate | src/components/calendar/CalendarHeader.tsx:30-62 | the current date becomes Step of the old date and view; the view and the calendars stay |
| CalendarHeader.HandlePrevious | src/components/calendar/CalendarHeader.tsx:30-45 | handlePrevious is Navigate backwards |
| CalendarHeader.HandleNext | src/components/calendar/CalendarHeader.tsx:47-62 | handleNext is Navigate forwards |
| CalendarHeader.HandleToday | src/components/calendar/CalendarHeader.tsx:64-66 | the current date becomes 5 October 2025 at midnight, the initial date, whatever the date and view |
| CalendarHeader.SelectView | src/components/calendar/CalendarHeader.tsx:150-164 | the view becomes exactly the chosen one; the date and the calendars stay, and the store stays valid |
| CalendarSidebar.MiniDays | src/components/calendar/CalendarSidebar.tsx:14-16 | one valid day per day of the month, consecutive from the 1st |
| CalendarSidebar.MiniDaysInOrder | src/components/calendar/CalendarSidebar.tsx:14-16 | the k-th listed day is day k + 1 of the displayed month, so every listed day is flagged isCurrentMonth |
| CalendarSidebar.MiniDaysMembers | src/components/calendar/CalendarSidebar.tsx:74-75 | a date is listed exactly when it is in the displayed month |
| CalendarSidebar.LeadingBlanks | src/components/calendar/CalendarSidebar.tsx:18-19 | the number of blank cells is the 1st's weekday, in 0..6 |
| CalendarSidebar.MiniGridColumns | src/components/calendar/CalendarSidebar.tsx:18-19 | blanks plus days are at most 37, and the k-th day falls in the column of its own weekday |
| CalendarSidebar.DayColumn | src/components/calendar/CalendarSidebar.tsx:18-19 | the day k days after the 1st has weekday (weekday of the 1st + k) % 7 |
| CalendarSidebar.TargetMonth | src/components/calendar/CalendarSidebar.tsx:23 | the 1st of the month k months after the date's |
| CalendarSidebar.FollowingMonth | src/components/calendar/CalendarSidebar.tsx:29 | the 1st of the following month lies one month length later |
| CalendarSidebar.SetMonthFits | src/components/calendar/CalendarSidebar.tsx:22-24 | when the day exists in the target month, setMonth keeps the day there |
| CalendarSidebar.SetMonthOverflows | src/components/calendar/CalendarSidebar.tsx:28-30 | when the target month is too short, setMonth rolls into the next month by the excess days |
| CalendarSidebar.NextFromOctoberThirtyFirst | src/components/calendar/CalendarSidebar.tsx:27-31 | from 31 October 2025 the next-month arrow shows 1 December 2025 |
| CalendarSidebar.HeaderClampsOctoberThirtyFirst | src/components/calendar/CalendarHeader.tsx:50 | the header's addMonths instead gives 30 November 2025 |
| CalendarSidebar.PreviousFromMarchThirtyFirst | src/components/calendar/CalendarSidebar.tsx:21-25 | from 31 March 2025 the previous-month arrow lands on 3 March 2025 |
| CalendarSidebar.Sidebar.constructor | src/components/calendar/CalendarSidebar.tsx:12 | the mini calendar starts at the store's current date |
| CalendarSidebar.Sidebar.HandlePrevMonth | src/components/calendar/CalendarSidebar.tsx:21-25 | the mini calendar date becomes setMonth(-1) of itself, the time kept; the current date is untouched |
| CalendarSidebar.Sidebar.HandleNextMonth | src/components/calendar/CalendarSidebar.tsx:27-31 | the mini calendar date becomes setMonth(+1) of itself, the time kept; the current date is untouched |
| CalendarSidebar.Sidebar.HandleDayClick | src/components/calendar/CalendarSidebar.tsx:33-35 | the current date becomes the clicked day at midnight; the mini calendar does not follow |
| CalendarSidebar.Sidebar.HandleToggle | src/components/calendar/CalendarSidebar.tsx:105 | a checkbox runs toggleCalendar on its calendar's id |
| EventDialog.CanSaveIffVisibleChar | src/components/calendar/EventDialog.tsx:159 | Save is enabled exactly when the title holds a non-whitespace character |
| EventDialog.SaveDraft | src/components/calendar/EventDialog.tsx:34-55 | nothing for a blank title or a missing date; otherwise a blue event in the given calendar with the title and allDay, starting and ending on the selected day |
| EventDialog.SaveAllDay | src/components/calendar/EventDialog.tsx:40-41 | an all-day event starts and ends at the selected date itself |
| EventDialog.SaveTimed | src/components/calendar/EventDialog.tsx:43-46 | a timed event with labels i and j runs from i / 2 : 30(i%2) to j / 2 : 30(j%2) of the selected day |
| EventDialog.SaveValid | src/components/calendar/EventDialog.tsx:40-46 | a saved start and end are valid date-times whenever the selected date is |
| EventDialog.EndMayPrecedeStart | src/components/calendar/EventDialog.tsx:43-46 | start 10:00 and end 09:00 save an event that ends before it starts |
| EventDialog.Dialog.constructor | src/components/calendar/EventDialog.tsx:28-32 | the form starts empty: blank title, all-day, 09:00 to 10:00, more options hidden |
| EventDialog.Dialog.SetTitle | src/components/calendar/EventDialog.tsx:90 | replaces the title only |
| EventDialog.Dialog.SetAllDay | src/components/calendar/EventDialog.tsx:136 | replaces the all-day flag only |
| EventDialog.Dialog.SetStartTime | src/components/calendar/EventDialog.tsx:102 | replaces the start time with an offered label only |
| EventDialog.Dialog.SetEndTime | src/components/calendar/EventDialog.tsx:115 | replaces the end time with an offered label only |
| EventDialog.Dialog.ToggleMoreOptions | src/components/calendar/EventDialog.tsx:155 | flips the more-options flag only |
| EventDialog.Dialog.HandleSave | src/components/calendar/EventDialog.tsx:34-64 | returns SaveDraft of the form; a save resets the form, and an early return leaves it unchanged |
| EventDialog.Dialog.Reset | src/components/calendar/EventDialog.tsx:57-62 | title '', all-day, 09:00, 10:00, more options hidden |
| EventDialogFull.Palette | src/components/calendar/EventDialogFull.tsx:117-128 | ten colour names |
| EventDialogFull.PaletteComplete | src/components/calendar/EventDialogFull.tsx:117-128 | every colour name is in the palette, and none appears twice |
| EventDialogFull.PaletteBeyondDeclared | src/types/calendar.ts:8 | exactly five of the ten palette names are colours the event type declares |
| EventDialogFull.SaveEvent | src/components/calendar/EventDialogFull.tsx:74-94 | nothing for a blank title or unset start date; otherwise the selected colour, calendar, title and allDay, from the start date to the end date (or the start date when unset) |
| EventDialogFull.EndDefaultsToStart | src/components/calendar/EventDialogFull.tsx:77-78 | without an end date an all-day event ends exactly at its start |
| EventDialogFull.SaveTimedFull | src/components/calendar/EventDialogFull.tsx:80-85 | a timed event with labels i and j runs from hour i / 2 of the start date to hour j / 2 of the end date |
| EventDialogFull.AgreesWithQuickDialog | src/components/calendar/EventDialogFull.tsx:74-94 | with no end date, blue and the given calendar, it saves exactly what the quick dialog saves |
| EventDialogFull.EndDateMayPrecedeStart | src/components/calendar/EventDialogFull.tsx:80-85 | an end date before the start date is saved as it is |
| EventDialogFull.Dialog.constructor | src/components/calendar/EventDialogFull.tsx:52-66 | both dates from the selected date, blank title, all-day, 10:00 to 10:30, no repeat, blue, the default calendar |
| EventDialogFull.Dialog.SetTitle | src/components/calendar/EventDialogFull.tsx:154 | replaces the title only |
| EventDialogFull.Dialog.SetStartDate | src/components/calendar/EventDialogFull.tsx:173 | replaces the start date only; it may become unset |
| EventDialogFull.Dialog.SetEndDate | src/components/calendar/EventDialogFull.tsx:220 | replaces the end date only |
| EventDialogFull.Dialog.SetStartTime | src/components/calendar/EventDialogFull.tsx:182 | replaces the start time with an offered label only |
| EventDialogFull.Dialog.SetEndTime | src/components/calendar/EventDialogFull.tsx:195 | replaces the end time with an offered label only |
| EventDialogFull.Dialog.SetAllDay | src/components/calendar/EventDialogFull.tsx:237 | replaces the all-day flag only |
| EventDialogFull.Dialog.SelectCalendar | src/components/calendar/EventDialogFull.tsx:329 | replaces the selected calendar only |
| EventDialogFull.Dialog.SelectColor | src/components/calendar/EventDialogFull.tsx:356 | replaces the selected colour only |
| EventDialogFull.Dialog.ResetForm | src/components/calendar/EventDialogFull.tsx:101-109 | restores title, all-day, times, recurrence, location and description; the dates, calendar and colour are outside its frame, so they stay |
| EventDialogFull.Dialog.HandleSave | src/components/calendar/EventDialogFull.tsx:74-99 | returns SaveEvent of the form; a save runs resetForm, and an early return changes nothing |

## Left out

- Rendering: JSX, Tailwind class strings, icons, popovers and tabs are presentation only. That includes the
  "+N" overflow, which does not exist; a cell renders every match, as `CellTotalCountsVisible` states.
- `format(...)` with the Spanish locale, `getDateTitle`, and the hour and weekday labels: these are locale
  formatting inside date-fns.
- `isToday` reads the wall clock, and only styling depends on it.
- Time zones, daylight saving time, seconds and milliseconds: dates are naive local civil dates with hour and minute.
- Dates.AddMonths: date-fns `addMonths`/`addYears`/`subMonths`/`subYears` are not part of the source.
  - Their clamp to the last day of the target month is an explicit assumption of the model.
  - `MonthRoundTrip` is stated only for days up to the 28th, where no clamping can happen.
  - `MonthRoundTripClamps` and `HeaderClampsOctoberThirtyFirst` hold under the assumption.
- Dates.FromDayNumber is specified, not computed: it is the unique valid date with the given day number.
  `AddDays` and `SetMonth` go through it, as JavaScript Date arithmetic goes through the time value.
- Validity preconditions (`ValidDate`, `ValidDateTime`) stand for the fact that a JavaScript Date always holds
  a real calendar day. They exclude no input the source can produce.
- Text.Number models `Number` only on strings of decimal digits. Anything else is NaN (`None`), and signs,
  spaces, exponents and fractions are not modelled. The dialogs only ever feed it the pieces of an offered label.
- EventDialog.Dialog.SetStartTime, EventDialog.Dialog.SetEndTime, EventDialogFull.Dialog.SetStartTime,
  EventDialogFull.Dialog.SetEndTime require an offered label, because the selects offer nothing else.
  `SetHours` with NaN is therefore not modelled.
- Dialog fields that are never saved: notification, availability, visibility, guest permissions and the active tab.
  Recurrence, location and description are kept only because `resetForm` sets them.
- `onOpenChange(false)` after a save is not modelled. The parent's `onSave` is the draft that `HandleSave` returns.
  No code adds a saved event to the event list, so `CalendarStore.events` is a constant.
- `allDay?` in the event type: an absent flag reads as false. No view reads it.
- src/pages/Index.tsx (the sidebar toggle), src/components/calendar/CalendarMain.tsx (the view switch, where
  agenda falls back to the month view) and capacitor.config.ts are routing and build configuration, not part of this model.
