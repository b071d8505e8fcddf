/**
  Civil-date arithmetic used by every view: the proleptic Gregorian calendar,
  the date-fns helpers the components call (startOfMonth, endOfMonth,
  startOfWeek and endOfWeek with weeks starting on Sunday, eachDayOfInterval,
  addDays, addMonths) and JavaScript's Date.setMonth.

  A `Date` is a naive local calendar day with a 0-based month, as JavaScript's
  `new Date(year, month, day)` takes it; a `DateTime` adds hour and minute.
  Every date is identified by its day number, the count of days since
  1 January of year 1, and the proofs go through that number.
*/
module Dates {

  datatype Date = Date(year: int, month: int, day: int)

  datatype DateTime = DateTime(date: Date, hour: int, minute: int)

  predicate IsLeapYear(y: int) {
    y % 4 == 0 && (y % 100 != 0 || y % 400 == 0)
  }

  function DaysInMonth(y: int, m: int): (n: int)
    requires 0 <= m < 12
    ensures 28 <= n <= 31
    ensures m == 1 ==> (n == 29 <==> IsLeapYear(y))
  {
    if m == 1 then (if IsLeapYear(y) then 29 else 28)
    else if m == 3 || m == 5 || m == 8 || m == 10 then 30
    else 31
  }

  predicate ValidDate(d: Date) {
    0 <= d.month < 12 && 1 <= d.day <= DaysInMonth(d.year, d.month)
  }

  predicate ValidDateTime(t: DateTime) {
    ValidDate(t.date) && 0 <= t.hour < 24 && 0 <= t.minute < 60
  }

  /** Days in the years 1 .. y-1 (negative for years before 1). */
  function DaysBeforeYear(y: int): int {
    365 * (y - 1) + (y - 1) / 4 - (y - 1) / 100 + (y - 1) / 400
  }

  /** Days in the months 0 .. m-1 of year y. */
  function DaysBeforeMonth(y: int, m: int): int
    requires 0 <= m <= 12
  {
    var leap := if m >= 2 && IsLeapYear(y) then 1 else 0;
    leap + (if m == 0 then 0 else if m == 1 then 31 else if m == 2 then 59
            else if m == 3 then 90 else if m == 4 then 120 else if m == 5 then 151
            else if m == 6 then 181 else if m == 7 then 212 else if m == 8 then 243
            else if m == 9 then 273 else if m == 10 then 304 else if m == 11 then 334
            else 365)
  }

  function DayNumber(d: Date): int
    requires 0 <= d.month < 12
  {
    DaysBeforeYear(d.year) + DaysBeforeMonth(d.year, d.month) + d.day - 1
  }

  /** JavaScript's getDay: 0 is Sunday, 6 is Saturday. 1 January of year 1 was a Monday. */
  function Weekday(d: Date): (w: int)
    requires 0 <= d.month < 12
    ensures 0 <= w < 7
  {
    (DayNumber(d) + 1) % 7
  }

  /** Minutes since midnight of 1 January of year 1: the instant order of date-times. */
  function Minutes(t: DateTime): int
    requires 0 <= t.date.month < 12
  {
    DayNumber(t.date) * 1440 + t.hour * 60 + t.minute
  }

  lemma MonthLength(y: int, m: int)
    requires 0 <= m < 12
    ensures DaysBeforeMonth(y, m + 1) == DaysBeforeMonth(y, m) + DaysInMonth(y, m)
  {
  }

  /** Moving from year a to a + 1 adds one to each leap-rule quotient exactly at its multiples. */
  lemma LeapCountStep(a: int)
    ensures (a + 1) / 4 == a / 4 + (if (a + 1) % 4 == 0 then 1 else 0)
    ensures (a + 1) / 100 == a / 100 + (if (a + 1) % 100 == 0 then 1 else 0)
    ensures (a + 1) / 400 == a / 400 + (if (a + 1) % 400 == 0 then 1 else 0)
  {
  }

  lemma YearLength(y: int)
    ensures DaysBeforeMonth(y, 12) == 365 + (if IsLeapYear(y) then 1 else 0)
    ensures DaysBeforeYear(y + 1) == DaysBeforeYear(y) + DaysBeforeMonth(y, 12)
  {
    LeapCountStep(y - 1);
  }

  /** Weekday arithmetic: `n` written as a multiple of 7 plus a remainder. */
  lemma SevenDivMod(n: int, q: int, r: int)
    requires 0 <= r < 7 && n == 7 * q + r
    ensures n % 7 == r && n / 7 == q
  {
  }

  lemma {:induction false} YearsAscend(y1: int, y2: int)
    requires y1 < y2
    ensures DaysBeforeYear(y1 + 1) <= DaysBeforeYear(y2)
    decreases y2 - y1
  {
    if y1 + 1 < y2 {
      YearsAscend(y1 + 1, y2);
      YearLength(y1 + 1);
    }
  }

  /** A valid date's day number lies within its year and within its month. */
  lemma DayNumberBounds(d: Date)
    requires ValidDate(d)
    ensures DaysBeforeYear(d.year) <= DaysBeforeYear(d.year) + DaysBeforeMonth(d.year, d.month) <= DayNumber(d)
    ensures DayNumber(d) < DaysBeforeYear(d.year) + DaysBeforeMonth(d.year, d.month + 1)
    ensures DayNumber(d) < DaysBeforeYear(d.year + 1)
  {
    MonthLength(d.year, d.month);
    YearLength(d.year);
  }

  lemma MonthsAscend(y: int, m1: int, m2: int)
    requires 0 <= m1 < m2 <= 12
    ensures DaysBeforeMonth(y, m1 + 1) <= DaysBeforeMonth(y, m2)
  {
  }

  /** Every day of an earlier year has a smaller day number. */
  lemma YearOrder(a: Date, b: Date)
    requires ValidDate(a) && ValidDate(b) && a.year < b.year
    ensures DayNumber(a) < DayNumber(b)
  {
    DayNumberBounds(a);
    DayNumberBounds(b);
    YearsAscend(a.year, b.year);
  }

  /** Within a year, every day of an earlier month has a smaller day number. */
  lemma MonthOrder(a: Date, b: Date)
    requires ValidDate(a) && ValidDate(b) && a.year == b.year && a.month < b.month
    ensures DayNumber(a) < DayNumber(b)
  {
    DayNumberBounds(a);
    DayNumberBounds(b);
    MonthsAscend(a.year, a.month, b.month);
  }

  /** Valid dates are ordered by day number exactly as (year, month, day) are ordered. */
  lemma DayNumberOrder(a: Date, b: Date)
    requires ValidDate(a) && ValidDate(b)
    ensures DayNumber(a) < DayNumber(b) <==>
              a.year < b.year
              || (a.year == b.year && a.month < b.month)
              || (a.year == b.year && a.month == b.month && a.day < b.day)
  {
    if a.year < b.year {
      YearOrder(a, b);
    } else if b.year < a.year {
      YearOrder(b, a);
    } else if a.month < b.month {
      MonthOrder(a, b);
    } else if b.month < a.month {
      MonthOrder(b, a);
    }
  }

  /** Distinct valid dates have distinct day numbers. */
  lemma DayNumberInjective(a: Date, b: Date)
    requires ValidDate(a) && ValidDate(b)
    requires DayNumber(a) == DayNumber(b)
    ensures a == b
  {
    DayNumberOrder(a, b);
    DayNumberOrder(b, a);
  }

  /** The day after `d`. */
  function NextDay(d: Date): (r: Date)
    requires ValidDate(d)
    ensures ValidDate(r) && DayNumber(r) == DayNumber(d) + 1
  {
    MonthLength(d.year, d.month);
    YearLength(d.year);
    if d.day < DaysInMonth(d.year, d.month) then d.(day := d.day + 1)
    else if d.month < 11 then Date(d.year, d.month + 1, 1)
    else Date(d.year + 1, 0, 1)
  }

  /** The day before `d`. */
  function PrevDay(d: Date): (r: Date)
    requires ValidDate(d)
    ensures ValidDate(r) && DayNumber(r) == DayNumber(d) - 1
  {
    if d.day > 1 then d.(day := d.day - 1)
    else if d.month > 0 then
      MonthLength(d.year, d.month - 1);
      Date(d.year, d.month - 1, DaysInMonth(d.year, d.month - 1))
    else
      YearLength(d.year - 1);
      Date(d.year - 1, 11, 31)
  }

  /** Every integer is the day number of some valid date. */
  lemma DayNumberOnto(n: int)
    ensures exists d :: ValidDate(d) && DayNumber(d) == n
  {
    var d := DateOf(n);
  }

  /** A date with day number `n`, found by stepping one day at a time from 1 January of year 1. */
  lemma {:induction false} DateOf(n: int) returns (d: Date)
    ensures ValidDate(d) && DayNumber(d) == n
    decreases if n < 0 then -n else n
  {
    if n == 0 {
      d := Date(1, 0, 1);
    } else if n > 0 {
      var p := DateOf(n - 1);
      d := NextDay(p);
    } else {
      var p := DateOf(n + 1);
      d := PrevDay(p);
    }
  }

  /**
    The date of day number `n`. A JavaScript Date holds a time value, and
    every setter recomputes year, month and day from it (YearFromTime,
    MonthFromTime and DateFromTime of ECMA-262, section 21.4.1); this is
    that inverse, on whole days.
  */
  function FromDayNumber(n: int): (r: Date)
    ensures ValidDate(r) && DayNumber(r) == n
  {
    DayNumberOnto(n);
    DayNumberUnique(n);
    var r :| ValidDate(r) && DayNumber(r) == n;
    r
  }

  lemma DayNumberUnique(n: int)
    ensures forall a, b :: ValidDate(a) && ValidDate(b) && DayNumber(a) == n && DayNumber(b) == n ==> a == b
  {
    forall a, b | ValidDate(a) && ValidDate(b) && DayNumber(a) == n && DayNumber(b) == n ensures a == b {
      DayNumberInjective(a, b);
    }
  }

  /** Converting a valid date to its day number and back gives the date again. */
  lemma FromDayNumberRoundTrip(d: Date)
    requires ValidDate(d)
    ensures FromDayNumber(DayNumber(d)) == d
  {
    DayNumberInjective(FromDayNumber(DayNumber(d)), d);
  }

  /** date-fns addDays: `n` days later (earlier when `n` is negative). */
  function AddDays(d: Date, n: int): (r: Date)
    requires ValidDate(d)
    ensures ValidDate(r) && DayNumber(r) == DayNumber(d) + n
  {
    FromDayNumber(DayNumber(d) + n)
  }

  /** One day later is the next calendar day, and one day earlier the previous one. */
  lemma AddOneDay(d: Date)
    requires ValidDate(d)
    ensures AddDays(d, 1) == NextDay(d) && AddDays(d, -1) == PrevDay(d)
  {
    DayNumberInjective(AddDays(d, 1), NextDay(d));
    DayNumberInjective(AddDays(d, -1), PrevDay(d));
  }

  lemma AddDaysInverse(d: Date, n: int)
    requires ValidDate(d)
    ensures AddDays(AddDays(d, n), -n) == d
  {
    DayNumberInjective(AddDays(AddDays(d, n), -n), d);
  }

  lemma AddDaysCompose(d: Date, m: int, n: int)
    requires ValidDate(d)
    ensures AddDays(AddDays(d, m), n) == AddDays(d, m + n)
  {
    DayNumberInjective(AddDays(AddDays(d, m), n), AddDays(d, m + n));
  }

  function StartOfMonth(d: Date): (r: Date)
    requires ValidDate(d)
    ensures ValidDate(r) && r.year == d.year && r.month == d.month && r.day == 1
    ensures DayNumber(r) == DayNumber(d) - (d.day - 1)
  {
    d.(day := 1)
  }

  function EndOfMonth(d: Date): (r: Date)
    requires ValidDate(d)
    ensures ValidDate(r) && r.year == d.year && r.month == d.month
    ensures DayNumber(r) == DayNumber(d) + (DaysInMonth(d.year, d.month) - d.day)
    ensures ValidDate(NextDay(r)) && NextDay(r).day == 1
  {
    d.(day := DaysInMonth(d.year, d.month))
  }

  /** date-fns startOfWeek with weekStartsOn 0: the Sunday on or before `d`. */
  function StartOfWeek(d: Date): (r: Date)
    requires ValidDate(d)
    ensures ValidDate(r) && Weekday(r) == 0
    ensures DayNumber(r) == DayNumber(d) - Weekday(d)
  {
    var r := AddDays(d, -Weekday(d));
    WeekdayAfter(d, r, 0);
    r
  }

  /** date-fns endOfWeek with weekStartsOn 0: the Saturday on or after `d`. */
  function EndOfWeek(d: Date): (r: Date)
    requires ValidDate(d)
    ensures ValidDate(r) && Weekday(r) == 6
    ensures DayNumber(r) == DayNumber(d) + 6 - Weekday(d)
  {
    var r := AddDays(d, 6 - Weekday(d));
    WeekdayAfter(d, r, 6);
    r
  }

  /** The day k days after the Sunday on or before `d` falls on weekday k. */
  lemma WeekdayAfter(d: Date, r: Date, k: int)
    requires ValidDate(d) && ValidDate(r) && 0 <= k < 7
    requires DayNumber(r) == DayNumber(d) - Weekday(d) + k
    ensures Weekday(r) == k
  {
    WeekBoundary(DayNumber(d) + 1, DayNumber(r) + 1, k);
  }

  /** The day i days after a Sunday falls on weekday i % 7. */
  lemma WeekdayFromSunday(s: Date, x: Date, i: int)
    requires ValidDate(s) && ValidDate(x) && Weekday(s) == 0
    requires 0 <= i && DayNumber(x) == DayNumber(s) + i
    ensures Weekday(x) == i % 7
  {
    var n := DayNumber(s) + 1;
    SevenDivMod(DayNumber(x) + 1, n / 7 + i / 7, i % 7);
  }

  /** Going back from `n` to the last multiple of 7 and then forward by `k` leaves remainder `k`. */
  lemma WeekBoundary(n: int, m: int, k: int)
    requires 0 <= k < 7 && m == n - n % 7 + k
    ensures m % 7 == k
  {
    SevenDivMod(m, n / 7, k);
  }

  /** date-fns eachDayOfInterval: every day from `start` to `end`, both included. */
  function EachDay(start: Date, end: Date): (r: seq<Date>)
    requires ValidDate(start) && ValidDate(end)
    requires DayNumber(start) <= DayNumber(end)
    ensures |r| == DayNumber(end) - DayNumber(start) + 1 && r[0] == start && r[|r| - 1] == end
    ensures forall i :: 0 <= i < |r| ==> ValidDate(r[i]) && DayNumber(r[i]) == DayNumber(start) + i
    decreases DayNumber(end) - DayNumber(start)
  {
    if DayNumber(start) == DayNumber(end) then
      DayNumberInjective(start, end);
      [start]
    else [start] + EachDay(AddDays(start, 1), end)
  }

  /** The days of a list whose day numbers count up from `first` are exactly the valid dates in that range. */
  lemma ConsecutiveMembers(days: seq<Date>, first: int, d: Date)
    requires forall i :: 0 <= i < |days| ==> ValidDate(days[i]) && DayNumber(days[i]) == first + i
    requires ValidDate(d)
    ensures d in days <==> first <= DayNumber(d) < first + |days|
    ensures first <= DayNumber(d) < first + |days| ==> days[DayNumber(d) - first] == d
  {
    if first <= DayNumber(d) < first + |days| {
      DayNumberInjective(days[DayNumber(d) - first], d);
    }
  }

  /** A list whose day numbers count up holds each date at most once. */
  lemma ConsecutiveDistinct(days: seq<Date>, first: int)
    requires forall i :: 0 <= i < |days| ==> ValidDate(days[i]) && DayNumber(days[i]) == first + i
    ensures forall i, j :: 0 <= i < |days| && 0 <= j < |days| && days[i] == days[j] ==> i == j
  {
  }

  /** Index of a month counted from January of year 0. */
  function MonthIndex(d: Date): int {
    d.year * 12 + d.month
  }

  /**
    date-fns addMonths: the same day `k` months later, clamped to the last
    day of the target month (31 January plus one month is 28 or 29 February).
  */
  function AddMonths(d: Date, k: int): (r: Date)
    requires ValidDate(d)
    ensures ValidDate(r) && MonthIndex(r) == MonthIndex(d) + k
    ensures r.day == if d.day <= DaysInMonth(r.year, r.month) then d.day else DaysInMonth(r.year, r.month)
  {
    var idx := MonthIndex(d) + k;
    var y, m := idx / 12, idx % 12;
    Date(y, m, if d.day <= DaysInMonth(y, m) then d.day else DaysInMonth(y, m))
  }

  /** Two dates with the same month index are in the same year and month. */
  lemma MonthIndexInjective(a: Date, b: Date)
    requires 0 <= a.month < 12 && 0 <= b.month < 12
    requires MonthIndex(a) == MonthIndex(b)
    ensures a.year == b.year && a.month == b.month
  {
  }

  /**
    JavaScript Date.setMonth(getMonth() + k) on a date whose day is `d.day`:
    the day is kept and an overflowing day rolls into the following month
    (the day number of the 1st of the target month plus d.day - 1).
  */
  function SetMonth(d: Date, k: int): (r: Date)
    requires ValidDate(d)
    ensures ValidDate(r)
    ensures DayNumber(r) == DayNumber(Date((MonthIndex(d) + k) / 12, (MonthIndex(d) + k) % 12, 1)) + d.day - 1
  {
    var idx := MonthIndex(d) + k;
    AddDays(Date(idx / 12, idx % 12, 1), d.day - 1)
  }
}
