/** From seconds since 1970 to a date, and daylight saving time (system/ascdate.c, include/date.h). */
module Calendar {

  const DAY := 86400
  const HOUR := 3600
  const MINUTE := 60

  const U32 := 0x1_0000_0000

  /** isleap of include/date.h */
  predicate IsLeap(y: int) {
    y % 4 == 0
  }

  /** Date.dt_msize */
  const MSIZE: seq<int> := [31, 28, 31, 30, 31, 30, 31, 31, 30, 31, 30, 31]

  function YearDays(y: int): int {
    if IsLeap(y) then 366 else 365
  }

  function MonthDays(y: int, m: int): int
    requires 0 <= m < 12
  {
    if m == 1 && IsLeap(y) then 29 else MSIZE[m]
  }

  /** Days from 1 January 1970 to 1 January of year `y`. */
  function DaysBefore(y: int): (d: int)
    requires y >= 1970
    ensures d >= 0
  {
    if y == 1970 then 0 else DaysBefore(y - 1) + YearDays(y - 1)
  }

  /** Days from 1 January to the first of month `m`. */
  function MonthStart(y: int, m: int): (d: int)
    requires 0 <= m <= 12
    ensures d >= 0
  {
    if m == 0 then 0 else MonthStart(y, m - 1) + MonthDays(y, m - 1)
  }

  datatype Moment = Moment(year: int, month: int, day: int, hour: int, minute: int, second: int)

  /** Months count from 0 and days from 1. */
  predicate Valid(t: Moment) {
    && t.year >= 1970 && 0 <= t.month < 12 && 1 <= t.day <= MonthDays(t.year, t.month)
    && 0 <= t.hour < 24 && 0 <= t.minute < 60 && 0 <= t.second < 60
  }

  function DayNumber(t: Moment): int
    requires Valid(t)
  {
    DaysBefore(t.year) + MonthStart(t.year, t.month) + t.day - 1
  }

  /** The inverse: the seconds from the start of 1970 to a moment. */
  function Seconds(t: Moment): int
    requires Valid(t)
  {
    DayNumber(t) * DAY + t.hour * HOUR + t.minute * MINUTE + t.second
  }

  /** The day of the week of day number `n`; 1 January 1970 was a Thursday. */
  function Weekday(n: int): int {
    (4 + n) % 7
  }

  lemma YearIsMonths(y: int)
    ensures MonthStart(y, 12) == YearDays(y)
  {
    MonthStarts(y);
  }

  lemma MonthStarts(y: int)
    ensures
      var x := if IsLeap(y) then 1 else 0;
      && MonthStart(y, 0) == 0 && MonthStart(y, 1) == 31 && MonthStart(y, 2) == 59 + x && MonthStart(y, 3) == 90 + x
         && MonthStart(y, 4) == 120 + x
      && MonthStart(y, 10) == 304 + x && MonthStart(y, 11) == 334 + x && MonthStart(y, 12) == 365 + x
  {
    var x := if IsLeap(y) then 1 else 0;
    assert MonthStart(y, 0) == 0;
    assert MonthStart(y, 1) == 31;
    assert MonthStart(y, 2) == 59 + x;
    assert MonthStart(y, 3) == 90 + x;
    assert MonthStart(y, 4) == 120 + x;
    assert MonthStart(y, 5) == 151 + x;
    assert MonthStart(y, 6) == 181 + x;
    assert MonthStart(y, 7) == 212 + x;
    assert MonthStart(y, 8) == 243 + x;
    assert MonthStart(y, 9) == 273 + x;
    assert MonthStart(y, 10) == 304 + x;
    assert MonthStart(y, 11) == 334 + x;
    assert MonthStart(y, 12) == 365 + x;
  }

  lemma {:induction false} MonthsAscend(y: int, m: int, n: int)
    requires 0 <= m <= n <= 12
    ensures MonthStart(y, m) <= MonthStart(y, n)
    ensures m < n ==> MonthStart(y, m) + MonthDays(y, m) <= MonthStart(y, n)
    decreases n
  {
    if m < n { MonthsAscend(y, m, n - 1); }
  }

  lemma {:induction false} YearsAscend(y: int, z: int)
    requires 1970 <= y <= z
    ensures DaysBefore(y) <= DaysBefore(z)
    ensures y < z ==> DaysBefore(y) + YearDays(y) <= DaysBefore(z)
    decreases z
  {
    if y < z { YearsAscend(y, z - 1); }
  }

  /** The count of leap years in the code is the number of extra days. */
  lemma {:induction false} LeapYears(y: int)
    requires y >= 1970
    ensures DaysBefore(y) == 365 * (y - 1970) + (y - 1969) / 4
  {
    if y > 1970 { LeapYears(y - 1); }
  }

  /** A date lies within its year. */
  lemma WithinYear(t: Moment)
    requires Valid(t)
    ensures DaysBefore(t.year) <= DayNumber(t) < DaysBefore(t.year) + YearDays(t.year)
  {
    hide MonthStart, DaysBefore, MonthDays;
    MonthsAscend(t.year, t.month, 12);
    MonthAscendZero(t.year, t.month);
    YearIsMonths(t.year);
  }

  lemma MonthAscendZero(y: int, m: int)
    requires 0 <= m < 12
    ensures MonthStart(y, m) >= 0
  {
  }

  /** No two valid moments are the same second: the fields of a time are unique. */
  lemma SecondsInjective(t: Moment, u: Moment)
    requires Valid(t) && Valid(u) && Seconds(t) == Seconds(u)
    ensures t == u
  {
    hide DaysBefore, MonthStart, MonthDays, YearDays, Valid;
    SameDay(t, u);
    WithinYear(t);
    WithinYear(u);
    if t.year < u.year { YearsAscend(t.year, u.year); }
    if u.year < t.year { YearsAscend(u.year, t.year); }
    SameMonth(t, u);
  }

  lemma SameDay(t: Moment, u: Moment)
    requires Valid(t) && Valid(u) && Seconds(t) == Seconds(u)
    ensures DayNumber(t) == DayNumber(u) && t.hour == u.hour && t.minute == u.minute && t.second == u.second
    ensures t.year >= 1970 && u.year >= 1970 && 0 <= t.month < 12 && 0 <= u.month < 12
    ensures 1 <= t.day <= MonthDays(t.year, t.month) && 1 <= u.day <= MonthDays(u.year, u.month)
  {
    hide DaysBefore, MonthStart, MonthDays, DayNumber;
  }

  lemma SameMonth(t: Moment, u: Moment)
    requires 0 <= t.month < 12 && 0 <= u.month < 12 && t.year == u.year
    requires 1 <= t.day <= MonthDays(t.year, t.month) && 1 <= u.day <= MonthDays(u.year, u.month)
    requires MonthStart(t.year, t.month) + t.day == MonthStart(u.year, u.month) + u.day
    ensures t.month == u.month && t.day == u.day
  {
    hide MonthStart, MonthDays;
    if t.month < u.month { MonthsAscend(t.year, t.month, u.month); }
    if u.month < t.month { MonthsAscend(t.year, u.month, t.month); }
  }

  // ---------- The computation of the fields ----------

  /** ascdate.c:43-113: the fields of a time, the weekday, and the weekday of 1 January. */
  method Fields(now: int) returns (t: Moment, dayofweek: int, jan1: int)
    requires 0 <= now < U32
    ensures Valid(t) && Seconds(t) == now
    ensures dayofweek == Weekday(now / DAY) && jan1 == Weekday(DaysBefore(t.year))
  {
    hide Valid, MonthStart, DaysBefore, MonthDays, YearDays;
    var left, year := YearLoop(now);
    var days := left / DAY;
    var month;
    ghost var inYear := left;
    left, month := MonthLoop(left, year);
    var day := left / DAY + 1;
    left := left % DAY;
    var hour := left / HOUR;
    left := left % HOUR;
    var minute := left / MINUTE;
    left := left % MINUTE;
    var second := left;
    t := Moment(year, month, day, hour, minute, second);
    FieldsFit(now, inYear, t);
    var leapyrs := (year - 1969) / 4;
    var shift := 4 + (year - 1970) + leapyrs;
    jan1 := shift % 7;
    shift := shift + days;
    dayofweek := shift % 7;
    ShiftIsWeekday(now, inYear, year);
  }

  /** ascdate.c:45-51 */
  method YearLoop(now: int) returns (left: int, year: int)
    requires 0 <= now < U32
    ensures year >= 1970 && 0 <= left < YearDays(year) * DAY && DaysBefore(year) * DAY + left == now
  {
    left, year := now, 1970;
    while true
      invariant year >= 1970 && 0 <= left && DaysBefore(year) * DAY + left == now
      decreases left
    {
      var days := if IsLeap(year) then 366 else 365;
      var tmp := days * DAY;
      if tmp > left {
        break;
      }
      left := left - tmp;
      year := year + 1;
    }
  }

  /** ascdate.c:60-68 */
  method MonthLoop(now: int, year: int) returns (left: int, month: int)
    requires 0 <= now < YearDays(year) * DAY
    ensures 0 <= month < 12 && 0 <= left < MonthDays(year, month) * DAY && MonthStart(year, month) * DAY + left == now
  {
    hide YearDays;
    left, month := now, 0;
    while month < 12
      invariant 0 <= month <= 12 && 0 <= left && MonthStart(year, month) * DAY + left == now
    {
      var tmp := MSIZE[month] * DAY;
      if month == 1 && IsLeap(year) {
        tmp := tmp + DAY;
      }
      if tmp > left {
        break;
      }
      left := left - tmp;
      month := month + 1;
    }
    YearIsMonths(year);
  }

  lemma FieldsFit(now: int, inYear: int, t: Moment)
    requires t.year >= 1970 && 0 <= t.month < 12
    requires DaysBefore(t.year) * DAY + inYear == now
    requires
      var left := inYear - MonthStart(t.year, t.month) * DAY;
      && 0 <= left < MonthDays(t.year, t.month) * DAY
      && t.day == left / DAY + 1 && t.hour == left % DAY / HOUR
      && t.minute == left % DAY % HOUR / MINUTE && t.second == left % DAY % HOUR % MINUTE
    ensures Valid(t) && Seconds(t) == now
  {
    hide MonthStart, DaysBefore, MonthDays;
  }

  lemma ShiftIsWeekday(now: int, inYear: int, year: int)
    requires year >= 1970 && 0 <= inYear && DaysBefore(year) * DAY + inYear == now
    ensures (4 + (year - 1970) + (year - 1969) / 4 + inYear / DAY) % 7 == Weekday(now / DAY)
    ensures (4 + (year - 1970) + (year - 1969) / 4) % 7 == Weekday(DaysBefore(year))
  {
    hide DaysBefore;
    LeapYears(year);
    assert now / DAY == DaysBefore(year) + inYear / DAY;
    var k := year - 1970;
    SevenMore(4 + k + (year - 1969) / 4, 52 * k);
    SevenMore(4 + k + (year - 1969) / 4 + inYear / DAY, 52 * k);
  }

  lemma SevenMore(x: int, k: int)
    ensures (x + 7 * k) % 7 == x % 7
  {
    assert x + 7 * k == 7 * (x / 7 + k) + x % 7;
  }

  // ---------- Daylight saving time ----------

  /** The first Sunday on or after day `d` of a month. */
  function SundayFrom(y: int, m: int, d: int): (r: int)
    requires y >= 1970 && 0 <= m < 12
    ensures d <= r < d + 7 && Weekday(DaysBefore(y) + MonthStart(y, m) + r - 1) == 0
  {
    d + (7 - Weekday(DaysBefore(y) + MonthStart(y, m) + d - 1)) % 7
  }

  /** Two o'clock on the second Sunday of March. */
  function DstStart(y: int): Moment
    requires y >= 1970
  {
    Moment(y, 2, SundayFrom(y, 2, 8), 2, 0, 0)
  }

  /** One o'clock standard time on the first Sunday of November. */
  function DstEnd(y: int): Moment
    requires y >= 1970
  {
    Moment(y, 10, SundayFrom(y, 10, 1), 1, 0, 0)
  }

  lemma DstMoments(y: int)
    requires y >= 1970
    ensures Valid(DstStart(y)) && Valid(DstEnd(y))
  {
    hide SundayFrom;
  }

  /** ascdate.c:131-158 */
  method Sundays(year: int, jan1: int) returns (marss: int, novfs: int)
    requires year >= 1970 && jan1 == Weekday(DaysBefore(year))
    ensures marss == SundayFrom(year, 2, 8) && novfs == SundayFrom(year, 10, 1)
  {
    hide DaysBefore, MonthStart;
    var leap := if IsLeap(year) then 1 else 0;
    var mar1 := (jan1 + MSIZE[0] + MSIZE[1] + leap) % 7;
    if mar1 == 0 {
      marss := 8;
    } else {
      marss := 15 - mar1;
    }
    var nov1 := jan1;
    for i := 0 to 10
      invariant nov1 == jan1 + PlainStart(i)
    {
      nov1 := nov1 + MSIZE[i];
    }
    if IsLeap(year) {
      nov1 := nov1 + 1;
    }
    nov1 := nov1 % 7;
    if nov1 == 0 {
      novfs := 1;
    } else {
      novfs := 8 - nov1;
    }
    PlainOctober();
    MonthStarts(year);
    SundayOf(year, 2, 8, mar1, marss);
    SundayOf(year, 10, 1, nov1, novfs);
  }

  function PlainStart(m: int): int
    requires 0 <= m <= 12
  {
    if m == 0 then 0 else PlainStart(m - 1) + MSIZE[m - 1]
  }

  lemma PlainOctober()
    ensures PlainStart(10) == 304
  {
    assert PlainStart(5) == 151;
  }

  lemma SundayOf(y: int, m: int, d: int, first: int, s: int)
    requires y >= 1970 && 0 <= m < 12 && (d == 1 || d == 8)
    requires first == (Weekday(DaysBefore(y)) + MonthStart(y, m)) % 7
    requires s == if first == 0 then d else d + 7 - first
    ensures s == SundayFrom(y, m, d)
  {
    hide DaysBefore, MonthStart;
    var n := DaysBefore(y) + MonthStart(y, m);
    assert first == Weekday(n) by { RestAdds(4 + DaysBefore(y), MonthStart(y, m)); }
    assert Weekday(n + d - 1) == first by { if d == 8 { SevenMore(4 + n, 1); } }
  }

  lemma RestAdds(x: int, k: int)
    ensures (x % 7 + k) % 7 == (x + k) % 7
  {
    SevenMore(x % 7 + k, x / 7);
    assert x == 7 * (x / 7) + x % 7;
  }

  const DST_ON := 1
  const DST_AUTO := 2

  /** ascdate.c:122-195, for a time `t` without daylight saving. */
  method Daylight(t: Moment, jan1: int, daylight: int) returns (dst: bool)
    requires Valid(t) && jan1 == Weekday(DaysBefore(t.year))
    ensures DstMomentsOK(t.year)
    ensures dst <==>
              daylight == DST_ON
              || (daylight == DST_AUTO && Seconds(DstStart(t.year)) <= Seconds(t) < Seconds(DstEnd(t.year)))
  {
    hide SundayFrom, Seconds;
    DstMoments(t.year);
    InYear(t, DstStart(t.year));
    InYear(t, DstEnd(t.year));
    dst := false;
    if daylight == DST_ON {
      dst := true;
    } else if daylight == DST_AUTO {
      var marss, novfs := Sundays(t.year, jan1);
      if t.month == 11 || t.month == 0 || t.month == 1 {
        dst := false;
      } else if t.month > 2 && t.month < 10 {
        dst := true;
      } else if t.month == 2 {
        dst := false;
        if t.day > marss {
          dst := true;
        } else if t.day == marss && t.hour >= 2 {
          dst := true;
        }
      } else if t.month == 10 {
        dst := true;
        if t.day > novfs {
          dst := false;
        } else if t.day == novfs && t.hour >= 1 {
          dst := false;
        }
      }
    }
  }

  predicate DstMomentsOK(y: int) {
    y >= 1970 && Valid(DstStart(y)) && Valid(DstEnd(y))
  }

  /** Times of one year compare by month, day and time of day. */
  lemma InYear(t: Moment, u: Moment)
    requires Valid(t) && Valid(u) && t.year == u.year && u.minute == 0 && u.second == 0
    ensures Seconds(t) < Seconds(u) <==>
              t.month < u.month || (t.month == u.month && (t.day < u.day || (t.day == u.day && t.hour < u.hour)))
  {
    hide MonthStart, DaysBefore, MonthDays;
    if t.month < u.month { MonthsAscend(t.year, t.month, u.month); }
    if u.month < t.month { MonthsAscend(t.year, u.month, t.month); }
  }

  /** ascdate.c:200-219: one hour on. */
  function Ahead(t: Moment): Moment
    requires Valid(t)
  {
    if t.hour + 1 <= 23 then t.(hour := t.hour + 1)
    else if t.day + 1 > MSIZE[t.month] then t.(hour := 0, day := 1, month := t.month + 1)
    else t.(hour := 0, day := t.day + 1)
  }

  method MoveAhead(t: Moment) returns (r: Moment)
    requires Valid(t)
    ensures r == Ahead(t)
  {
    var month, day, hour := t.month, t.day, t.hour;
    hour := hour + 1;
    if hour > 23 {
      hour := 0;
      day := day + 1;
      if day > MSIZE[month] {
        day := 1;
        month := month + 1;
      }
    }
    r := t.(month := month, day := day, hour := hour);
  }

  /** Moving ahead names the moment one hour later except in the last hour of 28 February of a leap year, which
      becomes 1 March, and of 31 December, which becomes month 12. */
  lemma AheadIff(t: Moment)
    requires Valid(t)
    ensures
      Valid(Ahead(t)) && Seconds(Ahead(t)) == Seconds(t) + HOUR <==>
      !(t.hour == 23 && ((t.month == 1 && IsLeap(t.year) && t.day == 28) || (t.month == 11 && t.day == 31)))
  {
    hide DaysBefore, MonthStart;
    MonthStarts(t.year);
    if t.month < 11 { NextMonth(t.year, t.month); }
  }

  lemma NextMonth(y: int, m: int)
    requires 0 <= m < 11
    ensures MonthStart(y, m + 1) == MonthStart(y, m) + MonthDays(y, m)
  {
  }

  datatype Shown = Shown(weekday: int, moment: Moment, dst: bool)

  /** ascdate, up to the formatting of the string; `t` is the time without daylight saving. */
  method Ascdate(now: int, daylight: int) returns (shown: Shown, ghost t: Moment)
    requires 0 <= now < U32
    ensures Valid(t) && Seconds(t) == now && DstMomentsOK(t.year)
    ensures shown.dst <==>
              daylight == DST_ON
              || (daylight == DST_AUTO && Seconds(DstStart(t.year)) <= now < Seconds(DstEnd(t.year)))
    ensures shown.moment == if shown.dst then Ahead(t) else t
    ensures shown.weekday == Weekday(now / DAY)
  {
    hide Valid, Seconds, DstStart, DstEnd, Ahead;
    var fields, dayofweek, jan1 := Fields(now);
    t := fields;
    var dst := Daylight(fields, jan1, daylight);
    if dst {
      fields := MoveAhead(fields);
    }
    shown := Shown(dayofweek, fields, dst);
  }

  /** With automatic daylight saving the hour is always moved properly, as both wrong cases lie outside it. */
  lemma AutomaticIsRight(t: Moment)
    requires Valid(t) && DstMomentsOK(t.year) && Seconds(DstStart(t.year)) <= Seconds(t) < Seconds(DstEnd(t.year))
    ensures Valid(Ahead(t)) && Seconds(Ahead(t)) == Seconds(t) + HOUR
  {
    hide Seconds, SundayFrom, Ahead;
    AheadIff(t);
    InYear(t, DstStart(t.year));
    InYear(t, DstEnd(t.year));
  }

  /** The weekday shown is that of the date shown, if that date is right, exactly when moving ahead stays within
      the day. */
  lemma WeekdayIff(t: Moment)
    requires Valid(t) && Valid(Ahead(t)) && Seconds(Ahead(t)) == Seconds(t) + HOUR
    ensures Weekday(Seconds(t) / DAY) == Weekday(DayNumber(Ahead(t))) <==> t.hour < 23
  {
    hide DaysBefore, MonthStart, DayNumber, Ahead;
    DayOfSeconds(t);
    DayOfSeconds(Ahead(t));
    AheadHour(t);
  }

  lemma AheadHour(t: Moment)
    requires Valid(t)
    ensures t.hour < 23 ==> Ahead(t).hour == t.hour + 1
    ensures t.hour == 23 ==> Ahead(t).hour == 0
    ensures Ahead(t).minute == t.minute && Ahead(t).second == t.second
  {
  }

  lemma DayOfSeconds(t: Moment)
    requires Valid(t)
    ensures Seconds(t) / DAY == DayNumber(t)
  {
    hide DayNumber;
  }

  // ---------- The calendar in use ----------

  predicate GregLeap(y: int) {
    y % 4 == 0 && (y % 100 != 0 || y % 400 == 0)
  }

  function GregMonthDays(y: int, m: int): int
    requires 0 <= m < 12
  {
    if m == 1 && GregLeap(y) then 29 else MSIZE[m]
  }

  function GregDaysBefore(y: int): int
    requires y >= 1970
  {
    if y == 1970 then 0 else GregDaysBefore(y - 1) + if GregLeap(y - 1) then 366 else 365
  }

  function GregMonthStart(y: int, m: int): int
    requires 0 <= m <= 12
  {
    if m == 0 then 0 else GregMonthStart(y, m - 1) + GregMonthDays(y, m - 1)
  }

  predicate GregValid(t: Moment) {
    && t.year >= 1970 && 0 <= t.month < 12 && 1 <= t.day <= GregMonthDays(t.year, t.month)
    && 0 <= t.hour < 24 && 0 <= t.minute < 60 && 0 <= t.second < 60
  }

  function GregSeconds(t: Moment): int
    requires GregValid(t)
  {
    (GregDaysBefore(t.year) + GregMonthStart(t.year, t.month) + t.day - 1) * DAY + t.hour * HOUR + t.minute * MINUTE
        + t.second
  }

  lemma {:induction false} GregYears(y: int)
    requires y >= 1970
    ensures y <= 2100 ==> GregDaysBefore(y) == DaysBefore(y)
    ensures y > 2100 ==> GregDaysBefore(y) < DaysBefore(y)
  {
    hide GregLeap, IsLeap;
    if y > 1970 {
      GregYears(y - 1);
      LeapCases(y - 1);
    }
  }

  lemma LeapCases(y: int)
    requires y >= 1970
    ensures GregLeap(y) ==> IsLeap(y)
    ensures y < 2100 ==> GregLeap(y) == IsLeap(y)
    ensures y == 2100 ==> IsLeap(y) && !GregLeap(y)
  {
    if y < 2100 && y % 100 == 0 { assert y == 2000; }
  }

  lemma {:induction false} GregMonths(y: int, m: int)
    requires 0 <= m <= 12
    ensures GregMonthStart(y, m) == MonthStart(y, m) - if m >= 2 && IsLeap(y) && !GregLeap(y) then 1 else 0
  {
    if m > 0 { GregMonths(y, m - 1); }
  }

  /** The first second of 29 February 2100, which the calendar in use does not have. */
  const LIMIT := 4_107_542_400

  /** The fields of a time are its date in the Gregorian calendar exactly before that second. */
  lemma GregorianIff(t: Moment)
    requires Valid(t)
    ensures GregValid(t) && GregSeconds(t) == Seconds(t) <==> Seconds(t) < LIMIT
  {
    hide DaysBefore, MonthStart, GregDaysBefore, GregMonthStart, GregLeap, IsLeap;
    GregYears(t.year);
    GregMonths(t.year, t.month);
    LeapCases(t.year);
    LeapYears(2100);
    WithinYear(t);
    if t.year < 2100 {
      YearsAscend(t.year, 2100);
    } else if t.year == 2100 {
      MonthStarts(t.year);
      if t.month >= 2 { MonthsAscend(t.year, 2, t.month); }
    } else {
      YearsAscend(2100, t.year);
    }
  }
}
