/**
 TimeZone::toUtcTime and fromUtcTime of timezone.cc: a time_t broken down into the
 fields of a struct tm, and back, also before 1970.
 */
module UtcTime {
  import opened Calendar
  import opened Truncation

  const SECONDS_PER_DAY := 86400
  const JULIAN_DAY_OF_1970_01_01 := 2440588

  datatype Tm = Tm(sec: int, min: int, hour: int, mday: int, mon: int, year: int,
                   wday: int, yday: int, isdst: bool, gmtoff: int)

  // The last day for which getYearMonthDay does not overflow.
  const LAST_DAY := 536838867

  // The day of a time, and the seconds into it.
  function DayOf(t: int): int {
    if Mod(t, SECONDS_PER_DAY) < 0 then Div(t, SECONDS_PER_DAY) - 1 else Div(t, SECONDS_PER_DAY)
  }

  function SecondsOf(t: int): int {
    if Mod(t, SECONDS_PER_DAY) < 0 then Mod(t, SECONDS_PER_DAY) + SECONDS_PER_DAY else Mod(t, SECONDS_PER_DAY)
  }

  predicate InTimeRange(t: int) {
    -32044 <= t / SECONDS_PER_DAY + JULIAN_DAY_OF_1970_01_01 <= LAST_DAY
  }

  // The fields for a date, its day number and the seconds into the day; fillHMS works on unsigned.
  function Fields(ymd: YearMonthDay, julian: int, seconds: int): Tm {
    Tm(seconds % 60, seconds / 60 % 60, seconds / 60 / 60,
       ymd.day, ymd.month - 1, ymd.year - 1900, WeekDay(julian),
       julian - JulianDayNumber(ymd.year, 1, 1), false, 0)
  }

  function JulianOf(t: int): int {
    DayOf(t) + JULIAN_DAY_OF_1970_01_01
  }

  function ToUtcTime(t: int): Tm {
    Fields(ToYearMonthDay(JulianOf(t)), JulianOf(t), SecondsOf(t))
  }

  function FromUtcTime(tm: Tm): int {
    var secondsInDay := tm.hour * 3600 + tm.min * 60 + tm.sec;
    var days := JulianDayNumber(tm.year + 1900, tm.mon + 1, tm.mday) - JULIAN_DAY_OF_1970_01_01;
    days * SECONDS_PER_DAY + secondsInDay
  }

  function DateOf(tm: Tm): YearMonthDay {
    YearMonthDay(tm.year + 1900, tm.mon + 1, tm.mday)
  }

  predicate LegalFields(tm: Tm) {
    && 0 <= tm.sec < 60 && 0 <= tm.min < 60 && 0 <= tm.hour < 24
    && InRange(DateOf(tm))
  }

  lemma EpochDay()
    ensures JulianDayNumber(1970, 1, 1) == JULIAN_DAY_OF_1970_01_01
  {
  }

  // The correction after the truncating division gives the floor and the non-negative remainder.
  lemma DayAndSecondsAreFloor(t: int)
    ensures DayOf(t) == t / SECONDS_PER_DAY && SecondsOf(t) == t % SECONDS_PER_DAY
    ensures t == DayOf(t) * SECONDS_PER_DAY + SecondsOf(t)
  {
  }

  lemma FieldsPutTogether(ymd: YearMonthDay, julian: int, seconds: int)
    requires InRange(ymd) && DayNumber(ymd) == julian && 0 <= seconds < SECONDS_PER_DAY
    ensures LegalFields(Fields(ymd, julian, seconds))
    ensures FromUtcTime(Fields(ymd, julian, seconds)) ==
            (julian - JULIAN_DAY_OF_1970_01_01) * SECONDS_PER_DAY + seconds
  {
  }

  /** Breaking a time down and putting it together again gives the time, and the fields are legal. */
  lemma UtcRoundTrip(t: int)
    requires InTimeRange(t)
    ensures FromUtcTime(ToUtcTime(t)) == t
    ensures LegalFields(ToUtcTime(t))
  {
    DayAndSecondsAreFloor(t);
    ToYearMonthDayInverts(JulianOf(t));
    FieldsPutTogether(ToYearMonthDay(JulianOf(t)), JulianOf(t), SecondsOf(t));
  }

  /** The fields that need no computing: Greenwich, and no daylight saving. */
  lemma UtcIsGreenwich(t: int)
    ensures !ToUtcTime(t).isdst && ToUtcTime(t).gmtoff == 0
  {
  }

  /** Legal fields are the break-down of their time, in all fields that a caller sets. */
  lemma FieldsRoundTrip(tm: Tm)
    requires LegalFields(tm)
    ensures var u := ToUtcTime(FromUtcTime(tm));
            DateOf(u) == DateOf(tm) && u.hour == tm.hour && u.min == tm.min && u.sec == tm.sec
  {
    var j := BreakDownOfFields(tm);
    FieldsOf(DateOf(tm), j, tm.hour, tm.min, tm.sec);
  }

  lemma BreakDownOfFields(tm: Tm) returns (j: int)
    requires LegalFields(tm)
    ensures ToUtcTime(FromUtcTime(tm)) == Fields(DateOf(tm), j, SecondsInDay(tm))
  {
    j := DayNumber(DateOf(tm));
    DayNumberInverts(DateOf(tm));
    TimeOfFields(tm);
    BreakDown(FromUtcTime(tm), DateOf(tm), j, SecondsInDay(tm));
  }

  function SecondsInDay(tm: Tm): int {
    tm.hour * 3600 + tm.min * 60 + tm.sec
  }

  lemma TimeOfFields(tm: Tm)
    ensures FromUtcTime(tm) == (DayNumber(DateOf(tm)) - JULIAN_DAY_OF_1970_01_01) * SECONDS_PER_DAY + SecondsInDay(tm)
  {
  }

  lemma FieldsOf(d: YearMonthDay, j: int, h: int, m: int, s: int)
    requires 0 <= h < 24 && 0 <= m < 60 && 0 <= s < 60
    ensures var x, u := h * 3600 + m * 60 + s, Fields(d, j, h * 3600 + m * 60 + s);
            0 <= x < SECONDS_PER_DAY && DateOf(u) == d && u.hour == h && u.min == m && u.sec == s
  {
    ClockFields(h, m, s);
  }

  lemma BreakDown(t: int, d: YearMonthDay, j: int, s: int)
    requires t == (j - JULIAN_DAY_OF_1970_01_01) * SECONDS_PER_DAY + s && 0 <= s < SECONDS_PER_DAY
    requires ToYearMonthDay(j) == d
    ensures ToUtcTime(t) == Fields(d, j, s)
  {
    assert DayOf(t) == j - JULIAN_DAY_OF_1970_01_01 && SecondsOf(t) == s by {
      TimeOfDay(j - JULIAN_DAY_OF_1970_01_01, s);
    }
  }

  lemma TimeOfDay(days: int, seconds: int)
    requires 0 <= seconds < SECONDS_PER_DAY
    ensures DayOf(days * SECONDS_PER_DAY + seconds) == days
    ensures SecondsOf(days * SECONDS_PER_DAY + seconds) == seconds
  {
  }

  lemma ClockFields(h: int, m: int, s: int)
    requires 0 <= h < 24 && 0 <= m < 60 && 0 <= s < 60
    ensures var x := h * 3600 + m * 60 + s;
            x % 60 == s && x / 60 % 60 == m && x / 60 / 60 == h
  {
  }

  // ----- the day of the year -----

  // Days of the months before this one, by the calendar's month lengths.
  function DaysBefore(year: int, month: int): int
    decreases month
  {
    if month <= 1 then 0 else DaysBefore(year, month - 1) + DaysOfMonth(year, month - 1)
  }

  lemma DayInMonth(year: int, month: int, day: int)
    requires InRange(YearMonthDay(year, month, 1)) && 1 <= day <= DaysOfMonth(year, month)
    ensures InRange(YearMonthDay(year, month, day))
    ensures Number(YearMonthDay(year, month, day)) == Number(YearMonthDay(year, month, 1)) + day - 1
  {
  }

  lemma NextMonth(year: int, month: int)
    requires year > -4800 && 1 <= month < 12
    ensures Number(YearMonthDay(year, month + 1, 1)) == Number(YearMonthDay(year, month, 1)) + DaysOfMonth(year, month)
  {
    var last := YearMonthDay(year, month, DaysOfMonth(year, month));
    DayInMonth(year, month, last.day);
    NumberOfNext(last);
  }

  lemma {:induction false} FirstOfMonth(year: int, month: int)
    requires year > -4800 && 1 <= month <= 12
    ensures Number(YearMonthDay(year, month, 1)) == Number(YearMonthDay(year, 1, 1)) + DaysBefore(year, month)
    decreases month
  {
    if month > 1 {
      FirstOfMonth(year, month - 1);
      NextMonth(year, month - 1);
    }
  }

  lemma DayInYear(d: YearMonthDay)
    requires InRange(d) && d.year > -4800
    ensures Number(d) - Number(YearMonthDay(d.year, 1, 1)) == DaysBefore(d.year, d.month) + d.day - 1
  {
    FirstOfMonth(d.year, d.month);
    DayInMonth(d.year, d.month, d.day);
  }

  lemma DayOfYear(d: YearMonthDay)
    requires InRange(d)
    ensures Number(d) - JulianDayNumber(d.year, 1, 1) ==
            DaysBefore(d.year, d.month) + d.day - 1 - if d.year == -4800 then 1 else 0
  {
    if d.year > -4800 {
      DayInYear(d);
      DayNumberSplits(YearMonthDay(d.year, 1, 1));
    } else {
      FirstYear(d.month);
    }
  }

  // What tm_yday has to be, for these fields.
  function YearDay(u: Tm): int {
    DaysBefore(u.year + 1900, u.mon + 1) + u.mday - 1
  }

  lemma YearDayOfDate(u: Tm, ymd: YearMonthDay)
    requires InRange(ymd) && u.year == ymd.year - 1900 && u.mon == ymd.month - 1 && u.mday == ymd.day
    requires u.yday == Number(ymd) - JulianDayNumber(ymd.year, 1, 1)
    ensures u.yday == YearDay(u) - if u.year + 1900 == -4800 then 1 else 0
  {
    DayOfYear(ymd);
    assert u.year + 1900 == ymd.year && u.mon + 1 == ymd.month;
  }

  lemma DateFields(ymd: YearMonthDay, julian: int, seconds: int)
    ensures var u := Fields(ymd, julian, seconds);
            && u.year == ymd.year - 1900 && u.mon == ymd.month - 1 && u.mday == ymd.day
            && u.yday == julian - JulianDayNumber(ymd.year, 1, 1)
  {
  }

  /** tm_yday is the number of days since 1 January, except in the year -4800, whose 1 January lies
      before the range of the formula: there it is one too small. */
  lemma YearDayIsCount(t: int)
    requires InTimeRange(t)
    ensures var u := ToUtcTime(t);
            && (u.yday == YearDay(u) <==> u.year + 1900 > -4800)
            && (u.year + 1900 == -4800 ==> u.yday == YearDay(u) - 1)
  {
    var d := DateOfTime(t);
    DateFields(d, JulianOf(t), SecondsOf(t));
    YearDayOfDate(ToUtcTime(t), d);
  }

  lemma DateOfTime(t: int) returns (d: YearMonthDay)
    requires InTimeRange(t)
    ensures InRange(d) && Number(d) == JulianOf(t) && ToUtcTime(t) == Fields(d, JulianOf(t), SecondsOf(t))
  {
    DayAndSecondsAreFloor(t);
    ToYearMonthDayInverts(JulianOf(t));
    d := ToYearMonthDay(JulianOf(t));
    DayNumberSplits(d);
  }

  // The first year of the range, whose January and February the formula does not reach.
  lemma FirstYear(month: int)
    requires 3 <= month <= 12
    ensures JulianDayNumber(-4800, 1, 1) == -32103
    ensures DaysBefore(-4800, month) == 60 + DaysBeforeMonth(month - 3)
  {
    assert DaysBefore(-4800, 3) == 60 by {
      assert DaysBefore(-4800, 2) == 31;
    }
    if month > 3 {
      FirstYear(month - 1);
      MonthLength(-4800, month - 1);
    }
  }

  lemma NextDay(t: int)
    ensures JulianOf(t + SECONDS_PER_DAY) == JulianOf(t) + 1
  {
  }

  /** From one day to the next, the weekday advances by one mod 7; it is a legal value from the day
      number -1 on, and before that on Sundays only. */
  lemma WeekDayOfTime(t: int)
    ensures (ToUtcTime(t + SECONDS_PER_DAY).wday - ToUtcTime(t).wday - 1) % 7 == 0
    ensures 0 <= ToUtcTime(t).wday <= 6 <==> JulianOf(t) >= -1 || (JulianOf(t) + 1) % 7 == 0
  {
    NextDay(t);
    WeekDayAdvances(JulianOf(t));
    WeekDayIsLegal(JulianOf(t));
  }

  /** And it is the right one: 4, for Thursday, on 1970-01-01. */
  lemma WeekDaySinceEpoch(t: int)
    ensures (ToUtcTime(t).wday - 4 - (JulianOf(t) - JulianOf(0))) % 7 == 0
  {
    var j := JulianOf(t);
    WeekDayOfEveryDay(j);
    assert JulianOf(0) == JulianDayNumber(1970, 1, 1);
    assert ToUtcTime(t).wday == WeekDay(j);
  }
}
