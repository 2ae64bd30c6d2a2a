/**
 date.cc: closed-form conversions between Gregorian dates and Julian day numbers,
 against the calendar that counts one day after another.
 */
module Calendar {
  import opened Truncation

  datatype YearMonthDay = YearMonthDay(year: int, month: int, day: int)

  function JulianDayNumber(year: int, month: int, day: int): int {
    var a := Div(14 - month, 12);
    var y := year + 4800 - a;
    var m := month + 12 * a - 3;
    day + Div(153 * m + 2, 5) + y * 365 + Div(y, 4) - Div(y, 100) + Div(y, 400) - 32045
  }

  function ToYearMonthDay(julianDayNumber: int): YearMonthDay {
    var a := julianDayNumber + 32044;
    var b := Div(4 * a + 3, 146097);
    InCentury(b, a - Div(b * 146097, 4))
  }

  // The rest of the conversion, for day c of century b...
  function InCentury(b: int, c: int): YearMonthDay {
    var d := Div(4 * c + 3, 1461);
    InYear(b * 100 + d - 4800, c - Div(1461 * d, 4))
  }

  // ... and for day e of a year that begins in March.
  function InYear(year: int, e: int): YearMonthDay {
    var m := Div(5 * e + 2, 153);
    YearMonthDay(year + Div(m, 10), m + 3 - 12 * Div(m, 10), e - Div(153 * m + 2, 5) + 1)
  }

  function DayNumber(d: YearMonthDay): int {
    JulianDayNumber(d.year, d.month, d.day)
  }

  function WeekDay(julianDayNumber: int): int {
    Mod(julianDayNumber + 1, 7)
  }

  // ----- the simple calendar -----

  predicate IsLeapYear(year: int) {
    year % 400 == 0 || (year % 100 != 0 && year % 4 == 0)
  }

  function DaysOfMonth(year: int, month: int): int {
    if month == 2 then if IsLeapYear(year) then 29 else 28
    else if month in {4, 6, 9, 11} then 30
    else 31
  }

  predicate Valid(d: YearMonthDay) {
    1 <= d.month <= 12 && 1 <= d.day <= DaysOfMonth(d.year, d.month)
  }

  function Next(d: YearMonthDay): YearMonthDay {
    if d.day < DaysOfMonth(d.year, d.month) then d.(day := d.day + 1)
    else if d.month < 12 then YearMonthDay(d.year, d.month + 1, 1)
    else YearMonthDay(d.year + 1, 1, 1)
  }

  predicate Earlier(a: YearMonthDay, b: YearMonthDay) {
    a.year < b.year || (a.year == b.year && (a.month < b.month || (a.month == b.month && a.day < b.day)))
  }

  // Day 0 of the formulas.
  const EPOCH := YearMonthDay(-4800, 3, 1)

  predicate InRange(d: YearMonthDay) {
    Valid(d) && !Earlier(d, EPOCH)
  }

  // The n-th day after the epoch, counted day by day.
  function Counted(n: nat): YearMonthDay {
    if n == 0 then EPOCH else Next(Counted(n - 1))
  }

  // ----- the years and months of the formulas, which begin in March -----

  function YearOf(d: YearMonthDay): int { if d.month <= 2 then d.year + 4799 else d.year + 4800 }
  function MonthOf(d: YearMonthDay): int { if d.month <= 2 then d.month + 9 else d.month - 3 }

  // Days before March of year y, and before month m of a year.
  function DaysBeforeYear(y: int): int
    requires y >= 0
  {
    365 * y + y / 4 - y / 100 + y / 400
  }

  function DaysBeforeMonth(m: nat): int { (153 * m + 2) / 5 }

  // The formula without its truncating divisions, in whole years, months and days.
  function Number(d: YearMonthDay): int
    requires InRange(d)
  {
    DaysBeforeYear(YearOf(d)) + DaysBeforeMonth(MonthOf(d)) + d.day - 32045
  }

  lemma DayNumberSplits(d: YearMonthDay)
    requires InRange(d)
    ensures DayNumber(d) == Number(d)
  {
    assert Div(14 - d.month, 12) == if d.month <= 2 then 1 else 0;
    DivIsFloor(153 * MonthOf(d) + 2, 5);
    DivIsFloor(YearOf(d), 4);
    DivIsFloor(YearOf(d), 100);
    DivIsFloor(YearOf(d), 400);
  }

  lemma DivIsFloor(a: int, b: int)
    requires a >= 0 && b > 0
    ensures Div(a, b) == a / b
  {
  }

  lemma FloorOfNext4(y: int)
    ensures (y + 1) / 4 == y / 4 + if (y + 1) % 4 == 0 then 1 else 0
  {
  }

  lemma FloorOfNext100(y: int)
    ensures (y + 1) / 100 == y / 100 + if (y + 1) % 100 == 0 then 1 else 0
  {
  }

  lemma FloorOfNext400(y: int)
    ensures (y + 1) / 400 == y / 400 + if (y + 1) % 400 == 0 then 1 else 0
  {
  }

  // 4800 years are twelve whole cycles.
  lemma LeapYearsRepeat(y: int)
    ensures IsLeapYear(y - 4800) <==> IsLeapYear(y)
  {
    SameRemainder4(y);
    SameRemainder100(y);
    SameRemainder400(y);
  }

  lemma SameRemainder4(y: int)
    ensures (y - 4800) % 4 == y % 4
  {
    assert y - 4800 == 4 * (y / 4 - 1200) + y % 4;
  }

  lemma SameRemainder100(y: int)
    ensures (y - 4800) % 100 == y % 100
  {
    assert y - 4800 == 100 * (y / 100 - 48) + y % 100;
  }

  lemma SameRemainder400(y: int)
    ensures (y - 4800) % 400 == y % 400
  {
    assert y - 4800 == 400 * (y / 400 - 12) + y % 400;
  }

  lemma MultiplesNest(y: int)
    ensures y % 400 == 0 ==> y % 100 == 0
    ensures y % 100 == 0 ==> y % 4 == 0
  {
  }

  // A year begins 365 or 366 days after the one before, as its February says.
  lemma YearLength(y: int)
    requires y >= 0
    ensures DaysBeforeYear(y + 1) == DaysBeforeYear(y) + 365 + if IsLeapYear(y + 1 - 4800) then 1 else 0
  {
    FloorOfNext4(y);
    FloorOfNext100(y);
    FloorOfNext400(y);
    MultiplesNest(y + 1);
    LeapYearsRepeat(y + 1);
  }

  lemma MonthLength(year: int, month: int)
    requires 1 <= month <= 12 && month != 2
    ensures var m := MonthOf(YearMonthDay(year, month, 1));
            0 <= m < 11 && DaysBeforeMonth(m + 1) == DaysBeforeMonth(m) + DaysOfMonth(year, month)
  {
  }

  // In the formulas' terms, the next day is in the same month, or begins a month, or begins a year.
  lemma NextSplits(d: YearMonthDay)
    requires InRange(d)
    ensures var n := Next(d);
            && InRange(n)
            && if n.day == d.day + 1 then YearOf(n) == YearOf(d) && MonthOf(n) == MonthOf(d)
               else if d.month != 2 then
                 n.day == 1 && d.day == DaysOfMonth(d.year, d.month)
                 && YearOf(n) == YearOf(d) && MonthOf(n) == MonthOf(d) + 1
               else
                 n.day == 1 && d.day == (if IsLeapYear(YearOf(d) + 1 - 4800) then 29 else 28)
                 && YearOf(n) == YearOf(d) + 1 && MonthOf(n) == 0 && MonthOf(d) == 11
  {
  }

  lemma NumberOfNext(d: YearMonthDay)
    requires InRange(d)
    ensures InRange(Next(d)) && Number(Next(d)) == Number(d) + 1
  {
    NextSplits(d);
    if d.month != 2 {
      MonthLength(d.year, d.month);
    } else {
      YearLength(YearOf(d));
    }
  }

  /** The next day of the calendar has the next number. */
  lemma NextHasNextNumber(d: YearMonthDay)
    requires InRange(d)
    ensures InRange(Next(d)) && DayNumber(Next(d)) == DayNumber(d) + 1
  {
    NumberOfNext(d);
    DayNumberSplits(d);
    DayNumberSplits(Next(d));
  }

  lemma {:induction false} CountedHasItsNumber(n: nat)
    ensures InRange(Counted(n)) && DayNumber(Counted(n)) == n - 32044
  {
    if n > 0 {
      CountedHasItsNumber(n - 1);
      NextHasNextNumber(Counted(n - 1));
    }
  }

  // ----- ToYearMonthDay inverts DayNumber -----

  // Centuries: b counts them and c is the day within one.
  lemma Century(a: int)
    requires a >= 0
    ensures var b := (4 * a + 3) / 146097;
            var c := a - b * 146097 / 4;
            b >= 0 && 0 <= c <= 36524 && b * 146097 / 4 == 36524 * b + b / 4
            && (c == 36524 ==> b % 4 == 3)
  {
  }

  // Years: d counts them within a century and e is the day within one.
  lemma YearInCentury(c: int)
    requires 0 <= c <= 36524
    ensures var d := (4 * c + 3) / 1461;
            var e := c - 1461 * d / 4;
            0 <= d <= 99 && 0 <= e <= 365 && 1461 * d / 4 == 365 * d + d / 4
            && (e == 365 ==> d % 4 == 3)
            && (c < 36524 && d == 99 ==> e < 365)
  {
  }

  lemma MonthInYear(e: int)
    requires 0 <= e <= 365
    ensures var m := (5 * e + 2) / 153;
            0 <= m <= 11 && DaysBeforeMonth(m) <= e && (m < 11 ==> e < DaysBeforeMonth(m + 1))
  {
  }

  lemma YearsOfCenturies(b: int, d: int)
    requires b >= 0 && 0 <= d <= 99
    ensures DaysBeforeYear(100 * b + d) == 36524 * b + b / 4 + 365 * d + d / 4
  {
    var y := 100 * b + d;
    assert y / 100 == b;
    assert y / 4 == 25 * b + d / 4;
    assert y / 400 == b / 4;
  }

  // The same steps without truncation: nothing is negative.
  lemma CenturySteps(j: int, b: int, c: int)
    requires j >= -32044 && b >= 0
    requires b == (4 * (j + 32044) + 3) / 146097 && c == j + 32044 - b * 146097 / 4
    ensures ToYearMonthDay(j) == InCentury(b, c)
  {
    DivIsFloor(4 * (j + 32044) + 3, 146097);
    DivIsFloor(b * 146097, 4);
  }

  lemma YearSteps(b: int, c: int, d: int, e: int)
    requires c >= 0 && d == (4 * c + 3) / 1461 && e == c - 1461 * d / 4 && d >= 0
    ensures InCentury(b, c) == InYear(b * 100 + d - 4800, e)
  {
    DivIsFloor(4 * c + 3, 1461);
    DivIsFloor(1461 * d, 4);
  }

  lemma MonthSteps(year: int, e: int, m: int)
    requires e >= 0 && m == (5 * e + 2) / 153 && 0 <= m <= 11
    ensures InYear(year, e) == YearMonthDay(year + m / 10, m + 3 - 12 * (m / 10), e - DaysBeforeMonth(m) + 1)
  {
    DivIsFloor(5 * e + 2, 153);
    DivIsFloor(153 * m + 2, 5);
    DivIsFloor(m, 10);
  }

  // A day of a year counted from March is a date of the simple calendar.
  lemma DateInYear(y: int, m: int, e: int)
    requires y >= 0 && 0 <= m <= 11 && 0 <= e <= 365
    requires DaysBeforeMonth(m) <= e && (m < 11 ==> e < DaysBeforeMonth(m + 1))
    requires e == 365 ==> IsLeapYear(y + 1 - 4800)
    ensures var ymd := YearMonthDay(y - 4800 + m / 10, m + 3 - 12 * (m / 10), e - DaysBeforeMonth(m) + 1);
            InRange(ymd) && YearOf(ymd) == y && MonthOf(ymd) == m
  {
  }

  // The year counted from March, the month in it and the day in it, of a day number.
  lemma YearMonthAndDay(j: int) returns (y: int, m: int, e: int)
    requires j >= -32044
    ensures y >= 0 && 0 <= m <= 11 && 0 <= e <= 365 && DaysBeforeYear(y) + e == j + 32044
    ensures DaysBeforeMonth(m) <= e && (m < 11 ==> e < DaysBeforeMonth(m + 1))
    ensures e == 365 ==> IsLeapYear(y + 1 - 4800)
    ensures ToYearMonthDay(j) == YearMonthDay(y - 4800 + m / 10, m + 3 - 12 * (m / 10), e - DaysBeforeMonth(m) + 1)
  {
    var a := j + 32044;
    Century(a);
    var b := (4 * a + 3) / 146097;
    var c := a - b * 146097 / 4;
    CenturySteps(j, b, c);
    y, m, e := InCenturyIs(b, c);
  }

  // The same for a day of a century.
  lemma InCenturyIs(b: int, c: int) returns (y: int, m: int, e: int)
    requires b >= 0 && 0 <= c <= 36524 && (c == 36524 ==> b % 4 == 3)
    ensures y >= 0 && 0 <= m <= 11 && 0 <= e <= 365 && DaysBeforeYear(y) + e == 36524 * b + b / 4 + c
    ensures DaysBeforeMonth(m) <= e && (m < 11 ==> e < DaysBeforeMonth(m + 1))
    ensures e == 365 ==> IsLeapYear(y + 1 - 4800)
    ensures InCentury(b, c) == YearMonthDay(y - 4800 + m / 10, m + 3 - 12 * (m / 10), e - DaysBeforeMonth(m) + 1)
  {
    YearInCentury(c);
    var d := (4 * c + 3) / 1461;
    e := c - 1461 * d / 4;
    MonthInYear(e);
    m := (5 * e + 2) / 153;
    y := 100 * b + d;
    YearsOfCenturies(b, d);
    YearSteps(b, c, d, e);
    MonthSteps(y - 4800, e, m);
    if e == 365 {
      LeapDay(b, d, c);
    }
  }

  lemma ToYearMonthDayInverts(j: int)
    requires j >= -32044
    ensures InRange(ToYearMonthDay(j)) && DayNumber(ToYearMonthDay(j)) == j
  {
    var y, m, e := YearMonthAndDay(j);
    DateInYear(y, m, e);
    DayNumberSplits(YearMonthDay(y - 4800 + m / 10, m + 3 - 12 * (m / 10), e - DaysBeforeMonth(m) + 1));
  }

  // The 366th day of a year counted from March is a 29 February.
  lemma LeapDay(b: int, d: int, c: int)
    requires b >= 0 && 0 <= d <= 99 && d % 4 == 3 && 0 <= c <= 36524
    requires c == 36524 ==> b % 4 == 3
    requires c < 36524 ==> d != 99
    ensures IsLeapYear(100 * b + d + 1 - 4800)
  {
    var y := 100 * b + d + 1;
    LeapYearsRepeat(y);
    if d == 99 {
      CenturyLeap(b);
    } else {
      MultipleOf4Only(y, b, d + 1);
    }
  }

  lemma CenturyLeap(b: int)
    requires b % 4 == 3
    ensures IsLeapYear(100 * b + 100)
  {
    assert 100 * b + 100 == 400 * (b / 4 + 1);
  }

  lemma MultipleOf4Only(y: int, b: int, r: int)
    requires y == 100 * b + r && 0 < r < 100 && r % 4 == 0
    ensures IsLeapYear(y)
  {
    RemainderOf100(y, b, r);
    RemainderOf4(y, 25 * b + r / 4);
  }

  lemma RemainderOf100(y: int, b: int, r: int)
    requires y == 100 * b + r && 0 <= r < 100
    ensures y % 100 == r
  {
  }

  lemma RemainderOf4(y: int, k: int)
    requires y == 4 * k
    ensures y % 4 == 0
  {
  }

  // ----- order -----

  // Every earlier date has a smaller number: there is at least one day between them.
  lemma {:induction false} DaysBeforeYearGrows(y: int, z: int)
    requires 0 <= y < z
    ensures DaysBeforeYear(y) + 365 <= DaysBeforeYear(y + 1) <= DaysBeforeYear(z)
    decreases z - y
  {
    YearLength(y);
    if y + 1 < z {
      DaysBeforeYearGrows(y + 1, z);
    }
  }

  // A date lies before the next month of its year, and before the next year.
  lemma DayWithinMonthAndYear(d: YearMonthDay)
    requires InRange(d)
    ensures MonthOf(d) < 11 ==> DaysBeforeMonth(MonthOf(d)) + d.day <= DaysBeforeMonth(MonthOf(d) + 1)
    ensures DaysBeforeYear(YearOf(d)) + DaysBeforeMonth(MonthOf(d)) + d.day <= DaysBeforeYear(YearOf(d) + 1)
  {
    YearLength(YearOf(d));
    if d.month != 2 {
      MonthLength(d.year, d.month);
    }
  }

  lemma EarlierSplits(a: YearMonthDay, b: YearMonthDay)
    requires InRange(a) && InRange(b) && Earlier(a, b)
    ensures YearOf(a) < YearOf(b) || (YearOf(a) == YearOf(b) &&
              (MonthOf(a) < MonthOf(b) || (MonthOf(a) == MonthOf(b) && a.day < b.day)))
  {
  }

  lemma EarlierHasSmallerNumber(a: YearMonthDay, b: YearMonthDay)
    requires InRange(a) && InRange(b) && Earlier(a, b)
    ensures Number(a) < Number(b)
  {
    EarlierSplits(a, b);
    DayWithinMonthAndYear(a);
    assert b.day >= 1;
    if YearOf(a) < YearOf(b) {
      DaysBeforeYearGrows(YearOf(a), YearOf(b));
    }
  }

  /** The order of the numbers is the order of the dates. */
  lemma NumberOrderIsDateOrder(a: YearMonthDay, b: YearMonthDay)
    requires InRange(a) && InRange(b)
    ensures DayNumber(a) < DayNumber(b) <==> Earlier(a, b)
  {
    DayNumberSplits(a);
    DayNumberSplits(b);
    if Earlier(a, b) {
      EarlierHasSmallerNumber(a, b);
    } else if a != b {
      EarlierHasSmallerNumber(b, a);
    }
  }

  lemma NumberIsInjective(a: YearMonthDay, b: YearMonthDay)
    requires InRange(a) && InRange(b) && DayNumber(a) == DayNumber(b)
    ensures a == b
  {
    NumberOrderIsDateOrder(a, b);
    NumberOrderIsDateOrder(b, a);
  }

  lemma EpochIsFirst(d: YearMonthDay)
    requires InRange(d)
    ensures DayNumber(d) >= -32044
  {
    if d != EPOCH {
      NumberOrderIsDateOrder(EPOCH, d);
    }
    assert DayNumber(EPOCH) == -32044;
  }

  /** The two conversions are inverse to each other. */
  lemma DayNumberInverts(d: YearMonthDay)
    requires InRange(d)
    ensures DayNumber(d) >= -32044 && ToYearMonthDay(DayNumber(d)) == d
  {
    EpochIsFirst(d);
    ToYearMonthDayInverts(DayNumber(d));
    NumberIsInjective(d, ToYearMonthDay(DayNumber(d)));
  }

  /** The closed form gives the n-th day of the calendar that counts day by day. */
  lemma ClosedFormCounts(n: nat)
    ensures ToYearMonthDay(n - 32044) == Counted(n)
  {
    CountedHasItsNumber(n);
    DayNumberInverts(Counted(n));
  }

  lemma WeekDayAdvances(j: int)
    ensures (WeekDay(j + 1) - WeekDay(j) - 1) % 7 == 0
  {
    MultipleOf7(Div(j + 1, 7) - Div(j + 2, 7), WeekDay(j + 1) - WeekDay(j) - 1);
  }

  lemma MultipleOf7(k: int, x: int)
    requires x == 7 * k
    ensures x % 7 == 0
  {
  }

  /** 1970-01-01 was a Thursday, and with it the weekday of every day is known. */
  lemma WeekDayOfEveryDay(j: int)
    ensures WeekDay(JulianDayNumber(1970, 1, 1)) == 4
    ensures (WeekDay(j) - 4 - (j - JulianDayNumber(1970, 1, 1))) % 7 == 0
    ensures j >= -1 ==> WeekDay(j) == (4 + (j - JulianDayNumber(1970, 1, 1))) % 7
  {
    assert JulianDayNumber(1970, 1, 1) == 2440588;
    MultipleOf7(-Div(j + 1, 7) + 348655, WeekDay(j) - 4 - (j - 2440588));
  }

  /** The weekday is one of 0..6 exactly from day number -1 on, or on a Sunday before it: the
      remainder of a negative number is negative. */
  lemma WeekDayIsLegal(j: int)
    ensures 0 <= WeekDay(j) <= 6 <==> j >= -1 || (j + 1) % 7 == 0
  {
  }

  /** The intermediate values of ToYearMonthDay fit a 32-bit int exactly up to this day. */
  lemma FitsInt32(j: int)
    requires j >= -32044
    ensures var a := j + 32044;
            var b := Div(4 * a + 3, 146097);
            (4 * a + 3 <= 0x7FFF_FFFF && b * 146097 <= 0x7FFF_FFFF) <==> j <= 536838867
  {
  }

  /** Every partial sum of getJulianDayNumber fits a 32-bit int for all dates up to that day. */
  lemma DateFitsInt32(d: YearMonthDay)
    requires InRange(d) && DayNumber(d) <= 536838867
    ensures var y, m := YearOf(d), MonthOf(d);
            && 0 <= 153 * m + 2 <= 0x7FFF_FFFF && 0 <= y * 365 <= 0x7FFF_FFFF
            && d.day + DaysBeforeMonth(m) + y * 365 + y / 4 <= 0x7FFF_FFFF
  {
    DayNumberSplits(d);
    YearBound(YearOf(d));
  }

  lemma YearBound(y: int)
    requires y >= 0 && DaysBeforeYear(y) <= 536_870_911
    ensures y <= 1_470_879
  {
    assert y / 4 >= y / 100;
  }
}
