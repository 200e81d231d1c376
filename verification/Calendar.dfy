/** Dates of the proleptic Gregorian calendar and Julian day numbers. */
module Calendar {
  import opened Truncation

  // ---------- the two conversions ----------

  datatype YearMonthDay = YearMonthDay(year: int, month: int, day: int)

  function JulianDay(year: int, month: int, day: int): int {
    var a := Quot(14 - month, 12);
    var y := year + 4800 - a;
    var m := month + 12 * a - 3;
    day + Quot(153 * m + 2, 5) + y * 365 + Quot(y, 4) - Quot(y, 100) + Quot(y, 400) - 32045
  }

  function DateOf(julianDay: int): YearMonthDay {
    var a := julianDay + 32044;
    var b := Quot(4 * a + 3, 146097);
    var c := a - Quot(b * 146097, 4);
    var d := Quot(4 * c + 3, 1461);
    var e := c - Quot(1461 * d, 4);
    var m := Quot(5 * e + 2, 153);
    YearMonthDay(b * 100 + d - 4800 + Quot(m, 10), m + 3 - 12 * Quot(m, 10), e - Quot(153 * m + 2, 5) + 1)
  }

  function WeekDay(julianDay: int): int { Rem(julianDay + 1, 7) }

  // ---------- the calendar ----------

  predicate IsLeap(year: int) { year % 4 == 0 && (year % 100 != 0 || year % 400 == 0) }

  function DaysInMonth(year: int, month: int): int {
    if month == 2 then (if IsLeap(year) then 29 else 28)
    else if month == 4 || month == 6 || month == 9 || month == 11 then 30 else 31
  }

  predicate IsDate(ymd: YearMonthDay) {
    1 <= ymd.month <= 12 && 1 <= ymd.day <= DaysInMonth(ymd.year, ymd.month)
  }

  /** The conversions are meant for dates from 1 March of the year -4800. */
  predicate InEra(ymd: YearMonthDay) {
    IsDate(ymd) && (ymd.year > -4800 || (ymd.year == -4800 && ymd.month >= 3))
  }

  /** The next day. */
  function Tomorrow(ymd: YearMonthDay): YearMonthDay {
    if ymd.day < DaysInMonth(ymd.year, ymd.month) then ymd.(day := ymd.day + 1)
    else if ymd.month < 12 then YearMonthDay(ymd.year, ymd.month + 1, 1)
    else YearMonthDay(ymd.year + 1, 1, 1)
  }

  const FIRST_JULIAN_DAY := -32044

  // ---------- years that start in March ----------

  /** Days before month m of a year that starts in March. */
  function MonthStart(m: nat): nat { (153 * m + 2) / 5 }

  /** Days before year y, counted from the March of year 0 of the shifted era. */
  function YearStart(y: nat): nat { 365 * y + y / 4 - y / 100 + y / 400 }

  /** The shifted year y, month m (0 is March) and day k (0 is the first) of a date. */
  function ShiftedYear(ymd: YearMonthDay): int { if ymd.month <= 2 then ymd.year + 4799 else ymd.year + 4800 }
  function ShiftedMonth(ymd: YearMonthDay): int { if ymd.month <= 2 then ymd.month + 9 else ymd.month - 3 }

  lemma JulianDayShifted(ymd: YearMonthDay)
    requires InEra(ymd)
    ensures ShiftedYear(ymd) >= 0 && 0 <= ShiftedMonth(ymd) <= 11
    ensures JulianDay(ymd.year, ymd.month, ymd.day) ==
      YearStart(ShiftedYear(ymd)) + MonthStart(ShiftedMonth(ymd)) + ymd.day - 1 + FIRST_JULIAN_DAY
  {
    assert Quot(14 - ymd.month, 12) == if ymd.month <= 2 then 1 else 0;
  }

  /** Whether the February that ends shifted year y has 29 days. */
  predicate LongYear(y: nat) { IsLeap(y + 1) }

  function MonthLength(y: nat, m: nat): nat {
    if m == 11 then (if LongYear(y) then 29 else 28)
    else if m == 1 || m == 3 || m == 6 || m == 8 then 30 else 31
  }

  lemma LeapShift(year: int)
    ensures IsLeap(year + 4800) == IsLeap(year)
  {
    Shift4(year);
    Shift100(year);
    Shift400(year);
  }

  lemma Shift4(x: int)
    ensures (x + 4800) % 4 == x % 4
  {
  }

  lemma Shift100(x: int)
    ensures (x + 4800) % 100 == x % 100
  {
  }

  lemma Shift400(x: int)
    ensures (x + 4800) % 400 == x % 400
  {
  }

  lemma MonthLengths(ymd: YearMonthDay)
    requires InEra(ymd)
    ensures ShiftedYear(ymd) >= 0 && ShiftedMonth(ymd) >= 0
    ensures DaysInMonth(ymd.year, ymd.month) == MonthLength(ShiftedYear(ymd), ShiftedMonth(ymd))
  {
    LeapShift(ymd.year);
  }

  lemma MonthStarts(y: nat, m: nat)
    requires m <= 10
    ensures MonthStart(m + 1) == MonthStart(m) + MonthLength(y, m)
  {
  }

  lemma YearStarts(y: nat)
    ensures YearStart(y + 1) == YearStart(y) + if LongYear(y) then 366 else 365
  {
    StepDiv(y, 4);
    StepDiv(y, 100);
    StepDiv(y, 400);
  }

  lemma StepDiv(y: nat, n: nat)
    requires n == 4 || n == 100 || n == 400
    ensures (y + 1) / n == y / n + if (y + 1) % n == 0 then 1 else 0
  {
  }

  // ---------- taking the day count apart ----------

  /** A day of the year falls in the month the division finds. */
  lemma FindMonth(m: nat, k: nat)
    requires m <= 11 && k < (if m == 11 then 29 else MonthLength(0, m))
    ensures (5 * (MonthStart(m) + k) + 2) / 153 == m
  {
  }

  /** Years of a century. */
  lemma FindYear(d: nat, e: nat)
    requires e <= 365 && (e == 365 ==> d % 4 == 3)
    ensures 365 * d + d / 4 == 1461 * d / 4
    ensures (4 * (1461 * d / 4 + e) + 3) / 1461 == d
  {
    var q, s := d / 4, d % 4;
    assert d == 4 * q + s;
    assert 1461 * d / 4 == 1461 * q + 365 * s;
  }

  /** Centuries. c counts the days of the century. */
  lemma FindCentury(b: nat, c: nat)
    requires c <= 36524 && (c == 36524 ==> b % 4 == 3)
    ensures 36524 * b + b / 4 == 146097 * b / 4
    ensures (4 * (146097 * b / 4 + c) + 3) / 146097 == b
  {
    var q, s := b / 4, b % 4;
    assert b == 4 * q + s;
    assert 146097 * b / 4 == 146097 * q + 36524 * s;
  }

  lemma CenturyYears(b: nat, d: nat)
    requires d < 100
    ensures YearStart(100 * b + d) == 146097 * b / 4 + 1461 * d / 4
    ensures LongYear(100 * b + d) <==> d % 4 == 3 && (d == 99 ==> b % 4 == 3)
  {
    CenturyParts(b, d);
    CenturyLeap(b, d);
    var q, s := b / 4, b % 4;
    assert b == 4 * q + s;
    assert 146097 * b / 4 == 146097 * q + 36524 * s;
    var u, w := d / 4, d % 4;
    assert d == 4 * u + w;
    assert 1461 * d / 4 == 1461 * u + 365 * w;
  }

  lemma CenturyParts(b: nat, d: nat)
    requires d < 100
    ensures (100 * b + d) / 4 == 25 * b + d / 4 && (100 * b + d) / 100 == b && (100 * b + d) / 400 == b / 4
  {
    assert b == 4 * (b / 4) + b % 4;
  }

  lemma CenturyLeap(b: nat, d: nat)
    requires d < 100
    ensures LongYear(100 * b + d) <==> d % 4 == 3 && (d == 99 ==> b % 4 == 3)
  {
    var y := 100 * b + d + 1;
    var q, s := b / 4, b % 4;
    assert b == 4 * q + s;
    if d < 99 {
      WithRest(100, b, d + 1);
      WithRest(4, 25 * b + (d + 1) / 4, (d + 1) % 4);
      assert y == 100 * b + (d + 1) == 4 * (25 * b + (d + 1) / 4) + (d + 1) % 4;
    } else {
      WithRest(100, b + 1, 0);
      WithRest(4, 25 * (b + 1), 0);
      assert y == 100 * (b + 1) + 0 == 4 * (25 * (b + 1)) + 0;
      if s == 3 {
        WithRest(400, q + 1, 0);
        assert y == 400 * (q + 1) + 0;
      } else {
        WithRest(400, q, 100 * (s + 1));
        assert y == 400 * q + 100 * (s + 1);
      }
    }
  }

  lemma WithRest(n: nat, k: nat, r: nat)
    requires (n == 4 || n == 100 || n == 400) && r < n
    ensures (n * k + r) % n == r
  {
  }

  lemma DayOfYearBound(y: nat, m: nat, k: nat)
    requires m <= 11 && k < MonthLength(y, m)
    ensures MonthStart(m) + k <= 365 && (MonthStart(m) + k == 365 ==> LongYear(y))
  {
  }

  lemma DateOfIs(a: nat, b: nat, c: nat, d: nat, e: nat, m: nat)
    requires b == (4 * a + 3) / 146097 && c == a - 146097 * b / 4
    requires d == (4 * c + 3) / 1461 && e == c - 1461 * d / 4 && m == (5 * e + 2) / 153
    ensures DateOf(a + FIRST_JULIAN_DAY) ==
      YearMonthDay(b * 100 + d - 4800 + m / 10, m + 3 - 12 * (m / 10), e - MonthStart(m) + 1)
  {
    hide Quot;
    QuotNat(4 * a + 3, 146097);
    assert b * 146097 == 146097 * b;
    QuotNat(b * 146097, 4);
    QuotNat(4 * c + 3, 1461);
    QuotNat(1461 * d, 4);
    QuotNat(5 * e + 2, 153);
    QuotNat(153 * m + 2, 5);
    QuotNat(m, 10);
  }

  /** What the divisions of DateOf find, from the shifted year, month and day. */
  lemma TakeApart(y: nat, m: nat, k: nat)
    requires m <= 11 && k < MonthLength(y, m)
    ensures DateOf(YearStart(y) + MonthStart(m) + k + FIRST_JULIAN_DAY) ==
      YearMonthDay(y - 4800 + m / 10, m + 3 - 12 * (m / 10), k + 1)
  {
    hide LongYear, YearStart, MonthStart, MonthLength, DateOf, Quot;
    var b, d, e := y / 100, y % 100, MonthStart(m) + k;
    assert y == 100 * b + d;
    CenturyYears(b, d);
    DayOfYearBound(y, m, k);
    FindYear(d, e);
    var c := 1461 * d / 4 + e;
    FindCentury(b, c);
    FindMonthOf(y, m, k);
    DateOfIs(146097 * b / 4 + c, b, c, d, e, m);
  }

  lemma FindMonthOf(y: nat, m: nat, k: nat)
    requires m <= 11 && k < MonthLength(y, m)
    ensures (5 * (MonthStart(m) + k) + 2) / 153 == m
  {
    FindMonth(m, k);
  }

  // ---------- the bijection ----------

  /** A date survives the trip through its Julian day number. */
  lemma DateOfJulianDay(ymd: YearMonthDay)
    requires InEra(ymd)
    ensures JulianDay(ymd.year, ymd.month, ymd.day) >= FIRST_JULIAN_DAY
    ensures DateOf(JulianDay(ymd.year, ymd.month, ymd.day)) == ymd
  {
    hide JulianDay, DateOf, MonthLength, DaysInMonth, YearStart, MonthStart;
    JulianDayShifted(ymd);
    MonthLengths(ymd);
    TakeApart(ShiftedYear(ymd), ShiftedMonth(ymd), ymd.day - 1);
  }

  /** Tomorrow's Julian day number is the next integer. */
  lemma TomorrowIsNext(ymd: YearMonthDay)
    requires InEra(ymd)
    ensures
      var next := Tomorrow(ymd);
      InEra(next) && JulianDay(next.year, next.month, next.day) == JulianDay(ymd.year, ymd.month, ymd.day) + 1
  {
    hide JulianDay, YearStart, MonthStart;
    var next := Tomorrow(ymd);
    MonthLengths(ymd);
    JulianDayShifted(ymd);
    JulianDayShifted(next);
    FirstMonth();
    if ymd.day == DaysInMonth(ymd.year, ymd.month) {
      if ymd.month == 2 {
        YearStarts(ShiftedYear(ymd));
      } else {
        MonthStarts(ShiftedYear(ymd), ShiftedMonth(ymd));
      }
    }
  }

  lemma FirstMonth()
    ensures MonthStart(0) == 0 && MonthStart(11) == 337
  {
  }

  lemma FirstDay()
    ensures InEra(DateOf(FIRST_JULIAN_DAY)) && DateOf(FIRST_JULIAN_DAY) == YearMonthDay(-4800, 3, 1)
    ensures JulianDay(-4800, 3, 1) == FIRST_JULIAN_DAY
  {
    hide DateOf, JulianDay;
    FirstMonth();
    TakeApart(0, 0, 0);
    JulianDayShifted(YearMonthDay(-4800, 3, 1));
  }

  /** Every integer from the first is the Julian day number of the date it converts to. */
  lemma {:induction false} JulianDayOfDate(j: int)
    requires j >= FIRST_JULIAN_DAY
    ensures InEra(DateOf(j)) && JulianDay(DateOf(j).year, DateOf(j).month, DateOf(j).day) == j
    decreases j - FIRST_JULIAN_DAY
  {
    hide Tomorrow, InEra, JulianDay, DateOf;
    if j == FIRST_JULIAN_DAY {
      FirstDay();
    } else {
      JulianDayOfDate(j - 1);
      TomorrowIsNext(DateOf(j - 1));
      DateOfJulianDay(Tomorrow(DateOf(j - 1)));
    }
  }

  /** The weekday is one of 0 to 6 exactly for the days from -1 on, and for the Sundays before. */
  lemma WeekDayInRange(j: int)
    ensures 0 <= WeekDay(j) <= 6 <==> j >= -1 || (j + 1) % 7 == 0
    ensures j >= -1 ==> WeekDay(j + 1) == if WeekDay(j) == 6 then 0 else WeekDay(j) + 1
  {
  }

  /** From the day -1 on the weekdays count on from 1 January 1970, which was a Thursday. */
  lemma WeekDayCounts(j: int)
    requires j >= -1
    ensures WeekDay(j) == (4 + (j - JulianDay(1970, 1, 1))) % 7
  {
    assert JulianDay(1970, 1, 1) == 2440588;
    hide JulianDay;
    assert WeekDay(j) == (j + 1) % 7;
    hide WeekDay;
    WholeWeeks(j - 2440584, 348655);
  }

  lemma WholeWeeks(x: int, weeks: int)
    ensures (x + 7 * weeks) % 7 == x % 7
  {
  }

  // ---------- the day of the year ----------

  /** The days of a year before a month. */
  function DaysBefore(year: int, month: int): int
    decreases month
  {
    if month <= 1 then 0 else DaysBefore(year, month - 1) + DaysInMonth(year, month - 1)
  }

  /** A date's Julian day number counts the days of its year from 1 January. */
  lemma {:induction false} DaysInYear(ymd: YearMonthDay)
    requires InEra(ymd) && ymd.year > -4800
    ensures JulianDay(ymd.year, ymd.month, ymd.day) ==
      JulianDay(ymd.year, 1, 1) + DaysBefore(ymd.year, ymd.month) + ymd.day - 1
    decreases ymd.month
  {
    hide JulianDay;
    SameMonth(ymd);
    if ymd.month > 1 {
      var last := YearMonthDay(ymd.year, ymd.month - 1, DaysInMonth(ymd.year, ymd.month - 1));
      TomorrowIsNext(last);
      DaysInYear(last);
    }
  }

  lemma SameMonth(ymd: YearMonthDay)
    ensures JulianDay(ymd.year, ymd.month, ymd.day) == JulianDay(ymd.year, ymd.month, 1) + ymd.day - 1
  {
  }
}
