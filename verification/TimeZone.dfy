/** UTC and local broken-down time. */
module TimeZone {
  import opened Truncation
  import opened Calendar

  datatype Tm = Tm(sec: int, min: int, hour: int, mday: int, mon: int, year: int,
                   wday: int, yday: int, isDst: bool, gmtOff: int)

  const SECONDS_PER_DAY := 86400
  const EPOCH_DAY := 2440588

  // ---------- 32-bit conversions ----------

  predicate IsInt32(x: int) { -0x8000_0000 <= x < 0x8000_0000 }

  /** static_cast<int> of a 64-bit value. */
  function Int32(x: int): (r: int)
    ensures IsInt32(r) && (IsInt32(x) ==> r == x)
  {
    (x + 0x8000_0000) % 0x1_0000_0000 - 0x8000_0000
  }

  // ---------- UTC ----------

  function HmsInto(seconds: nat, utc: Tm): Tm {
    utc.(sec := seconds % 60, min := seconds / 60 % 60, hour := seconds / 60 / 60)
  }

  /** Hours, minutes below 60 and seconds below 60 that make up the given seconds; nothing else changes. */
  method FillHMS(seconds: nat, utc: Tm) returns (r: Tm)
    ensures r.hour * 3600 + r.min * 60 + r.sec == seconds
    ensures 0 <= r.min < 60 && 0 <= r.sec < 60 && r == utc.(hour := r.hour, min := r.min, sec := r.sec)
  {
    r := utc.(sec := seconds % 60);
    var minutes := seconds / 60;
    r := r.(min := minutes % 60);
    r := r.(hour := minutes / 60);
  }

  /** No other hours, minutes and seconds do. */
  lemma HmsOnly(seconds: nat, utc: Tm, r: Tm)
    requires r.hour * 3600 + r.min * 60 + r.sec == seconds && 0 <= r.min < 60 && 0 <= r.sec < 60
    requires r == utc.(hour := r.hour, min := r.min, sec := r.sec)
    ensures r == HmsInto(seconds, utc)
  {
    assert seconds / 60 == r.hour * 60 + r.min;
  }

  /** Day since the epoch and second of the day, by floor division. */
  function DayOf(t: int): int { t / SECONDS_PER_DAY }
  function SecondOf(t: int): (s: nat)
    ensures s < SECONDS_PER_DAY
  {
    t % SECONDS_PER_DAY
  }

  /** What toUtcTime fills in for a second of a day and a day since the epoch. */
  function UtcTm(day: int, second: nat, yday: bool): Tm {
    var julian := day + EPOCH_DAY;
    var ymd := DateOf(julian);
    HmsInto(second, Tm(0, 0, 0, ymd.day, ymd.month - 1, ymd.year - 1900, WeekDay(julian),
                       if yday then julian - JulianDay(ymd.year, 1, 1) else 0, false, 0))
  }

  /** The days for which no int of the computation overflows. */
  predicate DayInRange(day: int) {
    FIRST_JULIAN_DAY <= day + EPOCH_DAY && 4 * (day + EPOCH_DAY - FIRST_JULIAN_DAY) + 3 < 0x8000_0000
  }

  predicate InRange(t: int) { DayInRange(DayOf(t)) }

  method ToUtcTime(t: int, yday: bool) returns (utc: Tm)
    requires InRange(t)
    ensures utc == UtcTm(DayOf(t), SecondOf(t), yday)
  {
    hide DateOf, JulianDay, Quot, Rem, Int32, DayOf, SecondOf, WeekDay;
    utc := Tm(0, 0, 0, 0, 0, 0, 0, 0, false, 0);
    var seconds := Int32(Rem(t, SECONDS_PER_DAY));
    var days := Int32(Quot(t, SECONDS_PER_DAY));
    FloorFromTruncation(t);
    if seconds < 0 {
      seconds := seconds + SECONDS_PER_DAY;
      days := days - 1;
    }
    ghost var empty := utc;
    utc := FillHMS(seconds, utc);
    HmsOnly(seconds, empty, utc);
    var julian := days + EPOCH_DAY;
    var ymd := DateOf(julian);
    utc := utc.(year := ymd.year - 1900);
    utc := utc.(mon := ymd.month - 1);
    utc := utc.(mday := ymd.day);
    utc := utc.(wday := WeekDay(julian));
    if yday {
      utc := utc.(yday := julian - JulianDay(ymd.year, 1, 1));
    }
  }

  /** The correction for negative remainders turns truncating division into floor division. */
  lemma FloorFromTruncation(t: int)
    ensures
      var s, d := Rem(t, SECONDS_PER_DAY), Quot(t, SECONDS_PER_DAY);
      if s < 0 then DayOf(t) == d - 1 && SecondOf(t) == s + SECONDS_PER_DAY else DayOf(t) == d && SecondOf(t) == s
    ensures InRange(t) ==> IsInt32(Quot(t, SECONDS_PER_DAY)) && IsInt32(Rem(t, SECONDS_PER_DAY))
  {
  }

  function FromUtc(year: int, month: int, day: int, hour: int, minute: int, second: int): int {
    (JulianDay(year, month, day) - EPOCH_DAY) * SECONDS_PER_DAY + (hour * 3600 + minute * 60 + second)
  }

  /** The epoch is second 0. */
  lemma EpochIsZero()
    ensures EPOCH_DAY == JulianDay(1970, 1, 1) && FromUtc(1970, 1, 1, 0, 0, 0) == 0
  {
  }

  function FromUtcTm(utc: Tm): int {
    FromUtc(utc.year + 1900, utc.mon + 1, utc.mday, utc.hour, utc.min, utc.sec)
  }

  /** Clock and date fields within their usual bounds. */
  predicate FieldsOk(utc: Tm) {
    && 0 <= utc.sec < 60 && 0 <= utc.min < 60 && 0 <= utc.hour < 24
    && IsDate(YearMonthDay(utc.year + 1900, utc.mon + 1, utc.mday))
  }

  /** Converting a time to UTC fields and back gives the time, and the fields are in bounds. */
  lemma FromToUtc(t: int, yday: bool)
    requires DayOf(t) + EPOCH_DAY >= FIRST_JULIAN_DAY
    ensures FieldsOk(UtcTm(DayOf(t), SecondOf(t), yday))
    ensures FromUtcTm(UtcTm(DayOf(t), SecondOf(t), yday)) == t
  {
    hide DateOf, JulianDay;
    JulianDayOfDate(DayOf(t) + EPOCH_DAY);
  }

  /** And the other way round: valid fields survive the trip through the time they name. */
  lemma ToFromUtc(utc: Tm, yday: bool)
    requires FieldsOk(utc) && InEra(YearMonthDay(utc.year + 1900, utc.mon + 1, utc.mday))
    ensures
      var t := FromUtcTm(utc);
      var r := UtcTm(DayOf(t), SecondOf(t), yday);
      r == utc.(wday := r.wday, yday := r.yday, isDst := false, gmtOff := 0)
  {
    hide DateOf, JulianDay;
    DateOfJulianDay(YearMonthDay(utc.year + 1900, utc.mon + 1, utc.mday));
    Hms(utc.hour, utc.min, utc.sec);
    var s := utc.hour * 3600 + utc.min * 60 + utc.sec;
    var d := JulianDay(utc.year + 1900, utc.mon + 1, utc.mday) - EPOCH_DAY;
    assert DayOf(d * SECONDS_PER_DAY + s) == d && SecondOf(d * SECONDS_PER_DAY + s) == s;
  }

  lemma Hms(hour: int, min: int, sec: int)
    requires 0 <= hour < 24 && 0 <= min < 60 && 0 <= sec < 60
    ensures
      var s := hour * 3600 + min * 60 + sec;
      0 <= s < SECONDS_PER_DAY && s % 60 == sec && s / 60 % 60 == min && s / 60 / 60 == hour
  {
    assert (hour * 3600 + min * 60 + sec) / 60 == hour * 60 + min;
  }

  /** The day of the year is in bounds too, and the weekday from the day -1 on. */
  lemma DayOfYear(day: int)
    requires day + EPOCH_DAY >= FIRST_JULIAN_DAY + 306
    ensures 0 <= UtcTm(day, 0, true).yday <= 365
    ensures day + EPOCH_DAY >= -1 ==> 0 <= UtcTm(day, 0, true).wday <= 6
  {
    hide DateOf, JulianDay, WeekDay, YearStart, IsLeap;
    var julian := day + EPOCH_DAY;
    JulianDayOfDate(julian);
    WeekDayInRange(julian);
    var ymd := DateOf(julian);
    var newYear := YearMonthDay(ymd.year, 1, 1);
    JulianDayShifted(ymd);
    YearBegins();
    JulianDayShifted(newYear);
    if ymd.month > 2 { YearStarts(ShiftedYear(newYear)); }
  }

  lemma YearBegins()
    ensures YearStart(0) == 0
  {
  }

  /** The day of the year counts the days of the months before and those of the month; the weekday counts on from
      the Thursday of the epoch. */
  lemma DaysCounted(day: int, second: nat)
    requires day + EPOCH_DAY >= FIRST_JULIAN_DAY + 306
    ensures
      var tm := UtcTm(day, second, true);
      && tm.yday == DaysBefore(tm.year + 1900, tm.mon + 1) + tm.mday - 1
      && (day + EPOCH_DAY >= -1 ==> tm.wday == (4 + day) % 7)
  {
    hide DateOf, JulianDay, WeekDay, YearStart, IsLeap;
    var julian := day + EPOCH_DAY;
    JulianDayOfDate(julian);
    EpochIsZero();
    if julian >= -1 { WeekDayCounts(julian); }
    AfterNewYear(julian);
    DaysInYear(DateOf(julian));
  }

  lemma AfterNewYear(julian: int)
    requires julian >= FIRST_JULIAN_DAY + 306
    ensures DateOf(julian).year > -4800
  {
    hide DateOf, JulianDay, YearStart, IsLeap, MonthStart;
    JulianDayOfDate(julian);
    var ymd := DateOf(julian);
    if ymd.year <= -4800 {
      JulianDayShifted(ymd);
      LastMonths(ymd);
    }
  }

  lemma LastMonths(ymd: YearMonthDay)
    requires InEra(ymd) && ymd.year == -4800
    ensures ShiftedYear(ymd) == 0 && YearStart(0) == 0 && ShiftedMonth(ymd) >= 0
    ensures MonthStart(ShiftedMonth(ymd)) + ymd.day - 1 < 306
  {
  }

  /** Second 0 as broken-down time: Thursday, 1 January 1970, midnight. */
  lemma EpochFields()
    ensures UtcTm(0, 0, true) == Tm(0, 0, 0, 1, 0, 70, 4, 0, false, 0)
  {
    EpochIsZero();
    hide DateOf, JulianDay, WeekDay;
    DateOfJulianDay(YearMonthDay(1970, 1, 1));
    WeekDayCounts(EPOCH_DAY);
  }

  /** No intermediate value of either conversion leaves the 32-bit range. */
  lemma NoOverflow(day: int)
    requires DayInRange(day)
    ensures
      var a := day + EPOCH_DAY + 32044;
      var b := Quot(4 * a + 3, 146097);
      var c := a - Quot(b * 146097, 4);
      var d := Quot(4 * c + 3, 1461);
      var e := c - Quot(1461 * d, 4);
      var m := Quot(5 * e + 2, 153);
      && IsInt32(4 * a + 3) && IsInt32(b * 146097) && IsInt32(4 * c + 3) && IsInt32(1461 * d)
      && IsInt32(5 * e + 2) && IsInt32(153 * m + 2) && IsInt32(b * 100 + d - 4800 + Quot(m, 10))
  {
  }

  // ---------- zones ----------

  datatype Transition = Transition(gmt: int, local: int, idx: nat)
  datatype LocalType = LocalType(gmtOffset: int, isDst: bool)
  datatype Zone = Zone(transitions: seq<Transition>, localtimes: seq<LocalType>)

  /** As a time zone file is read: a local type for each transition, which takes its local time from it. */
  predicate IsZone(z: Zone) {
    && |z.localtimes| > 0
    && forall i :: 0 <= i < |z.transitions| ==>
      z.transitions[i].idx < |z.localtimes| && z.transitions[i].local == z.transitions[i].gmt + TypeAt(z, i).gmtOffset
  }

  /** The local type from transition i on; -1 stands for the time before the first. */
  function TypeAt(z: Zone, i: int): LocalType
    requires |z.localtimes| > 0 && i < |z.transitions| && (i >= 0 ==> z.transitions[i].idx < |z.localtimes|)
  {
    if i < 0 then z.localtimes[0] else z.localtimes[z.transitions[i].idx]
  }

  function Key(tr: Transition, byGmt: bool): int { if byGmt then tr.gmt else tr.local }

  /** std::lower_bound: the first transition whose key is not below the key sought. */
  function LowerBound(ts: seq<Transition>, key: int, byGmt: bool): (i: nat)
    ensures i <= |ts| && (forall k :: 0 <= k < i ==> Key(ts[k], byGmt) < key)
    ensures i < |ts| ==> Key(ts[i], byGmt) >= key
  {
    if ts == [] || Key(ts[0], byGmt) >= key then 0 else 1 + LowerBound(ts[1..], key, byGmt)
  }

  function FindLocaltime(z: Zone, key: int, byGmt: bool): LocalType
    requires IsZone(z)
  {
    if z.transitions == [] || key < Key(z.transitions[0], byGmt) then z.localtimes[0]
    else
      var i := LowerBound(z.transitions, key, byGmt);
      if i < |z.transitions| then
        TypeAt(z, if Key(z.transitions[i], byGmt) != key then i - 1 else i)
      else
        TypeAt(z, |z.transitions| - 1)
  }

  ghost predicate Sorted(z: Zone, byGmt: bool) {
    forall i, k :: 0 <= i < k < |z.transitions| ==> Key(z.transitions[i], byGmt) < Key(z.transitions[k], byGmt)
  }

  /** Transition i is the last one whose key is at most the key sought. */
  ghost predicate LastAtOrBefore(z: Zone, key: int, byGmt: bool, i: int) {
    && -1 <= i < |z.transitions|
    && (i >= 0 ==> Key(z.transitions[i], byGmt) <= key)
    && (i + 1 < |z.transitions| ==> key < Key(z.transitions[i + 1], byGmt))
  }

  lemma BoundAt(z: Zone, key: int, byGmt: bool, i: nat)
    requires Sorted(z, byGmt) && LastAtOrBefore(z, key, byGmt, i)
    ensures LowerBound(z.transitions, key, byGmt) == if Key(z.transitions[i], byGmt) == key then i else i + 1
  {
    hide Key;
    var b := LowerBound(z.transitions, key, byGmt);
    assert forall k :: 0 <= k < i ==> Key(z.transitions[k], byGmt) < Key(z.transitions[i], byGmt);
    assert forall k :: 0 <= k < b ==> Key(z.transitions[k], byGmt) < key;
  }

  /** Among sorted transitions the lookup finds the type of the last one at or before the key. */
  lemma FindsLast(z: Zone, key: int, byGmt: bool, i: int)
    requires IsZone(z) && Sorted(z, byGmt) && LastAtOrBefore(z, key, byGmt, i)
    ensures FindLocaltime(z, key, byGmt) == TypeAt(z, i)
  {
    hide Key, LowerBound;
    if i >= 0 {
      BoundAt(z, key, byGmt, i);
      assert Key(z.transitions[0], byGmt) <= Key(z.transitions[i], byGmt);
    }
  }

  lemma {:induction false} LastExists(z: Zone, key: int, byGmt: bool, n: nat) returns (i: int)
    requires n <= |z.transitions| && Sorted(z, byGmt)
    requires forall k :: n <= k < |z.transitions| ==> key < Key(z.transitions[k], byGmt)
    ensures LastAtOrBefore(z, key, byGmt, i)
  {
    if n == 0 || Key(z.transitions[n - 1], byGmt) <= key {
      i := n - 1;
    } else {
      i := LastExists(z, key, byGmt, n - 1);
    }
  }

  function ToLocalTime(z: Zone, t: int): Tm
    requires IsZone(z)
  {
    var local := FindLocaltime(z, t, true);
    var x := t + local.gmtOffset;
    UtcTm(DayOf(x), SecondOf(x), true).(isDst := local.isDst, gmtOff := local.gmtOffset)
  }

  function FromLocalTime(z: Zone, tm: Tm): int
    requires IsZone(z)
  {
    var seconds := FromUtcTm(tm);
    var local := FindLocaltime(z, seconds, false);
    var tryTm := ToLocalTime(z, seconds - local.gmtOffset);
    var seconds' :=
      if tm.isDst && !tryTm.isDst && tryTm.hour == tm.hour && tryTm.min == tm.min then seconds - 3600 else seconds;
    seconds' - local.gmtOffset
  }

  /** Local time shows the clock that is the offset of the last transition ahead of UTC, and that transition's flag
      and offset. */
  lemma LocalClock(z: Zone, t: int, i: int)
    requires IsZone(z) && Sorted(z, true) && LastAtOrBefore(z, t, true, i)
    requires DayOf(t + TypeAt(z, i).gmtOffset) + EPOCH_DAY >= FIRST_JULIAN_DAY
    ensures
      var (tm, lt) := (ToLocalTime(z, t), TypeAt(z, i));
      FromUtcTm(tm) == t + lt.gmtOffset && FieldsOk(tm) && tm.isDst == lt.isDst && tm.gmtOff == lt.gmtOffset
  {
    hide UtcTm, FromUtcTm, DayOf, SecondOf, FindLocaltime;
    FindsLast(z, t, true, i);
    FromToUtc(t + TypeAt(z, i).gmtOffset, true);
    SetZoneFields(t + TypeAt(z, i).gmtOffset, TypeAt(z, i));
  }

  // ---------- the round trip ----------

  /** Standard time first; then daylight saving time, an hour ahead, and standard time in turns,
      each lasting more than an hour. */
  ghost predicate AlternatingZone(z: Zone) {
    && IsZone(z) && !z.localtimes[0].isDst
    && (forall i :: 0 <= i < |z.transitions| ==>
          TypeAt(z, i).gmtOffset == z.localtimes[0].gmtOffset + if TypeAt(z, i).isDst then 3600 else 0)
    && (forall i, k :: 0 <= i < |z.transitions| && k == i + 1 < |z.transitions| ==>
          TypeAt(z, i).isDst != TypeAt(z, k).isDst && z.transitions[k].gmt - z.transitions[i].gmt > 3600)
  }

  lemma {:induction false} AlternatingApart(z: Zone, i: nat, k: nat)
    requires AlternatingZone(z) && i < k < |z.transitions|
    ensures z.transitions[i].gmt < z.transitions[k].gmt && z.transitions[i].local < z.transitions[k].local
    decreases k
  {
    if i < k - 1 { AlternatingApart(z, i, k - 1); }
    var j := k - 1;
    assert z.transitions[k].gmt - z.transitions[j].gmt > 3600;
  }

  lemma AlternatingSorted(z: Zone)
    requires AlternatingZone(z)
    ensures Sorted(z, true) && Sorted(z, false)
  {
    forall i, k | 0 <= i < k < |z.transitions|
      ensures Key(z.transitions[i], true) < Key(z.transitions[k], true)
      ensures Key(z.transitions[i], false) < Key(z.transitions[k], false)
    {
      AlternatingApart(z, i, k);
    }
  }

  /** Whether t lies in the hour that the clocks repeat after transition i. */
  ghost predicate InLastDstHour(z: Zone, t: int, i: int)
    requires IsZone(z) && LastAtOrBefore(z, t, true, i)
  {
    TypeAt(z, i).isDst && i + 1 < |z.transitions| && t + 3600 >= z.transitions[i + 1].gmt
  }

  /** The lookup by local time finds the same transition as by UTC, or in the last hour of DST the next. */
  lemma LocalLookup(z: Zone, t: int, i: int)
    requires AlternatingZone(z) && LastAtOrBefore(z, t, true, i)
    ensures LastAtOrBefore(z, t + TypeAt(z, i).gmtOffset, false, if InLastDstHour(z, t, i) then i + 1 else i)
    ensures InLastDstHour(z, t, i) ==> LastAtOrBefore(z, t + 3600, true, i + 1)
  {
    var n := |z.transitions|;
    assert i + 1 < n && i >= 0 ==> TypeAt(z, i).isDst != TypeAt(z, i + 1).isDst;
    if InLastDstHour(z, t, i) && i + 2 < n {
      var k := i + 2;
      assert z.transitions[k].gmt - z.transitions[i + 1].gmt > 3600;
    }
  }

  /** A time survives the trip through local time, in both passes of a repeated hour too. */
  lemma LocalRoundTrip(z: Zone, t: int)
    requires AlternatingZone(z)
    requires DayOf(t + z.localtimes[0].gmtOffset) + EPOCH_DAY >= FIRST_JULIAN_DAY
    ensures FromLocalTime(z, ToLocalTime(z, t)) == t
  {
    hide UtcTm, FromUtcTm, DayOf, SecondOf, FindLocaltime;
    AlternatingSorted(z);
    var i := LastExists(z, t, true, |z.transitions|);
    FindsLast(z, t, true, i);
    var o := TypeAt(z, i).gmtOffset;
    OffsetOf(z, i, t);
    FromToUtc(t + o, true);
    SetZoneFields(t + o, TypeAt(z, i));
    LocalLookup(z, t, i);
    var last := InLastDstHour(z, t, i);
    FindsLast(z, t + o, false, if last then i + 1 else i);
    if last {
      OffsetOf(z, i + 1, t);
      NextIsStandard(z, i);
      FindsLast(z, t + 3600, true, i + 1);
    }
  }

  lemma OffsetOf(z: Zone, i: int, t: int)
    requires AlternatingZone(z) && -1 <= i < |z.transitions|
    requires DayOf(t + z.localtimes[0].gmtOffset) + EPOCH_DAY >= FIRST_JULIAN_DAY
    ensures TypeAt(z, i).gmtOffset == z.localtimes[0].gmtOffset + if TypeAt(z, i).isDst then 3600 else 0
    ensures DayOf(t + TypeAt(z, i).gmtOffset) + EPOCH_DAY >= FIRST_JULIAN_DAY
  {
  }

  lemma NextIsStandard(z: Zone, i: int)
    requires AlternatingZone(z) && -1 <= i && i + 1 < |z.transitions| && TypeAt(z, i).isDst
    ensures !TypeAt(z, i + 1).isDst
  {
  }

  lemma SetZoneFields(x: int, lt: LocalType)
    ensures
      var tm := UtcTm(DayOf(x), SecondOf(x), true);
      FromUtcTm(tm.(isDst := lt.isDst, gmtOff := lt.gmtOffset)) == FromUtcTm(tm)
  {
    hide UtcTm, JulianDay;
  }

  /** The two passes of a repeated hour show the same clock and differ in the flag only. */
  lemma RepeatedHour(z: Zone, t: int, i: int)
    requires AlternatingZone(z) && LastAtOrBefore(z, t, true, i) && InLastDstHour(z, t, i)
    ensures
      var first, second := ToLocalTime(z, t), ToLocalTime(z, t + 3600);
      first.isDst && second == first.(isDst := false, gmtOff := second.gmtOff)
  {
    hide UtcTm, DayOf, SecondOf, FindLocaltime;
    AlternatingSorted(z);
    LocalLookup(z, t, i);
    FindsLast(z, t, true, i);
    FindsLast(z, t + 3600, true, i + 1);
    NextIsStandard(z, i);
    assert TypeAt(z, i).gmtOffset == TypeAt(z, i + 1).gmtOffset + 3600;
  }
}
