/** Conversion between seconds since the epoch and broken-down time, in UTC and in a zone given by its transitions.
    */
module TimeZones {
  import opened CInt
  import opened Dates

  // A day has 86400 seconds (`kSecondsPerDay`); the literal keeps the arithmetic linear for the verifier.
  /** `Date::kJulianDayOf1970_01_01`; its value is proved in `Dates.UnixEpoch`. */
  const JULIAN_DAY_OF_1970_01_01 := 2440588

  /** `struct tm`.  `tm_zone` is a place in the zone's abbreviations, or `GMT`. */
  datatype Tm = Tm(sec: int, min: int, hour: int, mday: int, mon: int, year: int,
                   wday: int, yday: int, isdst: int, gmtoff: int, zone: int)

  const GMT := -1

  datatype Hms = Hms(sec: int, min: int, hour: int)

  function FillHMS(seconds: nat): Hms {
    var minutes := seconds / 60;
    Hms(seconds % 60, minutes % 60, minutes / 60)
  }

  function ToUtcTime(secondsSinceEpoch: int, yday: bool): Tm {
    var rem := Rem(secondsSinceEpoch, 86400);
    var quot := Quot(secondsSinceEpoch, 86400);
    var seconds := if rem < 0 then rem + 86400 else rem;
    var days := if rem < 0 then quot - 1 else quot;
    var hms := FillHMS(seconds);
    var julian := days + JULIAN_DAY_OF_1970_01_01;
    var ymd := GetYearMonthDay(julian);
    Tm(hms.sec, hms.min, hms.hour, ymd.day, ymd.month - 1, ymd.year - 1900, WeekDay(julian),
       if yday then julian - GetJulianDayNumber(ymd.year, 1, 1) else 0, 0, 0, GMT)
  }

  function FromUtcFields(year: int, month: int, day: int, hour: int, minute: int, seconds: int): int {
    var secondsInDay := hour * 3600 + minute * 60 + seconds;
    var days := GetJulianDayNumber(year, month, day) - JULIAN_DAY_OF_1970_01_01;
    days * 86400 + secondsInDay
  }

  function FromUtcTime(utc: Tm): int {
    FromUtcFields(utc.year + 1900, utc.mon + 1, utc.mday, utc.hour, utc.min, utc.sec)
  }

  // ------------------------------------------------------------------
  // UTC: the two conversions are inverse.

  /** The Julian day that contains a time. */
  function JulianDay(t: int): int {
    t / 86400 + JULIAN_DAY_OF_1970_01_01
  }

  predicate ValidTime(hour: int, minute: int, seconds: int) {
    0 <= hour < 24 && 0 <= minute < 60 && 0 <= seconds < 60
  }

  function DateOf(tm: Tm): YearMonthDay {
    YearMonthDay(tm.year + 1900, tm.mon + 1, tm.mday)
  }

  /** The number of days before a date in its own year, counted month by month. */
  function DayOfYear(d: YearMonthDay): int
    requires 1 <= d.month <= 12
    decreases d.month
  {
    if d.month == 1 then d.day - 1
    else DaysInMonth(d.year, d.month - 1) + DayOfYear(d.(month := d.month - 1))
  }

  /** The truncated division with its correction for negative remainders is a floor division. */
  lemma SplitDay(t: int)
    ensures var rem := Rem(t, 86400); var quot := Quot(t, 86400);
            && (if rem < 0 then rem + 86400 else rem) == t % 86400
            && (if rem < 0 then quot - 1 else quot) == t / 86400
  {
  }

  lemma SplitTime(s: int)
    requires 0 <= s < 86400
    ensures var hms := FillHMS(s);
            ValidTime(hms.hour, hms.min, hms.sec) && hms.hour * 3600 + hms.min * 60 + hms.sec == s
  {
  }

  lemma JoinTime(hour: int, minute: int, seconds: int)
    requires ValidTime(hour, minute, seconds)
    ensures var s := hour * 3600 + minute * 60 + seconds;
            0 <= s < 86400 && FillHMS(s) == Hms(seconds, minute, hour)
  {
  }

  lemma JoinDay(days: int, s: int)
    requires 0 <= s < 86400
    ensures (days * 86400 + s) / 86400 == days && (days * 86400 + s) % 86400 == s
  {
  }

  /** What `toUtcTime` computes, in terms of the day and the second of the day. */
  lemma UtcFields(t: int, yday: bool)
    ensures var tm := ToUtcTime(t, yday);
            && DateOf(tm) == GetYearMonthDay(JulianDay(t))
            && Hms(tm.sec, tm.min, tm.hour) == FillHMS(t % 86400)
            && tm.wday == WeekDay(JulianDay(t))
  {
    hide GetYearMonthDay, GetJulianDayNumber, WeekDay;
    SplitDay(t);
  }

  /** Every time whose day number is in range survives the trip through UTC fields, with the fields in range. */
  lemma UtcRoundTrip(t: int, yday: bool)
    requires JulianDay(t) >= FIRST_DAY
    ensures var tm := ToUtcTime(t, yday);
            && ValidDate(DateOf(tm)) && InEra(DateOf(tm)) && ValidTime(tm.hour, tm.min, tm.sec)
            && FromUtcTime(tm) == t
  {
    hide GetYearMonthDay, GetJulianDayNumber, WeekDay, Quot, Rem;
    UtcFields(t, yday);
    DayNumberRoundTrip(JulianDay(t));
    SplitTime(t % 86400);
    var tm := ToUtcTime(t, yday);
    assert DayNumber(DateOf(tm)) == JulianDay(t);
  }

  /** Every valid date and time of day is what its own second count converts back to. */
  lemma UtcFieldsRoundTrip(d: YearMonthDay, hour: int, minute: int, seconds: int, yday: bool)
    requires ValidDate(d) && InEra(d) && ValidTime(hour, minute, seconds)
    ensures var tm := ToUtcTime(FromUtcFields(d.year, d.month, d.day, hour, minute, seconds), yday);
            DateOf(tm) == d && Hms(tm.sec, tm.min, tm.hour) == Hms(seconds, minute, hour)
  {
    hide GetYearMonthDay, GetJulianDayNumber, WeekDay, ToUtcTime, Quot, Rem;
    var t := FromUtcFields(d.year, d.month, d.day, hour, minute, seconds);
    JoinTime(hour, minute, seconds);
    JoinDay(DayNumber(d) - JULIAN_DAY_OF_1970_01_01, hour * 3600 + minute * 60 + seconds);
    DateRoundTrip(d);
    UtcFields(t, yday);
  }

  /** The second after one on the calendar and the clock. */
  function NextSecond(d: YearMonthDay, hms: Hms): (YearMonthDay, Hms) {
    if hms.sec < 59 then (d, hms.(sec := hms.sec + 1))
    else if hms.min < 59 then (d, Hms(0, hms.min + 1, hms.hour))
    else if hms.hour < 23 then (d, Hms(0, 0, hms.hour + 1))
    else (NextDay(d), Hms(0, 0, 0))
  }

  function ClockOf(tm: Tm): Hms {
    Hms(tm.sec, tm.min, tm.hour)
  }

  /** Second 0 is midnight of Thursday, 1 January 1970, both ways. */
  lemma UtcEpoch(yday: bool)
    ensures var tm := ToUtcTime(0, yday);
            && DateOf(tm) == YearMonthDay(1970, 1, 1) && ClockOf(tm) == Hms(0, 0, 0) && tm.wday == 4
            && tm.yday == 0 && tm.isdst == 0 && tm.gmtoff == 0 && tm.zone == GMT
    ensures FromUtcFields(1970, 1, 1, 0, 0, 0) == 0
  {
    hide GetYearMonthDay, GetJulianDayNumber, WeekDay;
    UnixEpoch();
    DateRoundTrip(YearMonthDay(1970, 1, 1));
  }

  lemma ClockTicks(s: nat)
    requires s < 86400
    ensures s < 86399 ==> NextSecond(YearMonthDay(0, 0, 0), FillHMS(s)) == (YearMonthDay(0, 0, 0), FillHMS(s + 1))
    ensures s == 86399 <==> FillHMS(s) == Hms(59, 59, 23)
    ensures FillHMS(0) == Hms(0, 0, 0)
  {
  }

  /** From one second to the next, both conversions follow the calendar and the clock, and the weekday advances at
      midnight: with the epoch, that determines them. */
  lemma UtcTicks(t: int, yday: bool)
    requires JulianDay(t) >= FIRST_DAY
    ensures var tm, next := ToUtcTime(t, yday), ToUtcTime(t + 1, yday);
            && (DateOf(next), ClockOf(next)) == NextSecond(DateOf(tm), ClockOf(tm))
            && FromUtcTime(next) == FromUtcTime(tm) + 1
            && (JulianDay(t) >= 0 ==>
                  next.wday == if DateOf(next) == DateOf(tm) then tm.wday else (tm.wday + 1) % 7)
  {
    hide GetYearMonthDay, GetJulianDayNumber, WeekDay, ToUtcTime, FromUtcTime, FillHMS, Quot, Rem;
    UtcFields(t, yday);
    UtcFields(t + 1, yday);
    UtcRoundTrip(t, yday);
    UtcRoundTrip(t + 1, yday);
    ClockTicks(t % 86400);
    DayTicks(t);
    NextDate(JulianDay(t));
    WeekDayRange(JulianDay(t));
    DayNumberRoundTrip(JulianDay(t));
  }

  lemma DayTicks(t: int)
    ensures t % 86400 < 86399 ==> JulianDay(t + 1) == JulianDay(t) && (t + 1) % 86400 == t % 86400 + 1
    ensures t % 86400 == 86399 ==> JulianDay(t + 1) == JulianDay(t) + 1 && (t + 1) % 86400 == 0
  {
  }

  lemma {:induction false} DayOfYearShift(d: YearMonthDay, day: int)
    requires 1 <= d.month <= 12
    ensures DayOfYear(d.(day := day)) == DayOfYear(d) + day - d.day
    decreases d.month
  {
    if d.month > 1 {
      DayOfYearShift(d.(month := d.month - 1), day);
    }
  }

  lemma SameMonth(d: YearMonthDay)
    requires ValidDate(d)
    ensures DayNumber(d) == DayNumber(d.(day := 1)) + d.day - 1
  {
  }

  lemma MonthStep(year: int, month: int)
    requires 1 <= month < 12 && InEra(YearMonthDay(year, month, 1))
    ensures GetJulianDayNumber(year, month + 1, 1) == GetJulianDayNumber(year, month, 1) + DaysInMonth(year, month)
  {
    hide GetYearMonthDay, GetJulianDayNumber, WeekDay, Quot, Rem;
    var last := YearMonthDay(year, month, DaysInMonth(year, month));
    SameMonth(last);
    NextDayNumber(last);
    assert NextDay(last) == YearMonthDay(year, month + 1, 1);
  }

  /** January of the year -4800 lies where the divisions truncate the wrong way. */
  lemma FirstYear()
    ensures GetJulianDayNumber(-4800, 1, 1) == -32103 && GetJulianDayNumber(-4800, 3, 1) == -32044
  {
  }

  lemma {:induction false} FirstOfMonth(year: int, month: int)
    requires 1 <= month <= 12 && InEra(YearMonthDay(year, month, 1))
    ensures GetJulianDayNumber(year, month, 1) - GetJulianDayNumber(year, 1, 1)
            == DayOfYear(YearMonthDay(year, month, 1)) - (if year > -4800 then 0 else 1)
    decreases month
  {
    hide GetJulianDayNumber;
    var first := YearMonthDay(year, month, 1);
    if month == 1 {
    } else if year == -4800 && month == 3 {
      FirstYear();
      assert DayOfYear(YearMonthDay(-4800, 1, 1)) == 0;
      assert DayOfYear(YearMonthDay(-4800, 2, 1)) == 31;
    } else {
      FirstOfMonth(year, month - 1);
      MonthStep(year, month - 1);
    }
  }

  /** The day number of a date is that of the year's first day plus its ordinal in the year, except in the year
      -4800, whose January lies before the range of the closed form. */
  lemma {:induction false} OrdinalInYear(d: YearMonthDay)
    requires ValidDate(d) && InEra(d)
    ensures DayNumber(d) - GetJulianDayNumber(d.year, 1, 1) == DayOfYear(d) - (if d.year > -4800 then 0 else 1)
  {
    hide GetYearMonthDay, GetJulianDayNumber, WeekDay, Quot, Rem;
    SameMonth(d);
    FirstOfMonth(d.year, d.month);
    DayOfYearShift(d, 1);
  }

  /** With the day of the year requested, `tm_yday` is the ordinal exactly for years after -4800. */
  lemma YdayExact(t: int)
    requires JulianDay(t) >= FIRST_DAY
    ensures var tm := ToUtcTime(t, true);
            && 1 <= tm.mon + 1 <= 12
            && (tm.yday == DayOfYear(DateOf(tm)) <==> DateOf(tm).year > -4800)
  {
    hide GetYearMonthDay, GetJulianDayNumber, WeekDay, Quot, Rem;
    SplitDay(t);
    var j := JulianDay(t);
    DayNumberRoundTrip(j);
    OrdinalInYear(GetYearMonthDay(j));
    var tm := ToUtcTime(t, true);
    assert DateOf(tm) == GetYearMonthDay(j);
    assert tm.yday == j - GetJulianDayNumber(DateOf(tm).year, 1, 1);
  }

  // ------------------------------------------------------------------
  // Local time: lookup of the type in force.

  datatype Transition = Transition(gmttime: int, localtime: int, localtimeIdx: nat)

  datatype Localtime = Localtime(gmtOffset: int, isDst: bool, arrbIdx: nat)

  datatype Data = Data(transitions: seq<Transition>, localtimes: seq<Localtime>)

  /** The member of a transition that `Comp` compares. */
  function Key(t: Transition, compareGmt: bool): int {
    if compareGmt then t.gmttime else t.localtime
  }

  predicate Sorted(ts: seq<Transition>, compareGmt: bool) {
    forall i, j :: 0 <= i < j < |ts| ==> Key(ts[i], compareGmt) < Key(ts[j], compareGmt)
  }

  /** What reading a zone file establishes. */
  predicate WellFormed(data: Data) {
    && |data.localtimes| > 0
    && forall i :: 0 <= i < |data.transitions| ==>
         var tr := data.transitions[i];
         tr.localtimeIdx < |data.localtimes| && tr.localtime == tr.gmttime + data.localtimes[tr.localtimeIdx].gmtOffset
  }

  /** The index of the last transition whose key is not after the sentry, or -1. */
  function LastAtOrBefore(ts: seq<Transition>, sentry: int, compareGmt: bool): (i: int)
    ensures -1 <= i < |ts|
  {
    if |ts| == 0 then -1
    else if Key(ts[|ts| - 1], compareGmt) <= sentry then |ts| - 1
    else LastAtOrBefore(ts[..|ts| - 1], sentry, compareGmt)
  }

  /** The type in force before transition i, the first type standing in before all of them. */
  function TypeBefore(data: Data, i: int): Localtime
    requires WellFormed(data) && 0 <= i <= |data.transitions|
  {
    if i == 0 then data.localtimes[0] else data.localtimes[data.transitions[i - 1].localtimeIdx]
  }

  function LocaltimeAt(data: Data, sentry: int, compareGmt: bool): Localtime
    requires WellFormed(data)
  {
    TypeBefore(data, LastAtOrBefore(data.transitions, sentry, compareGmt) + 1)
  }

  lemma {:induction false} LastIsUnique(ts: seq<Transition>, sentry: int, compareGmt: bool, i: int)
    requires Sorted(ts, compareGmt)
    requires -1 <= i < |ts|
    requires i >= 0 ==> Key(ts[i], compareGmt) <= sentry
    requires i + 1 < |ts| ==> sentry < Key(ts[i + 1], compareGmt)
    ensures LastAtOrBefore(ts, sentry, compareGmt) == i
  {
    var n := |ts|;
    if i < n - 1 {
      assert sentry < Key(ts[n - 1], compareGmt);
      LastIsUnique(ts[..n - 1], sentry, compareGmt, i);
    }
  }

  lemma {:induction false} LastBounds(ts: seq<Transition>, sentry: int, compareGmt: bool)
    requires Sorted(ts, compareGmt)
    ensures var i := LastAtOrBefore(ts, sentry, compareGmt);
            && (i >= 0 ==> Key(ts[i], compareGmt) <= sentry)
            && (i + 1 < |ts| ==> sentry < Key(ts[i + 1], compareGmt))
  {
    var n := |ts|;
    if n > 0 && sentry < Key(ts[n - 1], compareGmt) {
      LastBounds(ts[..n - 1], sentry, compareGmt);
    }
  }

  /** `std::lower_bound`: the first position whose key is not less than the sentry's. */
  method LowerBound(ts: seq<Transition>, sentry: int, compareGmt: bool) returns (first: nat)
    requires Sorted(ts, compareGmt)
    ensures first <= |ts|
    ensures forall i :: 0 <= i < first ==> Key(ts[i], compareGmt) < sentry
    ensures forall i :: first <= i < |ts| ==> sentry <= Key(ts[i], compareGmt)
  {
    first := 0;
    var count := |ts|;
    while count > 0
      invariant 0 <= count && first + count <= |ts|
      invariant forall i :: 0 <= i < first ==> Key(ts[i], compareGmt) < sentry
      invariant forall i :: first + count <= i < |ts| ==> sentry <= Key(ts[i], compareGmt)
    {
      var step := count / 2;
      var it := first + step;
      if Key(ts[it], compareGmt) < sentry {
        first := it + 1;
        count := count - step - 1;
      } else {
        count := step;
      }
    }
  }

  /** The binary search finds the type of the last transition not after the sentry. */
  method FindLocaltime(data: Data, sentry: int, compareGmt: bool) returns (local: Localtime)
    requires WellFormed(data) && Sorted(data.transitions, compareGmt)
    ensures local == LocaltimeAt(data, sentry, compareGmt)
  {
    var ts := data.transitions;
    if |ts| == 0 || sentry < Key(ts[0], compareGmt) {
      local := data.localtimes[0];
      LastIsUnique(ts, sentry, compareGmt, -1);
    } else {
      var transI := LowerBound(ts, sentry, compareGmt);
      if transI != |ts| {
        if sentry != Key(ts[transI], compareGmt) {
          assert transI != 0;
          transI := transI - 1;
        }
        local := data.localtimes[ts[transI].localtimeIdx];
        LastIsUnique(ts, sentry, compareGmt, transI);
      } else {
        local := data.localtimes[ts[|ts| - 1].localtimeIdx];
        LastIsUnique(ts, sentry, compareGmt, |ts| - 1);
      }
    }
  }

  // ------------------------------------------------------------------
  // Local time: the two conversions.

  function ToLocal(data: Data, seconds: int): Tm
    requires WellFormed(data)
  {
    var local := LocaltimeAt(data, seconds, true);
    ToUtcTime(seconds + local.gmtOffset, true)
    .(isdst := if local.isDst then 1 else 0, gmtoff := local.gmtOffset, zone := local.arrbIdx)
  }

  /** The second half of `fromLocalTime`, once the fields have been turned into seconds. */
  function Corrected(data: Data, seconds: int, localTm: Tm): int
    requires WellFormed(data)
  {
    var local := LocaltimeAt(data, seconds, false);
    if localTm.isdst != 0 then
      var tryTm := ToLocal(data, seconds - local.gmtOffset);
      if tryTm.isdst == 0 && tryTm.hour == localTm.hour && tryTm.min == localTm.min then
        seconds - 3600 - local.gmtOffset
      else
        seconds - local.gmtOffset
    else
      seconds - local.gmtOffset
  }

  function FromLocal(data: Data, localTm: Tm): int
    requires WellFormed(data)
  {
    Corrected(data, FromUtcTime(localTm), localTm)
  }

  method ToLocalTime(data: Data, seconds: int) returns (localTime: Tm)
    requires WellFormed(data) && Sorted(data.transitions, true)
    ensures localTime == ToLocal(data, seconds)
  {
    var local := FindLocaltime(data, seconds, true);
    var localSeconds := seconds + local.gmtOffset;
    localTime := ToUtcTime(localSeconds, true);
    localTime := localTime.(isdst := if local.isDst then 1 else 0, gmtoff := local.gmtOffset, zone := local.arrbIdx);
  }

  method FromLocalTime(data: Data, localTm: Tm) returns (result: int)
    requires WellFormed(data) && Sorted(data.transitions, true) && Sorted(data.transitions, false)
    ensures result == FromLocal(data, localTm)
  {
    var seconds := FromUtcTime(localTm);
    var local := FindLocaltime(data, seconds, false);
    if localTm.isdst != 0 {
      var tryTm := ToLocalTime(data, seconds - local.gmtOffset);
      if tryTm.isdst == 0 && tryTm.hour == localTm.hour && tryTm.min == localTm.min {
        seconds := seconds - 3600;
      }
    }
    result := seconds - local.gmtOffset;
  }

  // ------------------------------------------------------------------
  // From local time and back.

  lemma ZoneFieldsIgnored(seconds: int, isdst: int, gmtoff: int, zone: int)
    requires JulianDay(seconds) >= FIRST_DAY
    ensures FromUtcTime(ToUtcTime(seconds, true).(isdst := isdst, gmtoff := gmtoff, zone := zone)) == seconds
  {
    UtcRoundTrip(seconds, true);
    var utc := ToUtcTime(seconds, true);
    assert FromUtcTime(utc.(isdst := isdst, gmtoff := gmtoff, zone := zone)) == FromUtcTime(utc);
  }

  lemma LocalFields(data: Data, t: int, local: Localtime)
    requires WellFormed(data)
    requires local == LocaltimeAt(data, t, true)
    ensures ToLocal(data, t)
            == ToUtcTime(t + local.gmtOffset, true)
               .(isdst := if local.isDst then 1 else 0, gmtoff := local.gmtOffset, zone := local.arrbIdx)
  {
    hide GetYearMonthDay, GetJulianDayNumber, WeekDay, Quot, Rem;
  }

  lemma LocalSeconds(data: Data, t: int, local: Localtime)
    requires WellFormed(data)
    requires local == LocaltimeAt(data, t, true) && JulianDay(t + local.gmtOffset) >= FIRST_DAY
    ensures FromUtcTime(ToLocal(data, t)) == t + local.gmtOffset
  {
    hide GetYearMonthDay, GetJulianDayNumber, WeekDay, Quot, Rem;
    LocalFields(data, t, local);
    ZoneFieldsIgnored(t + local.gmtOffset, if local.isDst then 1 else 0, local.gmtOffset, local.arrbIdx);
  }

  lemma LocalIsDst(data: Data, t: int)
    requires WellFormed(data)
    ensures ToLocal(data, t).isdst != 0 <==> LocaltimeAt(data, t, true).isDst
  {
  }

  /** The correction step, given what the two lookups find and what the trial conversion shows. */
  lemma CorrectionStep(data: Data, seconds: int, tm: Tm, local: Localtime, tryTm: Tm)
    requires WellFormed(data)
    requires local == LocaltimeAt(data, seconds, false)
    requires tryTm == ToLocal(data, seconds - local.gmtOffset)
    ensures tm.isdst == 0 || tryTm.isdst != 0 || tryTm.hour != tm.hour || tryTm.min != tm.min ==>
              Corrected(data, seconds, tm) == seconds - local.gmtOffset
    ensures tm.isdst != 0 && tryTm.isdst == 0 && tryTm.hour == tm.hour && tryTm.min == tm.min ==>
              Corrected(data, seconds, tm) == seconds - local.gmtOffset - 3600
  {
    hide GetYearMonthDay, GetJulianDayNumber, WeekDay, Quot, Rem;
  }

  /** The clocks of two local times show the same hour and minute. */
  predicate SameMinute(x: int, y: int) {
    (x % 86400) / 60 == (y % 86400) / 60
  }

  lemma MinuteOfDay(s: nat, r: nat)
    ensures FillHMS(s).hour == FillHMS(r).hour && FillHMS(s).min == FillHMS(r).min <==> s / 60 == r / 60
  {
  }

  lemma ReadingExact(data: Data, t: int, u: int, before: Localtime, after: Localtime)
    requires WellFormed(data) && before == LocaltimeAt(data, t, true) && after == LocaltimeAt(data, u, true)
    ensures ToLocal(data, t).hour == ToLocal(data, u).hour && ToLocal(data, t).min == ToLocal(data, u).min
            <==> SameMinute(t + before.gmtOffset, u + after.gmtOffset)
  {
    hide GetYearMonthDay, GetJulianDayNumber, WeekDay, Quot, Rem, FillHMS, ToUtcTime, ToLocal;
    LocalFields(data, t, before);
    LocalFields(data, u, after);
    UtcFields(t + before.gmtOffset, true);
    UtcFields(u + after.gmtOffset, true);
    MinuteOfDay((t + before.gmtOffset) % 86400, (u + after.gmtOffset) % 86400);
  }

  /** The hour that the last step takes off, for a daylight time that reads the same in standard time. */
  function TakenOff(data: Data, t: int): int
    requires WellFormed(data)
  {
    var own := LocaltimeAt(data, t, true);
    var found := LocaltimeAt(data, t + own.gmtOffset, false);
    var u := t + own.gmtOffset - found.gmtOffset;
    var other := LocaltimeAt(data, u, true);
    if own.isDst && !other.isDst && SameMinute(u + other.gmtOffset, t + own.gmtOffset) then 3600 else 0
  }

  /** With the keys sorted, as the search needs them: what comes back, by the type found by the local time. */
  lemma {:induction false} LocalRoundTripSorted(data: Data, t: int)
    requires WellFormed(data) && Sorted(data.transitions, true) && Sorted(data.transitions, false)
    requires JulianDay(t + LocaltimeAt(data, t, true).gmtOffset) >= FIRST_DAY
    ensures var own := LocaltimeAt(data, t, true);
            var found := LocaltimeAt(data, t + own.gmtOffset, false);
            FromLocal(data, ToLocal(data, t)) == t + own.gmtOffset - found.gmtOffset - TakenOff(data, t)
  {
    hide GetYearMonthDay, GetJulianDayNumber, WeekDay, Quot, Rem, ToLocal, Corrected, SameMinute;
    var own, tm := LocaltimeAt(data, t, true), ToLocal(data, t);
    LocalSeconds(data, t, own);
    var s := t + own.gmtOffset;
    var found := LocaltimeAt(data, s, false);
    var u := s - found.gmtOffset;
    var other := LocaltimeAt(data, u, true);
    LocalIsDst(data, t);
    LocalIsDst(data, u);
    ReadingExact(data, u, t, other, own);
    CorrectionStep(data, s, tm, found, ToLocal(data, u));
  }

  // ------------------------------------------------------------------
  // Zones whose clock changes are far apart.

  /** How far clocks go back from the type before transition i to the type before transition j. */
  function Back(data: Data, i: int, j: int): int
    requires WellFormed(data) && 0 <= i <= |data.transitions| && 0 <= j <= |data.transitions|
  {
    TypeBefore(data, i).gmtOffset - TypeBefore(data, j).gmtOffset
  }

  /** Each type between two transitions lasts longer than clocks go back at its start, at its end, or over both. */
  predicate Spaced(data: Data) {
    && WellFormed(data)
    && forall k :: 0 < k < |data.transitions| ==> FarEnough(data, k)
  }

  predicate FarEnough(data: Data, k: int)
    requires WellFormed(data) && 0 < k < |data.transitions|
  {
    var lasts := data.transitions[k].gmttime - data.transitions[k - 1].gmttime;
    lasts > 0 && lasts > Back(data, k - 1, k) && lasts > Back(data, k, k + 1) && lasts > Back(data, k - 1, k + 1)
  }

  /** Clocks are about to go back over this local time, which will then come once more. */
  predicate Repeated(data: Data, t: int)
    requires WellFormed(data)
  {
    var next := LastAtOrBefore(data.transitions, t, true) + 1;
    next < |data.transitions| && t + TypeBefore(data, next).gmtOffset >= data.transitions[next].localtime
  }

  lemma {:induction false} SpacedOrder(data: Data, i: int, j: int)
    requires Spaced(data) && 0 <= i < j < |data.transitions|
    ensures data.transitions[i].gmttime < data.transitions[j].gmttime
    ensures data.transitions[i].localtime < data.transitions[j].localtime
    decreases j - i
  {
    assert FarEnough(data, j);
    if i + 1 < j {
      SpacedOrder(data, i, j - 1);
    }
  }

  lemma SpacedSorted(data: Data)
    requires Spaced(data)
    ensures Sorted(data.transitions, true) && Sorted(data.transitions, false)
  {
    forall i, j | 0 <= i < j < |data.transitions|
      ensures Key(data.transitions[i], true) < Key(data.transitions[j], true)
      ensures Key(data.transitions[i], false) < Key(data.transitions[j], false)
    {
      SpacedOrder(data, i, j);
    }
  }

  /** The local lookup of a time finds its own type or the one that follows. */
  lemma {:induction false} LocalIndex(data: Data, t: int)
    requires Spaced(data)
    ensures var i := LastAtOrBefore(data.transitions, t, true);
            LastAtOrBefore(data.transitions, t + TypeBefore(data, i + 1).gmtOffset, false)
            == if Repeated(data, t) then i + 1 else i
  {
    hide LastAtOrBefore, Sorted, FarEnough, Back;
    SpacedSorted(data);
    LastBounds(data.transitions, t, true);
    var i := LastAtOrBefore(data.transitions, t, true) + 1;
    if i + 1 < |data.transitions| {
      GapAfter(data, i);
    }
    LastIsUnique(data.transitions, t + TypeBefore(data, i).gmtOffset, false, if Repeated(data, t) then i else i - 1);
  }

  /** Looked up by local time, a repeated time finds the type that follows; any other finds its own type. */
  lemma {:induction false} LocalLookup(data: Data, t: int)
    requires Spaced(data)
    ensures var i := LastAtOrBefore(data.transitions, t, true) + 1;
            LocaltimeAt(data, t + TypeBefore(data, i).gmtOffset, false)
            == TypeBefore(data, if Repeated(data, t) then i + 1 else i)
  {
    hide LastAtOrBefore, Spaced, Repeated;
    LocalIndex(data, t);
  }

  lemma GapAfter(data: Data, i: int)
    requires Spaced(data) && 0 <= i && i + 1 < |data.transitions|
    ensures var lasts := data.transitions[i + 1].gmttime - data.transitions[i].gmttime;
            && lasts > TypeBefore(data, i).gmtOffset - TypeBefore(data, i + 1).gmtOffset
            && lasts > TypeBefore(data, i).gmtOffset - TypeBefore(data, i + 2).gmtOffset
  {
    assert FarEnough(data, i + 1);
  }

  /** When the same local time comes again, the type that follows is in force. */
  lemma {:induction false} ComesAgain(data: Data, t: int)
    requires Spaced(data) && Repeated(data, t)
    ensures var i := LastAtOrBefore(data.transitions, t, true) + 1;
            && Back(data, i, i + 1) > 0
            && LocaltimeAt(data, t + Back(data, i, i + 1), true) == TypeBefore(data, i + 1)
  {
    hide LastAtOrBefore, Sorted, FarEnough;
    SpacedSorted(data);
    LastBounds(data.transitions, t, true);
    var i := LastAtOrBefore(data.transitions, t, true) + 1;
    if i + 1 < |data.transitions| {
      GapAfter(data, i);
    }
    LastIsUnique(data.transitions, t + Back(data, i, i + 1), true, i);
  }

  /** The seconds by which a time comes back late. */
  function Late(data: Data, t: int): int
    requires WellFormed(data)
  {
    var i := LastAtOrBefore(data.transitions, t, true) + 1;
    if !Repeated(data, t) then 0
    else Back(data, i, i + 1) - (if TypeBefore(data, i).isDst && !TypeBefore(data, i + 1).isDst then 3600 else 0)
  }

  /** `fromLocalTime` after `toLocalTime`, whatever the transitions change, in every zone where they are far enough
      apart: only a repeated time moves, later by as much as clocks go back, less the hour taken off at the end of
      daylight saving time. */
  lemma LocalRoundTripSpaced(data: Data, t: int)
    requires Spaced(data)
    requires JulianDay(t + LocaltimeAt(data, t, true).gmtOffset) >= FIRST_DAY
    ensures FromLocal(data, ToLocal(data, t)) == t + Late(data, t)
  {
    hide LastAtOrBefore, Sorted, FarEnough, FromLocal, ToLocal, JulianDay, SameMinute, Repeated;
    SpacedSorted(data);
    LocalRoundTripSorted(data, t);
    LocalLookup(data, t);
    if Repeated(data, t) {
      ComesAgain(data, t);
      SameMinuteAlways(t + LocaltimeAt(data, t, true).gmtOffset);
    }
  }

  lemma SameMinuteAlways(x: int)
    ensures SameMinute(x, x)
  {
  }

  /** So a time comes back if and only if it is not repeated, or clocks go back by exactly an hour out of daylight
      saving time. */
  lemma {:induction false} LocalRoundTripExactly(data: Data, t: int)
    requires Spaced(data)
    requires JulianDay(t + LocaltimeAt(data, t, true).gmtOffset) >= FIRST_DAY
    ensures var i := LastAtOrBefore(data.transitions, t, true) + 1;
            FromLocal(data, ToLocal(data, t)) == t <==>
              !Repeated(data, t)
              || (TypeBefore(data, i).isDst && !TypeBefore(data, i + 1).isDst && Back(data, i, i + 1) == 3600)
  {
    hide LastAtOrBefore, Sorted, FarEnough, FromLocal, ToLocal, JulianDay;
    LocalRoundTripSpaced(data, t);
    if Repeated(data, t) {
      ComesAgain(data, t);
    }
  }

  // ------------------------------------------------------------------
  // Any fields at all.

  /** What `toLocalTime` shows: the time shifted by the offset of the type in force, which the other fields name. */
  lemma LocalShows(data: Data, t: int)
    requires WellFormed(data)
    requires JulianDay(t + LocaltimeAt(data, t, true).gmtOffset) >= FIRST_DAY
    ensures var tm := ToLocal(data, t);
            && FromUtcTime(tm) == t + tm.gmtoff
            && ValidDate(DateOf(tm)) && ValidTime(tm.hour, tm.min, tm.sec)
            && (tm.isdst == 0 || tm.isdst == 1)
            && LocaltimeAt(data, t, true) == Localtime(tm.gmtoff, tm.isdst == 1, tm.zone)
  {
    hide GetYearMonthDay, GetJulianDayNumber, WeekDay, Quot, Rem, ToUtcTime, FromUtcTime;
    var local := LocaltimeAt(data, t, true);
    LocalSeconds(data, t, local);
    LocalFields(data, t, local);
    UtcRoundTrip(t + local.gmtOffset, true);
  }

  /** The clocks of the zone show this local time at t. */
  predicate Shows(data: Data, t: int, local: int)
    requires WellFormed(data)
  {
    t + LocaltimeAt(data, t, true).gmtOffset == local
  }

  /** Clocks go forward over this local time. */
  predicate Skipped(data: Data, local: int)
    requires WellFormed(data)
  {
    var i := LastAtOrBefore(data.transitions, local, false) + 1;
    i < |data.transitions| && local - TypeBefore(data, i).gmtOffset >= data.transitions[i].gmttime
  }

  /** The time that a local time is taken for, before the last step. */
  function TakenFor(data: Data, local: int): int
    requires WellFormed(data)
  {
    local - LocaltimeAt(data, local, false).gmtOffset
  }

  lemma {:induction false} TakenForType(data: Data, local: int)
    requires Spaced(data) && !Skipped(data, local)
    ensures LocaltimeAt(data, TakenFor(data, local), true) == LocaltimeAt(data, local, false)
  {
    hide LastAtOrBefore, Sorted, FarEnough;
    SpacedSorted(data);
    LastBounds(data.transitions, local, false);
    LastIsUnique(data.transitions, TakenFor(data, local), true, LastAtOrBefore(data.transitions, local, false));
  }

  /** A local time is skipped if and only if no clock ever shows it. */
  lemma {:induction false} SkippedExactly(data: Data, local: int)
    requires Spaced(data)
    ensures Skipped(data, local) <==> forall t :: !Shows(data, t, local)
  {
    hide LastAtOrBefore, Sorted, FarEnough;
    if !Skipped(data, local) {
      TakenForType(data, local);
      assert Shows(data, TakenFor(data, local), local);
    } else {
      forall t ensures !Shows(data, t, local) {
        SpacedSorted(data);
        LocalIndex(data, t);
        LastBounds(data.transitions, t, true);
        var i := LastAtOrBefore(data.transitions, t, true) + 1;
        if i + 1 < |data.transitions| {
          GapAfter(data, i);
        }
      }
    }
  }

  /** `fromLocalTime` of any valid fields, whatever their daylight flag: a local time that clocks show is taken for a
      time at which they do, an hour earlier if the flag is set and that time is not daylight saving time; one that
      clocks skip, with the flag clear, is read by the clock in force before the change. */
  lemma {:induction false} FromLocalExactly(data: Data, tm: Tm)
    requires Spaced(data) && ValidTime(tm.hour, tm.min, tm.sec)
    ensures var local := FromUtcTime(tm);
            var u := TakenFor(data, local);
            && (!Skipped(data, local) ==>
                  && Shows(data, u, local)
                  && FromLocal(data, tm)
                     == if tm.isdst != 0 && !LocaltimeAt(data, u, true).isDst then u - 3600 else u)
            && (Skipped(data, local) && tm.isdst == 0 ==> FromLocal(data, tm) == u)
  {
    hide GetYearMonthDay, GetJulianDayNumber, WeekDay, Quot, Rem, ToLocal, Corrected, LastAtOrBefore, FarEnough;
    var local := FromUtcTime(tm);
    var u := TakenFor(data, local);
    CorrectionStep(data, local, tm, LocaltimeAt(data, local, false), ToLocal(data, u));
    if !Skipped(data, local) {
      TakenForType(data, local);
      LocalIsDst(data, u);
      ShowsFields(data, u, tm);
    }
  }

  lemma ShowsFields(data: Data, u: int, tm: Tm)
    requires WellFormed(data) && ValidTime(tm.hour, tm.min, tm.sec) && Shows(data, u, FromUtcTime(tm))
    ensures ToLocal(data, u).hour == tm.hour && ToLocal(data, u).min == tm.min
  {
    hide GetYearMonthDay, GetJulianDayNumber, WeekDay, Quot, Rem, ToLocal, ToUtcTime, LocaltimeAt;
    LocalFields(data, u, LocaltimeAt(data, u, true));
    UtcFields(FromUtcTime(tm), true);
    JoinTime(tm.hour, tm.min, tm.sec);
    JoinDay(DayNumber(DateOf(tm)) - JULIAN_DAY_OF_1970_01_01, tm.hour * 3600 + tm.min * 60 + tm.sec);
  }

  // ------------------------------------------------------------------
  // Zones that alternate between standard and daylight saving time.

  /** Clocks go forward by `shift` into daylight saving time and back by as much out of it. */
  predicate Flips(before: Localtime, after: Localtime, shift: int) {
    && before.isDst != after.isDst
    && after.gmtOffset == before.gmtOffset + (if after.isDst then shift else -shift)
  }

  /** Every transition flips, and lasts longer than the shift. */
  predicate Alternating(data: Data, shift: int) {
    && WellFormed(data) && shift > 0
    && (forall i :: 0 <= i < |data.transitions| ==> Flips(TypeBefore(data, i), TypeBefore(data, i + 1), shift))
    && (forall i :: 0 < i < |data.transitions| ==>
              data.transitions[i].gmttime - data.transitions[i - 1].gmttime > shift)
  }

  /** In the last `shift` seconds of daylight saving time, whose local times will come once more. */
  predicate InRepeatedTime(data: Data, shift: int, t: int)
    requires WellFormed(data)
  {
    var next := LastAtOrBefore(data.transitions, t, true) + 1;
    TypeBefore(data, next).isDst && next < |data.transitions| && t >= data.transitions[next].gmttime - shift
  }

  lemma AlternatingSpaced(data: Data, shift: int)
    requires Alternating(data, shift)
    ensures Spaced(data)
  {
    forall k | 0 < k < |data.transitions| ensures FarEnough(data, k) {
      assert Flips(TypeBefore(data, k - 1), TypeBefore(data, k), shift);
      assert Flips(TypeBefore(data, k), TypeBefore(data, k + 1), shift);
    }
  }

  lemma {:induction false} AlternatingRepeated(data: Data, shift: int, t: int)
    requires Alternating(data, shift)
    ensures Repeated(data, t) <==> InRepeatedTime(data, shift, t)
    ensures Late(data, t) == if InRepeatedTime(data, shift, t) then shift - 3600 else 0
  {
    AlternatingSpaced(data, shift);
    SpacedSorted(data);
    LastBounds(data.transitions, t, true);
    hide LastAtOrBefore, Sorted, FarEnough;
    var i := LastAtOrBefore(data.transitions, t, true) + 1;
    if i < |data.transitions| {
      assert Flips(TypeBefore(data, i), TypeBefore(data, i + 1), shift);
    }
  }

  /** `fromLocalTime` after `toLocalTime`, exactly: the one-hour correction is off by `shift - 3600` seconds during
      repeated time, and nothing else is ever lost. */
  lemma LocalRoundTripExact(data: Data, shift: int, t: int)
    requires Alternating(data, shift)
    requires JulianDay(t + LocaltimeAt(data, t, true).gmtOffset) >= FIRST_DAY
    ensures FromLocal(data, ToLocal(data, t)) == t + (if InRepeatedTime(data, shift, t) then shift - 3600 else 0)
  {
    hide LastAtOrBefore, FromLocal, ToLocal, JulianDay, Late, InRepeatedTime, Alternating, Spaced;
    AlternatingSpaced(data, shift);
    LocalRoundTripSpaced(data, t);
    AlternatingRepeated(data, shift, t);
  }

  /** Local times round-trip for every t iff the shift is the hard-wired hour or t is not repeated; so always in a
      zone whose clocks move by one hour. */
  lemma LocalRoundTrip(data: Data, shift: int, t: int)
    requires Alternating(data, shift)
    requires JulianDay(t + LocaltimeAt(data, t, true).gmtOffset) >= FIRST_DAY
    ensures FromLocal(data, ToLocal(data, t)) == t <==> shift == 3600 || !InRepeatedTime(data, shift, t)
  {
    hide FromLocal, ToLocal, JulianDay, InRepeatedTime, Alternating;
    LocalRoundTripExact(data, shift, t);
  }

  /** A zone with one transition out of daylight saving time by half an hour loses 1800 seconds. */
  lemma HalfHourZone()
    ensures var data := Data([Transition(1000000, 1036000, 1)],
                             [Localtime(37800, true, 0), Localtime(36000, false, 4)]);
            Alternating(data, 1800) && FromLocal(data, ToLocal(data, 999000)) == 997200
  {
    var data := Data([Transition(1000000, 1036000, 1)], [Localtime(37800, true, 0), Localtime(36000, false, 4)]);
    assert LastAtOrBefore(data.transitions, 999000, true) == -1 by {
      LastIsUnique(data.transitions, 999000, true, -1);
    }
    assert InRepeatedTime(data, 1800, 999000);
    LocalRoundTripExact(data, 1800, 999000);
  }

  /** A zone whose standard time goes back by an hour loses that hour: it is taken off after daylight saving time
      only. */
  lemma StandardTimeBack()
    ensures var data := Data([Transition(1000000, 1010800, 1)],
                             [Localtime(14400, false, 0), Localtime(10800, false, 4)]);
            Spaced(data) && FromLocal(data, ToLocal(data, 999000)) == 1002600
  {
    var data := Data([Transition(1000000, 1010800, 1)], [Localtime(14400, false, 0), Localtime(10800, false, 4)]);
    assert LastAtOrBefore(data.transitions, 999000, true) == -1 by {
      LastIsUnique(data.transitions, 999000, true, -1);
    }
    assert Late(data, 999000) == 3600;
    LocalRoundTripSpaced(data, 999000);
  }
}
