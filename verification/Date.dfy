/** Gregorian calendar dates and Julian day numbers. */
module Dates {
  import opened CInt

  datatype YearMonthDay = YearMonthDay(year: int, month: int, day: int)

  function GetJulianDayNumber(year: int, month: int, day: int): int {
    var a := Quot(14 - month, 12);
    var y := year + 4800 - a;
    var m := month + 12 * a - 3;
    day + Quot(153 * m + 2, 5) + y * 365 + Quot(y, 4) - Quot(y, 100) + Quot(y, 400) - 32045
  }

  function GetYearMonthDay(julianDayNumber: int): YearMonthDay {
    var a := julianDayNumber + 32044;
    var b := Quot(4 * a + 3, 146097);
    var c := a - Quot(b * 146097, 4);
    var d := Quot(4 * c + 3, 1461);
    var e := c - Quot(1461 * d, 4);
    var m := Quot(5 * e + 2, 153);
    YearMonthDay(b * 100 + d - 4800 + Quot(m, 10),
                 m + 3 - 12 * Quot(m, 10),
                 e - Quot(153 * m + 2, 5) + 1)
  }

  function DayNumber(d: YearMonthDay): int {
    GetJulianDayNumber(d.year, d.month, d.day)
  }

  /** `Date::weekDay`, with Sunday as 0. */
  function WeekDay(julianDayNumber: int): int {
    Rem(julianDayNumber + 1, 7)
  }

  /** The first day number the closed forms are meant for, 1 March -4800. */
  const FIRST_DAY := -32044

  // ------------------------------------------------------------------
  // The calendar itself, defined without day numbers.

  predicate IsLeapYear(year: int) {
    year % 4 == 0 && (year % 100 != 0 || year % 400 == 0)
  }

  function DaysInMonth(year: int, month: int): int {
    if month == 2 then (if IsLeapYear(year) then 29 else 28)
    else if month == 4 || month == 6 || month == 9 || month == 11 then 30
    else 31
  }

  predicate ValidDate(d: YearMonthDay) {
    1 <= d.month <= 12 && 1 <= d.day <= DaysInMonth(d.year, d.month)
  }

  /** Not before 1 March -4800. */
  predicate InEra(d: YearMonthDay) {
    d.year > -4800 || (d.year == -4800 && d.month >= 3)
  }

  function NextDay(d: YearMonthDay): YearMonthDay {
    if d.day < DaysInMonth(d.year, d.month) then d.(day := d.day + 1)
    else if d.month < 12 then YearMonthDay(d.year, d.month + 1, 1)
    else YearMonthDay(d.year + 1, 1, 1)
  }

  predicate Earlier(d: YearMonthDay, e: YearMonthDay) {
    d.year < e.year || (d.year == e.year && (d.month < e.month || (d.month == e.month && d.day < e.day)))
  }

  // ------------------------------------------------------------------
  // Years that start in March: century b, year d of the century, day e of the year.

  /** Days before the first of the m-th month after March. */
  function DaysBefore(m: int): int
    requires 0 <= m < 12
  {
    [0, 31, 61, 92, 122, 153, 184, 214, 245, 275, 306, 337][m]
  }

  lemma MonthFormula(m: int)
    requires 0 <= m < 12
    ensures Quot(153 * m + 2, 5) == DaysBefore(m)
  {
  }

  lemma MonthInverse(m: int, e: int)
    requires 0 <= m < 12
    requires DaysBefore(m) <= e <= 365
    requires m < 11 ==> e < DaysBefore(m + 1)
    ensures Quot(5 * e + 2, 153) == m
  {
    assert m in [0, 1, 2, 3, 4, 5, 6, 7, 8, 9, 10, 11];
  }

  /** The year length of the March year 100 * b + d, which ends in the February of the next civil year. */
  function MarchYearLength(b: int, d: int): int
    requires b >= 0 && 0 <= d < 100
  {
    if d % 4 == 3 && (d != 99 || b % 4 == 3) then 366 else 365
  }

  lemma CenturyForm(b: int, d: int)
    requires b >= 0 && 0 <= d < 100
    ensures var y := 100 * b + d;
            y * 365 + y / 4 - y / 100 + y / 400 == 36524 * b + b / 4 + 365 * d + d / 4
  {
    var y := 100 * b + d;
    assert y / 100 == b;
    assert y / 4 == 25 * b + d / 4;
    assert y / 400 == b / 4;
  }

  lemma MarchLeapYear(b: int, d: int)
    requires b >= 0 && 0 <= d < 100
    ensures MarchYearLength(b, d) == if IsLeapYear(100 * b + d - 4800 + 1) then 366 else 365
  {
    var z := 100 * (b - 48) + (d + 1);
    assert z == 100 * b + d - 4800 + 1;
    if d == 99 {
      assert z == 100 * (b - 47);
      QuadCentury(b - 47);
    } else {
      ModuloFour(b - 48, d + 1);
      ModuloHundred(b - 48, d + 1);
    }
  }

  lemma ModuloFour(k: int, r: int)
    ensures (100 * k + r) % 4 == r % 4
  {
    var q := 25 * k + r / 4;
    assert 100 * k + r == 4 * q + r % 4;
  }

  lemma ModuloHundred(k: int, r: int)
    requires 0 <= r < 100
    ensures (100 * k + r) % 100 == r
  {
  }

  lemma QuadCentury(k: int)
    ensures (100 * k) % 4 == 0 && (100 * k) % 100 == 0 && ((100 * k) % 400 == 0 <==> k % 4 == 0)
  {
    ModuloFour(k, 0);
    ModuloHundred(k, 0);
    ModuloFourHundred(k / 4, k % 4);
  }

  lemma ModuloFourHundred(q: int, r: int)
    requires 0 <= r < 4
    ensures (100 * (4 * q + r)) % 400 == 100 * r
  {
    var x := 100 * (4 * q + r);
    assert x == 400 * q + 100 * r;
  }

  lemma CycleTerms(b: int, d: int)
    ensures (b * 146097) / 4 == 36524 * b + b / 4
    ensures (1461 * d) / 4 == 365 * d + d / 4
  {
  }

  /** The two nested divisions find the century and the year of any day offset. */
  lemma CenturyInverse(b: int, d: int, e: int)
    requires b >= 0 && 0 <= d < 100 && 0 <= e < MarchYearLength(b, d)
    ensures var a := 36524 * b + b / 4 + 365 * d + d / 4 + e;
            (4 * a + 3) / 146097 == b && (4 * (365 * d + d / 4 + e) + 3) / 1461 == d
  {
  }

  /** Conversely every day offset is some day of some March year. */
  lemma DayOffsetForm(a: int) returns (b: int, d: int, e: int)
    requires a >= 0
    ensures b >= 0 && 0 <= d < 100 && 0 <= e < MarchYearLength(b, d)
    ensures a == 36524 * b + b / 4 + 365 * d + d / 4 + e
  {
    b := (4 * a + 3) / 146097;
    var c := a - (36524 * b + b / 4);
    assert 0 <= c <= 36524 && (c == 36524 ==> b % 4 == 3);
    d := (4 * c + 3) / 1461;
    e := c - (365 * d + d / 4);
  }

  lemma MonthOfDay(e: int) returns (m: int)
    requires 0 <= e <= 365
    ensures 0 <= m < 12 && DaysBefore(m) <= e && (m < 11 ==> e < DaysBefore(m + 1))
  {
    m := 0;
    while m < 11 && DaysBefore(m + 1) <= e
      invariant 0 <= m < 12 && DaysBefore(m) <= e
    {
      m := m + 1;
    }
  }

  /** The civil date with the given March-year coordinates. */
  function FromCoordinates(b: int, d: int, m: int, day: int): YearMonthDay {
    YearMonthDay(100 * b + d - 4800 + (if m >= 10 then 1 else 0), if m >= 10 then m - 9 else m + 3, day)
  }

  predicate Coordinates(b: int, d: int, m: int, day: int) {
    && b >= 0 && 0 <= d < 100 && 0 <= m < 12
    && day >= 1 && DaysBefore(m) + day - 1 < MarchYearLength(b, d)
    && (m < 11 ==> DaysBefore(m) + day - 1 < DaysBefore(m + 1))
  }

  function DayAt(b: int, d: int, m: int, day: int): int
    requires Coordinates(b, d, m, day)
  {
    FIRST_DAY + 36524 * b + b / 4 + 365 * d + d / 4 + DaysBefore(m) + day - 1
  }

  lemma CoordinatesOfDate(d: YearMonthDay) returns (b: int, yy: int, m: int)
    requires ValidDate(d) && InEra(d)
    ensures Coordinates(b, yy, m, d.day) && FromCoordinates(b, yy, m, d.day) == d
  {
    var a := if d.month <= 2 then 1 else 0;
    var y := d.year + 4800 - a;
    b, yy, m := y / 100, y % 100, d.month + 12 * a - 3;
    assert 100 * b + yy == y;
    MarchLeapYear(b, yy);
    assert m == 11 ==> d.year == 100 * b + yy - 4800 + 1;
  }

  lemma CoordinatesValid(b: int, d: int, m: int, day: int)
    requires Coordinates(b, d, m, day)
    ensures ValidDate(FromCoordinates(b, d, m, day)) && InEra(FromCoordinates(b, d, m, day))
  {
    MarchLeapYear(b, d);
    assert m in [0, 1, 2, 3, 4, 5, 6, 7, 8, 9, 10, 11];
  }

  lemma CoordinatesDayNumber(b: int, d: int, m: int, day: int)
    requires Coordinates(b, d, m, day)
    ensures DayNumber(FromCoordinates(b, d, m, day)) == DayAt(b, d, m, day)
  {
    var date := FromCoordinates(b, d, m, day);
    var y := 100 * b + d;
    assert Quot(14 - date.month, 12) == if m >= 10 then 1 else 0;
    MonthFormula(m);
    CenturyForm(b, d);
    assert Quot(y, 4) == y / 4 && Quot(y, 100) == y / 100 && Quot(y, 400) == y / 400;
  }

  /** The straight-line computation of `GetYearMonthDay`, given the value of each division. */
  lemma FollowSteps(j: int, b: int, d: int, e: int, m: int)
    requires j >= FIRST_DAY && b >= 0 && d >= 0 && e >= 0 && 0 <= m < 12
    requires Quot(4 * (j + 32044) + 3, 146097) == b
    requires Quot(4 * (j + 32044 - Quot(b * 146097, 4)) + 3, 1461) == d
    requires j + 32044 - Quot(b * 146097, 4) - Quot(1461 * d, 4) == e
    requires Quot(5 * e + 2, 153) == m
    requires Quot(153 * m + 2, 5) == DaysBefore(m)
    ensures GetYearMonthDay(j) == FromCoordinates(b, d, m, e - DaysBefore(m) + 1)
  {
  }

  lemma CoordinatesInverse(b: int, d: int, m: int, day: int)
    requires Coordinates(b, d, m, day)
    ensures GetYearMonthDay(DayAt(b, d, m, day)) == FromCoordinates(b, d, m, day)
  {
    var j, e := DayAt(b, d, m, day), DaysBefore(m) + day - 1;
    CenturyInverse(b, d, e);
    CycleTerms(b, d);
    assert Quot(b * 146097, 4) == 36524 * b + b / 4 && Quot(1461 * d, 4) == 365 * d + d / 4;
    MonthInverse(m, e);
    MonthFormula(m);
    FollowSteps(j, b, d, e, m);
  }

  // ------------------------------------------------------------------
  // Main results.

  /** Converting a date to its day number and back returns the date. */
  lemma DateRoundTrip(d: YearMonthDay)
    requires ValidDate(d) && InEra(d)
    ensures GetYearMonthDay(DayNumber(d)) == d
    ensures DayNumber(d) >= FIRST_DAY
  {
    hide GetYearMonthDay, GetJulianDayNumber, Quot;
    var b, yy, m := CoordinatesOfDate(d);
    CoordinatesDayNumber(b, yy, m, d.day);
    CoordinatesInverse(b, yy, m, d.day);
  }

  /** Every day number from the first one on names a date of the calendar, and that date's number is it. */
  lemma DayNumberRoundTrip(j: int)
    requires j >= FIRST_DAY
    ensures ValidDate(GetYearMonthDay(j)) && InEra(GetYearMonthDay(j))
    ensures DayNumber(GetYearMonthDay(j)) == j
  {
    hide GetYearMonthDay, GetJulianDayNumber, Quot;
    var b, d, e := DayOffsetForm(j - FIRST_DAY);
    var m := MonthOfDay(e);
    var day := e - DaysBefore(m) + 1;
    CoordinatesValid(b, d, m, day);
    CoordinatesDayNumber(b, d, m, day);
    CoordinatesInverse(b, d, m, day);
  }

  /** The calendar's next day has the next number, so numbering days counts them. */
  lemma NextDayNumber(d: YearMonthDay)
    requires ValidDate(d) && InEra(d)
    ensures ValidDate(NextDay(d)) && InEra(NextDay(d))
    ensures DayNumber(NextDay(d)) == DayNumber(d) + 1
  {
    hide GetYearMonthDay, GetJulianDayNumber, Quot;
    var b, yy, m := CoordinatesOfDate(d);
    var e := NextDay(d);
    var b', yy', m' := CoordinatesOfDate(e);
    CoordinatesDayNumber(b, yy, m, d.day);
    CoordinatesDayNumber(b', yy', m', e.day);
    DayAtNext(b, yy, m, d.day, b', yy', m', e.day);
  }

  lemma DayAtNext(b: int, d: int, m: int, day: int, b': int, d': int, m': int, day': int)
    requires Coordinates(b, d, m, day) && Coordinates(b', d', m', day')
    requires FromCoordinates(b', d', m', day') == NextDay(FromCoordinates(b, d, m, day))
    ensures DayAt(b', d', m', day') == DayAt(b, d, m, day) + 1
  {
    MarchLeapYear(b, d);
    assert m in [0, 1, 2, 3, 4, 5, 6, 7, 8, 9, 10, 11];
    if m == 11 && day' == 1 {
      assert m' == 0 && 100 * b' + d' == 100 * b + d + 1;
    } else {
      assert 100 * b' + d' == 100 * b + d;
      assert b' == b && d' == d;
    }
  }

  /** `GetYearMonthDay` steps through the calendar one day at a time. */
  lemma NextDate(j: int)
    requires j >= FIRST_DAY
    ensures GetYearMonthDay(j + 1) == NextDay(GetYearMonthDay(j))
  {
    hide GetYearMonthDay, GetJulianDayNumber, Quot;
    DayNumberRoundTrip(j);
    NextDayNumber(GetYearMonthDay(j));
    DateRoundTrip(NextDay(GetYearMonthDay(j)));
  }

  /** Comparing day numbers compares dates (`operator<` on `Date`). */
  lemma DayNumberOrder(d: YearMonthDay, e: YearMonthDay)
    requires ValidDate(d) && InEra(d) && ValidDate(e) && InEra(e)
    ensures Earlier(d, e) <==> DayNumber(d) < DayNumber(e)
  {
    DateRoundTrip(d);
    DateRoundTrip(e);
    if Earlier(d, e) {
      EarlierIsLess(d, e);
    } else if Earlier(e, d) {
      EarlierIsLess(e, d);
    } else {
      assert d == e;
    }
  }

  lemma {:induction false} EarlierIsLess(d: YearMonthDay, e: YearMonthDay)
    requires ValidDate(d) && InEra(d) && ValidDate(e) && InEra(e) && Earlier(d, e)
    ensures DayNumber(d) < DayNumber(e)
    decreases e.year - d.year, 12 - d.month, 31 - d.day
  {
    hide GetYearMonthDay, GetJulianDayNumber, Quot;
    NextDayNumber(d);
    NextEarlier(d, e);
    if NextDay(d) != e {
      EarlierIsLess(NextDay(d), e);
    }
  }

  lemma NextEarlier(d: YearMonthDay, e: YearMonthDay)
    requires ValidDate(d) && ValidDate(e) && Earlier(d, e)
    ensures NextDay(d) == e || Earlier(NextDay(d), e)
  {
  }

  lemma DayAtCycle(b: int, d: int, m: int, day: int)
    requires Coordinates(b, d, m, day)
    ensures Coordinates(b + 4, d, m, day)
    ensures DayAt(b + 4, d, m, day) == DayAt(b, d, m, day) + 146097
  {
  }

  /** The Gregorian cycle: 400 years are 146097 days. */
  lemma GregorianCycle(d: YearMonthDay)
    requires ValidDate(d) && InEra(d)
    ensures var later := d.(year := d.year + 400);
            && ValidDate(later)
            && DayNumber(later) == DayNumber(d) + 146097
  {
    hide GetYearMonthDay, GetJulianDayNumber, Quot;
    var b, yy, m := CoordinatesOfDate(d);
    CoordinatesDayNumber(b, yy, m, d.day);
    assert d.(year := d.year + 400) == FromCoordinates(b + 4, yy, m, d.day);
    CoordinatesValid(b + 4, yy, m, d.day);
    CoordinatesDayNumber(b + 4, yy, m, d.day);
    DayAtCycle(b, yy, m, d.day);
  }

  /** `kJulianDayOf1970_01_01`, a Thursday. */
  lemma UnixEpoch()
    ensures DayNumber(YearMonthDay(1970, 1, 1)) == 2440588
    ensures WeekDay(2440588) == 4
  {
  }

  /** Weekdays advance cyclically through 0..6 exactly from day -1 on; before it the truncated remainder is not
      positive and only every seventh day stays in range. */
  lemma WeekDayRange(j: int)
    ensures 0 <= WeekDay(j) <= 6 <==> j >= -1 || (j + 1) % 7 == 0
    ensures j >= -1 ==> WeekDay(j + 1) == (WeekDay(j) + 1) % 7
    ensures j >= -1 ==> WeekDay(j + 146097) == WeekDay(j)
  {
    assert 146097 == 7 * 20871;
  }

  /** Up to the year 1400000 no intermediate value leaves the range of a 32-bit int, so computing with unbounded
      integers loses nothing there. */
  lemma NoOverflow(d: YearMonthDay)
    requires ValidDate(d) && InEra(d) && d.year <= 1400000
    ensures var y := d.year + 4800; FitsInt32(y * 365 + y / 4)
    ensures var a := DayNumber(d) + 32044; var b := Quot(4 * a + 3, 146097);
            && FitsInt32(DayNumber(d)) && FitsInt32(4 * a + 3) && FitsInt32(b * 146097)
            && var c := a - Quot(b * 146097, 4); var e := c - Quot(1461 * Quot(4 * c + 3, 1461), 4);
               FitsInt32(4 * c + 3) && FitsInt32(1461 * Quot(4 * c + 3, 1461))
               && FitsInt32(5 * e + 2) && FitsInt32(153 * Quot(5 * e + 2, 153) + 2)
  {
    BaseFits(d);
    DateRoundTrip(d);
    SmallSteps(DayNumber(d));
  }

  /** After the century is found, everything is small. */
  lemma SmallSteps(j: int)
    requires j >= FIRST_DAY
    ensures var a := j + 32044; var b := Quot(4 * a + 3, 146097); var c := a - Quot(b * 146097, 4);
            var d := Quot(4 * c + 3, 1461); var e := c - Quot(1461 * d, 4);
            0 <= c <= 36524 && 0 <= d < 100 && 0 <= e <= 365 && 0 <= Quot(5 * e + 2, 153) < 12
  {
    var b, d, e := DayOffsetForm(j - FIRST_DAY);
    var m := MonthOfDay(e);
    CenturyInverse(b, d, e);
    CycleTerms(b, d);
    assert Quot(b * 146097, 4) == 36524 * b + b / 4 && Quot(1461 * d, 4) == 365 * d + d / 4;
    MonthInverse(m, e);
    FollowSmall(j, b, d, e, m);
  }

  lemma FollowSmall(j: int, b: int, d: int, e: int, m: int)
    requires j >= FIRST_DAY && b >= 0 && 0 <= d < 100 && 0 <= e < MarchYearLength(b, d) && 0 <= m < 12
    requires Quot(4 * (j + 32044) + 3, 146097) == b
    requires Quot(4 * (j + 32044 - Quot(b * 146097, 4)) + 3, 1461) == d
    requires j + 32044 - Quot(b * 146097, 4) - Quot(1461 * d, 4) == e
    requires Quot(1461 * d, 4) == 365 * d + d / 4
    requires Quot(5 * e + 2, 153) == m
    ensures var a := j + 32044; var b := Quot(4 * a + 3, 146097); var c := a - Quot(b * 146097, 4);
            var d := Quot(4 * c + 3, 1461); var e := c - Quot(1461 * d, 4);
            0 <= c <= 36524 && 0 <= d < 100 && 0 <= e <= 365 && 0 <= Quot(5 * e + 2, 153) < 12
  {
    hide Quot;
  }

  lemma BaseFits(d: YearMonthDay)
    requires ValidDate(d) && InEra(d) && d.year <= 1400000
    ensures var y := d.year + 4800; FitsInt32(y * 365 + y / 4)
    ensures var a := DayNumber(d) + 32044; var b := Quot(4 * a + 3, 146097);
            && FitsInt32(DayNumber(d)) && FitsInt32(4 * a + 3) && FitsInt32(b * 146097)
  {
    DateRoundTrip(d);
    var a := if d.month <= 2 then 1 else 0;
    var y := d.year + 4800 - a;
    MonthFormula(d.month + 12 * a - 3);
    assert DayNumber(d) + 32044 <= 366 * y + 400;
  }
}
