// Conversions between seconds since 1970 and calendar dates, and the day of the week.

module Calendar {
  datatype Time = Time(year: int, month: int, day: int, hours: int, minutes: int, seconds: int)

  /** The clock's calendar: every fourth year is a leap year. */
  predicate Leap(year: int) { year % 4 == 0 }

  /** The table of month lengths, without leap days. */
  const DAYS: seq<int> := [0, 31, 28, 31, 30, 31, 30, 31, 31, 30, 31, 30, 31]

  function MonthLength(year: int, month: int): int
    requires 1 <= month <= 12
  {
    DAYS[month] + if month == 2 && Leap(year) then 1 else 0
  }

  function YearLength(year: int): int { if Leap(year) then 366 else 365 }

  // ----- counting days one by one -----

  function DaysBeforeYear(year: int): int
    requires year >= 1970
  {
    if year == 1970 then 0 else DaysBeforeYear(year - 1) + YearLength(year - 1)
  }

  function DaysBeforeMonth(year: int, month: int): int
    requires 1 <= month <= 13
  {
    if month == 1 then 0 else DaysBeforeMonth(year, month - 1) + MonthLength(year, month - 1)
  }

  /** The number of a day, 1 January 1970 being day 0. */
  function DayNumber(year: int, month: int, day: int): int
    requires year >= 1970 && 1 <= month <= 12
  {
    DaysBeforeYear(year) + DaysBeforeMonth(year, month) + day - 1
  }

  predicate ValidDate(year: int, month: int, day: int) {
    year >= 1970 && 1 <= month <= 12 && 1 <= day <= MonthLength(year, month)
  }

  predicate ValidTime(t: Time) {
    && ValidDate(t.year, t.month, t.day)
    && 0 <= t.hours < 24 && 0 <= t.minutes < 60 && 0 <= t.seconds < 60
  }

  /** The seconds since the beginning of 1970. */
  function Epoch(t: Time): int
    requires t.year >= 1970 && 1 <= t.month <= 12
  {
    DayNumber(t.year, t.month, t.day) * 86400 + t.hours * 3600 + t.minutes * 60 + t.seconds
  }

  /** The program's count of leap years. */
  lemma {:induction false} YearsClosedForm(year: int)
    requires year >= 1970
    ensures DaysBeforeYear(year) == 365 * (year - 1970) + (year - 1970 + 1) / 4
  {
    if year > 1970 {
      YearsClosedForm(year - 1);
    }
  }

  method CalculateEpochTime(ts: Time) returns (r: int)
    requires ts.year >= 1970 && 1 <= ts.month <= 12
    ensures r == Epoch(ts)
  {
    var year := ts.year - 1970;
    var days := 365 * year + (ts.day - 1);
    var leapYears := ((year - 1) + 2) / 4;
    days := days + leapYears;
    YearsClosedForm(ts.year);
    var month := 1;
    while month < ts.month
      invariant 1 <= month <= ts.month
      invariant days == DaysBeforeYear(ts.year) + DaysBeforeMonth(ts.year, month) + ts.day - 1
    {
      days := days + DAYS[month];
      if month == 2 && ts.year % 4 == 0 {
        days := days + 1;
      }
      month := month + 1;
    }
    return days * 86400 + ts.hours * 3600 + ts.minutes * 60 + ts.seconds;
  }

  /** A leap day comes out as day 0 of March. */
  predicate MarchZero(t: Time) { t.month == 3 && t.day == 0 && Leap(t.year) }

  lemma YearIsItsMonths(year: int)
    ensures DaysBeforeMonth(year, 13) == YearLength(year)
  {
    var leap := YearLength(year) - 365;
    assert DaysBeforeMonth(year, 1) == 0;
    assert DaysBeforeMonth(year, 2) == 31;
    assert DaysBeforeMonth(year, 3) == 59 + leap;
    assert DaysBeforeMonth(year, 4) == 90 + leap;
    assert DaysBeforeMonth(year, 5) == 120 + leap;
    assert DaysBeforeMonth(year, 6) == 151 + leap;
    assert DaysBeforeMonth(year, 7) == 181 + leap;
    assert DaysBeforeMonth(year, 8) == 212 + leap;
    assert DaysBeforeMonth(year, 9) == 243 + leap;
    assert DaysBeforeMonth(year, 10) == 273 + leap;
    assert DaysBeforeMonth(year, 11) == 304 + leap;
    assert DaysBeforeMonth(year, 12) == 334 + leap;
  }

  /** The date and time of day at a number of seconds since the beginning of 1970. */
  method GetHumanTimeFromEpoch(utime: int) returns (out: Time)
    requires utime >= 0
    ensures out.year >= 1970 && 1 <= out.month <= 12 && Epoch(out) == utime
    ensures 0 <= out.hours < 24 && 0 <= out.minutes < 60 && 0 <= out.seconds < 60
    ensures MarchZero(out) || (ValidDate(out.year, out.month, out.day) && !(out.month == 2 && out.day == 29))
  {
    hide DaysBeforeYear, DaysBeforeMonth;
    var days, secs := utime / 86400, utime % 86400;
    ghost var all := days;
    var hours, minutes, seconds := secs / 3600, secs / 60 % 60, secs % 60;
    TimeOfDay(secs);
    FirstYear();
    var year := 1970;
    while days >= 365 + (if year % 4 == 0 then 1 else 0)
      invariant year >= 1970 && days >= 0 && all == DaysBeforeYear(year) + days
      decreases days
    {
      NextYear(year);
      days := days - (365 + (if year % 4 == 0 then 1 else 0));
      year := year + 1;
    }
    YearIsItsMonths(year);
    NextMonth(year, 1);
    var month := 1;
    while days >= DAYS[month]
      invariant 1 <= month <= 12 && days >= (if month == 3 && Leap(year) then -1 else 0)
      invariant all == DaysBeforeYear(year) + DaysBeforeMonth(year, month) + days
      invariant days < YearLength(year) - DaysBeforeMonth(year, month)
      decreases 12 - month
    {
      LastMonth(year, month, days);
      NextMonth(year, month);
      days := days - DAYS[month];
      if month == 2 && year % 4 == 0 {
        days := days - 1;
      }
      month := month + 1;
    }
    out := Time(year, month, days + 1, hours, minutes, seconds);
  }

  lemma FirstYear()
    ensures DaysBeforeYear(1970) == 0
  {
  }

  lemma NextYear(year: int)
    requires year >= 1970
    ensures DaysBeforeYear(year + 1) == DaysBeforeYear(year) + YearLength(year)
  {
  }

  lemma NextMonth(year: int, month: int)
    requires 1 <= month <= 12
    ensures DaysBeforeMonth(year, 1) == 0
    ensures DaysBeforeMonth(year, month + 1) == DaysBeforeMonth(year, month) + MonthLength(year, month)
  {
  }

  lemma TimeOfDay(secs: int)
    requires 0 <= secs < 86400
    ensures secs == (secs / 3600) * 3600 + (secs / 60 % 60) * 60 + secs % 60
    ensures 0 <= secs / 3600 < 24 && 0 <= secs / 60 % 60 < 60 && 0 <= secs % 60 < 60
  {
  }

  /** Nothing is left over after December. */
  lemma LastMonth(year: int, month: int, days: int)
    requires 1 <= month <= 12 && days < YearLength(year) - DaysBeforeMonth(year, month) && days >= DAYS[month]
    ensures month < 12
  {
    if month == 12 {
      YearIsItsMonths(year);
    }
  }

  // ----- the two conversions undo each other -----

  lemma {:induction false} MonthsInOrder(year: int, m: int, n: int)
    requires 1 <= m < n <= 13
    ensures DaysBeforeMonth(year, m) + MonthLength(year, m) <= DaysBeforeMonth(year, n)
    decreases n
  {
    if m < n - 1 {
      MonthsInOrder(year, m, n - 1);
    }
  }

  lemma {:induction false} YearsInOrder(y: int, z: int)
    requires 1970 <= y < z
    ensures DaysBeforeYear(y) + YearLength(y) <= DaysBeforeYear(z)
    decreases z
  {
    if y < z - 1 {
      YearsInOrder(y, z - 1);
    }
  }

  /** A day of a year lies in the year. */
  lemma WithinYear(year: int, month: int, day: int)
    requires year >= 1970 && 1 <= month <= 12 && 0 <= day <= MonthLength(year, month) && (day == 0 ==> month > 1)
    ensures DaysBeforeYear(year) <= DayNumber(year, month, day) < DaysBeforeYear(year) + YearLength(year)
  {
    MonthsInOrder(year, month, 13);
    YearIsItsMonths(year);
    if month > 1 { MonthsInOrder(year, 1, month); }
  }

  /** Different dates have different numbers. */
  lemma DatesDiffer(y: int, m: int, d: int, z: int, n: int, e: int)
    requires ValidDate(y, m, d) && ValidDate(z, n, e) && DayNumber(y, m, d) == DayNumber(z, n, e)
    ensures y == z && m == n && d == e
  {
    WithinYear(y, m, d);
    WithinYear(z, n, e);
    if y < z { YearsInOrder(y, z); }
    if z < y { YearsInOrder(z, y); }
    if y == z && m < n { MonthsInOrder(y, m, n); }
    if y == z && n < m { MonthsInOrder(y, n, m); }
  }

  /** A time is known by its second. */
  lemma SameSecond(t: Time, u: Time)
    requires ValidTime(t) && ValidTime(u) && Epoch(t) == Epoch(u)
    ensures t == u
  {
    var p, q := t.hours * 3600 + t.minutes * 60 + t.seconds, u.hours * 3600 + u.minutes * 60 + u.seconds;
    assert DayNumber(t.year, t.month, t.day) * 86400 + p == DayNumber(u.year, u.month, u.day) * 86400 + q;
    DatesDiffer(t.year, t.month, t.day, u.year, u.month, u.day);
  }

  /** Converting a valid time to seconds and back gives the time, exactly when it is not on a leap day. */
  method ThereAndBack(t: Time) returns (u: Time)
    requires ValidTime(t)
    ensures u == t <==> !(t.month == 2 && t.day == 29)
    ensures t.month == 2 && t.day == 29 ==> u == t.(month := 3, day := 0)
  {
    var utime := CalculateEpochTime(t);
    EpochNotNegative(t);
    u := GetHumanTimeFromEpoch(utime);
    if MarchZero(u) {
      var v := u.(month := 2, day := 29);
      assert DaysBeforeMonth(u.year, 3) == DaysBeforeMonth(u.year, 2) + 29;
      SameSecond(t, v);
    } else {
      SameSecond(t, u);
    }
  }

  /** Converting seconds to a time and back gives the seconds. */
  method BackAndThere(utime: int) returns (r: int)
    requires utime >= 0
    ensures r == utime
  {
    var t := GetHumanTimeFromEpoch(utime);
    r := CalculateEpochTime(t);
  }

  lemma EpochNotNegative(t: Time)
    requires ValidTime(t)
    ensures Epoch(t) >= 0
  {
    WithinYear(t.year, t.month, t.day);
    YearsClosedForm(t.year);
  }

  /** Up to the end of 2037 the seconds fit a signed 32-bit integer. */
  lemma FitsUntil2038(t: Time)
    requires ValidTime(t) && t.year < 2038
    ensures 0 <= Epoch(t) < 0x8000_0000
  {
    EpochNotNegative(t);
    WithinYear(t.year, t.month, t.day);
    YearsClosedForm(t.year);
  }

  // ----- the day of the week -----

  /** The Gregorian calendar. */
  predicate GregorianLeap(year: int) { year % 4 == 0 && (year % 100 != 0 || year % 400 == 0) }

  function GregorianMonth(year: int, month: int): int
    requires 1 <= month <= 12
  {
    DAYS[month] + if month == 2 && GregorianLeap(year) then 1 else 0
  }

  datatype Date = Date(year: int, month: int, day: int)

  predicate Gregorian(d: Date) {
    d.year >= 1 && 1 <= d.month <= 12 && 1 <= d.day <= GregorianMonth(d.year, d.month)
  }

  function Tomorrow(d: Date): (r: Date)
    requires Gregorian(d)
    ensures Gregorian(r)
  {
    if d.day < GregorianMonth(d.year, d.month) then d.(day := d.day + 1)
    else if d.month < 12 then Date(d.year, d.month + 1, 1)
    else Date(d.year + 1, 1, 1)
  }

  /** Months count from March; January and February belong to the year before. */
  function YearDays(y: int): int { 365 * y + y / 4 - y / 100 + y / 400 }

  function Shift(month: int): int { (14 - month) / 12 }

  function MonthDays(month: int): int { (153 * (month + 12 * Shift(month) - 3) + 2) / 5 }

  /** The running number of a day. */
  function Serial(d: Date): int {
    d.day + MonthDays(d.month) + YearDays(d.year + 4800 - Shift(d.month)) - 32045
  }

  function WeekDay(d: Date): int { (Serial(d) % 7 + 1) % 7 }

  method TmGetWeekDay(d: Date) returns (r: int)
    requires Gregorian(d)
    ensures r == WeekDay(d) && 0 <= r < 7
  {
    var day, month, year := d.day, d.month, d.year;
    var wday := (day + ((153 * (month + 12 * ((14 - month) / 12) - 3) + 2) / 5)
                 + (365 * (year + 4800 - ((14 - month) / 12)))
                 + ((year + 4800 - ((14 - month) / 12)) / 4)
                 - ((year + 4800 - ((14 - month) / 12)) / 100)
                 + ((year + 4800 - ((14 - month) / 12)) / 400)
                 - 32045) % 7;
    return (wday + 1) % 7;
  }

  lemma YearDaysStep(y: int)
    ensures YearDays(y) == YearDays(y - 1) + 365 + (if GregorianLeap(y) then 1 else 0)
  {
    assert y / 4 == (y - 1) / 4 + (if y % 4 == 0 then 1 else 0);
    assert y / 100 == (y - 1) / 100 + (if y % 100 == 0 then 1 else 0);
    assert y / 400 == (y - 1) / 400 + (if y % 400 == 0 then 1 else 0);
  }

  /** From one month to the next, the first of March starting a new year. */
  lemma MonthStep(year: int, month: int)
    requires 1 <= month < 12
    ensures Shift(month) == (if month <= 2 then 1 else 0)
    ensures month != 2 ==> MonthDays(month + 1) == MonthDays(month) + GregorianMonth(year, month)
    ensures MonthDays(3) == 0 && MonthDays(2) == 337
  {
  }

  lemma SerialAdvances(d: Date)
    requires Gregorian(d)
    ensures Serial(Tomorrow(d)) == Serial(d) + 1
  {
    hide YearDays, MonthDays, Shift, GregorianLeap;
    if d.day == GregorianMonth(d.year, d.month) {
      if d.month < 12 {
        MonthStep(d.year, d.month);
        MonthStep(d.year, if d.month + 1 < 12 then d.month + 1 else 1);
        LastShift();
        if d.month == 2 {
          YearDaysStep(d.year + 4800);
          SameLeap(d.year);
        }
      } else {
        MonthStep(d.year, 1);
        LastShift();
      }
    }
  }

  lemma LastShift()
    ensures Shift(12) == 0 && MonthDays(12) == 275 && MonthDays(1) == 306
  {
  }

  lemma SameLeap(year: int)
    ensures GregorianLeap(year + 4800) <==> GregorianLeap(year)
  {
  }

  /** The day of the week advances by one from each day to the next, over months, years and leap days. */
  lemma WeekDayAdvances(d: Date)
    requires Gregorian(d)
    ensures WeekDay(Tomorrow(d)) == (WeekDay(d) + 1) % 7
  {
    hide Serial;
    SerialAdvances(d);
  }

  function DaysAfter(d: Date, n: nat): (r: Date)
    requires Gregorian(d)
    ensures Gregorian(r)
  {
    if n == 0 then d else Tomorrow(DaysAfter(d, n - 1))
  }

  lemma NextDay(n: int)
    ensures (n % 7 + 1) % 7 == (1 + n) % 7
  {
  }

  lemma FirstDay()
    ensures WeekDay(Date(1, 1, 1)) == 1
  {
  }

  /** So it is right for every date from 1 January of the year 1, a Monday, on. */
  lemma {:induction false} WeekDayRight(n: nat)
    ensures WeekDay(DaysAfter(Date(1, 1, 1), n)) == (1 + n) % 7
  {
    hide Serial, Tomorrow, WeekDay;
    if n == 0 {
      FirstDay();
    } else {
      WeekDayRight(n - 1);
      WeekDayAdvances(DaysAfter(Date(1, 1, 1), n - 1));
      NextDay(n);
    }
  }
}
