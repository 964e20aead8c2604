/**
 * The proleptic Gregorian calendar by day numbers (day 0 is Monday, 1 January of year 1),
 * and the week numbering of section 4.1.4 of ISO 8601:2004.
 */
module Calendar {
  datatype Date = Date(year: int, month: int, day: int)

  predicate Leap(y: int) {
    y % 4 == 0 && (y % 100 != 0 || y % 400 == 0)
  }

  function DaysInYear(y: int): int { if Leap(y) then 366 else 365 }

  function DaysInMonth(y: int, m: int): int {
    if m == 2 then (if Leap(y) then 29 else 28)
    else if m in {4, 6, 9, 11} then 30 else 31
  }

  predicate ValidMonth(m: int) { 1 <= m <= 12 }

  predicate Valid(d: Date) {
    ValidMonth(d.month) && 1 <= d.day <= DaysInMonth(d.year, d.month)
  }

  /** The day number of 1 January. */
  function YearStart(y: int): int {
    365 * (y - 1) + (y - 1) / 4 - (y - 1) / 100 + (y - 1) / 400
  }

  /** The days of the year before month m; month 13 stands for the whole year. */
  function DaysBefore(y: int, m: int): int
    requires 1 <= m <= 13
  {
    [0, 31, 59, 90, 120, 151, 181, 212, 243, 273, 304, 334, 365][m - 1] + (if m > 2 && Leap(y) then 1 else 0)
  }

  function MonthStart(y: int, m: int): int
    requires ValidMonth(m)
  {
    YearStart(y) + DaysBefore(y, m)
  }

  function DayNumber(d: Date): int
    requires Valid(d)
  {
    MonthStart(d.year, d.month) + d.day - 1
  }

  /** Sunday is 0, as in Go. */
  function Weekday(n: int): int { (n + 1) % 7 }

  function NextMonth(y: int, m: int): (int, int) {
    if m == 12 then (y + 1, 1) else (y, m + 1)
  }

  function PrevMonth(y: int, m: int): (int, int) {
    if m == 1 then (y - 1, 12) else (y, m - 1)
  }

  /** A UTC clock reading. */
  datatype Clock = Clock(date: Date, second: nat)

  predicate ValidClock(t: Clock) { Valid(t.date) && t.second < DAY }

  const DAY: nat := 86400

  /** Seconds since the midnight that begins day 0. */
  function Instant(t: Clock): int
    requires ValidClock(t)
  {
    DAY * DayNumber(t.date) + t.second
  }

  /** The Gregorian rules: thirty days, thirty-one, and February by the leap year. */
  lemma MonthLengths(y: int, m: int)
    ensures m == 1 || m == 3 || m == 5 || m == 7 || m == 8 || m == 10 || m == 12 ==> DaysInMonth(y, m) == 31
    ensures m == 4 || m == 6 || m == 9 || m == 11 ==> DaysInMonth(y, m) == 30
    ensures m == 2 ==> DaysInMonth(y, m) == if y % 4 == 0 && (y % 100 != 0 || y % 400 == 0) then 29 else 28
  {
  }

  /** Days follow one another within a month. */
  lemma DaysCount(d: Date)
    requires Valid(d)
    ensures d.day == 1 ==> DayNumber(d) == MonthStart(d.year, d.month)
    ensures Valid(Date(d.year, d.month, d.day + 1)) ==> DayNumber(Date(d.year, d.month, d.day + 1)) == DayNumber(d) + 1
  {
    hide MonthStart;
  }

  /** The Unix epoch is a Thursday, and weekdays follow one another. */
  lemma EpochIsThursday(n: int)
    ensures DayNumber(Date(1970, 1, 1)) == 719162 && Weekday(719162) == 4
    ensures Weekday(n + 1) == if Weekday(n) == 6 then 0 else Weekday(n) + 1
  {
    assert YearStart(1970) == 365 * 1969 + 492 - 19 + 4;
  }

  lemma Quarter(y: int)
    ensures y / 4 == (y - 1) / 4 + (if y % 4 == 0 then 1 else 0)
  {
  }

  lemma Century(y: int)
    ensures y / 100 == (y - 1) / 100 + (if y % 100 == 0 then 1 else 0)
  {
  }

  lemma FourCenturies(y: int)
    ensures y / 400 == (y - 1) / 400 + (if y % 400 == 0 then 1 else 0)
  {
  }

  lemma CenturyOfFour(y: int)
    ensures y % 400 == 0 ==> y % 100 == 0
  {
    var q := y / 400;
    if y % 400 == 0 {
      assert y == 100 * (4 * q);
    }
  }

  lemma QuarterOfCentury(y: int)
    ensures y % 100 == 0 ==> y % 4 == 0
  {
    var q := y / 100;
    if y % 100 == 0 {
      assert y == 4 * (25 * q);
    }
  }

  lemma LeapDays(y: int)
    ensures DaysInYear(y) == 365 + (if y % 4 == 0 then 1 else 0) - (if y % 100 == 0 then 1 else 0) + (if y % 400 == 0 then 1 else 0)
  {
    CenturyOfFour(y);
    QuarterOfCentury(y);
  }

  lemma YearStep(y: int)
    ensures YearStart(y + 1) == YearStart(y) + DaysInYear(y)
  {
    hide DaysInYear;
    Quarter(y);
    Century(y);
    FourCenturies(y);
    LeapDays(y);
  }

  /** Months tile the years: each month ends where the next begins. */
  lemma MonthStep(y: int, m: int)
    requires ValidMonth(m)
    ensures var (y', m') := NextMonth(y, m);
            ValidMonth(m') && MonthStart(y', m') == MonthStart(y, m) + DaysInMonth(y, m)
  {
    if m == 12 {
      YearStep(y);
    }
  }

  /** A day lies in its month. */
  lemma DayInMonth(d: Date)
    requires Valid(d)
    ensures MonthStart(d.year, d.month) <= DayNumber(d) < MonthStart(d.year, d.month) + DaysInMonth(d.year, d.month)
  {
  }

  /** A day lies in its year. */
  lemma DayInYear(d: Date)
    requires Valid(d)
    ensures YearStart(d.year) <= DayNumber(d) < YearStart(d.year + 1)
  {
    YearStep(d.year);
  }

  /** Two months in a row last at most 62 days. */
  lemma TwoMonths(y: int, m: int)
    requires ValidMonth(m)
    ensures var (y1, m1) := NextMonth(y, m);
            var (y2, m2) := NextMonth(y1, m1);
            ValidMonth(m1) && ValidMonth(m2) && MonthStart(y2, m2) <= MonthStart(y, m) + 62
  {
    MonthStep(y, m);
    var (y1, m1) := NextMonth(y, m);
    MonthStep(y1, m1);
  }

  lemma {:induction false} YearsInOrder(y: int, z: int)
    requires y <= z
    ensures YearStart(y) <= YearStart(z)
    decreases z - y
  {
    if y < z {
      YearStep(y);
      YearsInOrder(y + 1, z);
    }
  }

  lemma {:induction false} MonthsInOrder(y: int, m: int, n: int)
    requires 1 <= m <= n <= 13
    ensures DaysBefore(y, m) <= DaysBefore(y, n)
    decreases n - m
  {
    if m < n {
      MonthsInOrder(y, m + 1, n);
    }
  }

  /** The last day of a month lies before every later month. */
  lemma LaterMonth(d: Date, y: int, m: int)
    requires Valid(d) && ValidMonth(m) && (d.year < y || (d.year == y && d.month < m))
    ensures DayNumber(d) < MonthStart(y, m)
  {
    if d.year < y {
      DayInYear(d);
      YearsInOrder(d.year + 1, y);
      MonthsInOrder(y, 1, m);
    } else {
      DayInMonth(d);
      MonthStep(d.year, d.month);
      MonthsInOrder(y, d.month + 1, m);
    }
  }

  /** The days of a month are those whose dates name it. */
  lemma MonthOfDay(d: Date, y: int, m: int)
    requires Valid(d) && ValidMonth(m)
    ensures MonthStart(y, m) <= DayNumber(d) < MonthStart(y, m) + DaysInMonth(y, m) <==> d.year == y && d.month == m
  {
    if d.year < y || (d.year == y && d.month < m) {
      LaterMonth(d, y, m);
    } else if d.year == y && d.month == m {
      DayInMonth(d);
    } else {
      LaterMonth(Date(y, m, DaysInMonth(y, m)), d.year, d.month);
      DayInMonth(d);
    }
  }

  /** Different dates have different day numbers. */
  lemma DateOfDay(d: Date, e: Date)
    requires Valid(d) && Valid(e)
    ensures DayNumber(d) == DayNumber(e) <==> d == e
  {
    DayInMonth(d);
    MonthOfDay(e, d.year, d.month);
  }

  // ---- ISO weeks ------------------------------------------------------------

  /** The Thursday of the week of day n; weeks begin on Monday. */
  function Thursday(n: int): int { n - n % 7 + 3 }

  /** A week belongs to the year its Thursday lies in. */
  function IsoYear(d: Date): int
    requires Valid(d)
  {
    var t := Thursday(DayNumber(d));
    if t < YearStart(d.year) then d.year - 1
    else if t >= YearStart(d.year + 1) then d.year + 1
    else d.year
  }

  function IsoWeek(d: Date): int
    requires Valid(d)
  {
    (Thursday(DayNumber(d)) - YearStart(IsoYear(d))) / 7 + 1
  }

  function Jan4(y: int): int { DayNumber(Date(y, 1, 4)) }

  function MondayOf(n: int): int { n - n % 7 }

  /** The Monday of week 1: the week that contains 4 January. */
  function FirstMonday(y: int): int { MondayOf(Jan4(y)) }

  /** A year has 52 or 53 weeks. */
  lemma WeeksInYear(y: int)
    ensures YearStart(y) - 3 <= FirstMonday(y) <= YearStart(y) + 3
    ensures FirstMonday(y + 1) - FirstMonday(y) == 364 || FirstMonday(y + 1) - FirstMonday(y) == 371
  {
    YearStep(y);
    MondayGap(YearStart(y) + 3, YearStart(y + 1) + 3);
  }

  lemma MondayGap(a: int, b: int)
    requires b == a + 365 || b == a + 366
    ensures MondayOf(b) - MondayOf(a) == 364 || MondayOf(b) - MondayOf(a) == 371
  {
  }

  /** The week of day n, counted by its Thursday in a year that runs from `start` to `next`. */
  lemma WeekByThursday(n: int, start: int, next: int)
    requires start <= Thursday(n) < next && (next == start + 365 || next == start + 366)
    ensures MondayOf(start + 3) <= n < MondayOf(next + 3)
    ensures var w := (Thursday(n) - start) / 7 + 1;
            1 <= w <= 53 && MondayOf(start + 3) + 7 * (w - 1) <= n < MondayOf(start + 3) + 7 * w
  {
  }

  /** Day n of the year from `start` to `next`: its Thursday lies in that year or in a neighbour of it. */
  lemma ThursdayNear(n: int, start: int, next: int)
    requires start <= n < next
    ensures start - 3 <= Thursday(n) < next + 3
  {
  }

  lemma YearLength(y: int)
    ensures YearStart(y + 1) == YearStart(y) + 365 || YearStart(y + 1) == YearStart(y) + 366
  {
    YearStep(y);
  }

  lemma ThursdayInYear(d: Date)
    requires Valid(d)
    ensures YearStart(IsoYear(d)) <= Thursday(DayNumber(d)) < YearStart(IsoYear(d) + 1)
  {
    hide YearStart;
    DayInYear(d);
    ThursdayNear(DayNumber(d), YearStart(d.year), YearStart(d.year + 1));
    YearLength(d.year - 1);
    YearLength(d.year + 1);
  }

  lemma FirstMondayIs(y: int)
    ensures FirstMonday(y) == MondayOf(YearStart(y) + 3) && FirstMonday(y) % 7 == 0
  {
    hide YearStart;
  }

  /**
   * Year and week by the Thursday agree with numbering the weeks from the one that
   * contains 4 January.
   */
  lemma IsoWeekIs(d: Date)
    requires Valid(d)
    ensures FirstMonday(IsoYear(d)) <= DayNumber(d) < FirstMonday(IsoYear(d) + 1)
    ensures FirstMonday(IsoYear(d)) + 7 * (IsoWeek(d) - 1) <= DayNumber(d) < FirstMonday(IsoYear(d)) + 7 * IsoWeek(d)
    ensures 1 <= IsoWeek(d) <= 53
  {
    hide YearStart;
    var y := IsoYear(d);
    ThursdayInYear(d);
    YearLength(y);
    FirstMondayIs(y);
    FirstMondayIs(y + 1);
    WeekByThursday(DayNumber(d), YearStart(y), YearStart(y + 1));
  }
}
