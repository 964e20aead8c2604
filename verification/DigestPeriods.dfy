/**
 * Digest periods (internal/jobs/digest.go): `periodLabel` names the period of a date and
 * `periodTimeRange` turns the text of a label back into a time range.
 */
module DigestPeriods {
  import opened Common
  import opened Calendar
  import opened Decimal

  /** A half-open range of whole days. */
  datatype Range = Range(firstDay: int, endDay: int) {
    function Since(): int { DAY * firstDay }
    function Until(): int { DAY * endDay }
    predicate Contains(instant: int) { Since() <= instant < Until() }
  }

  // ---- Labels ---------------------------------------------------------------

  /** time.Format pads years to four digits and its layouts read back exactly four. */
  predicate FourDigitYear(y: int) { 0 <= y < Pow10(4) }

  function FormatYear(y: int): string {
    if FourDigitYear(y) then PrintFixed(y, 4) else PrintSigned(y)
  }

  function TwoDigits(n: int): string
    requires 0 <= n < Pow10(2)
  {
    PrintFixed(n, 2)
  }

  function DailyLabel(d: Date): string
    requires Valid(d)
  {
    FormatYear(d.year) + "-" + TwoDigits(d.month) + "-" + TwoDigits(d.day)
  }

  function MonthlyLabel(y: int, m: int): string
    requires ValidMonth(m)
  {
    FormatYear(y) + "-" + TwoDigits(m)
  }

  /** The calendar year of the date, but the ISO week number. */
  function WeeklyLabel(d: Date): string
    requires Valid(d)
  {
    IsoWeekIs(d);
    PrintSigned(d.year) + "-W" + TwoDigits(IsoWeek(d))
  }

  function PeriodLabel(frequency: string, d: Date): string
    requires Valid(d)
  {
    if frequency == "daily" then DailyLabel(d)
    else if frequency == "weekly" then WeeklyLabel(d)
    else MonthlyLabel(d.year, d.month)
  }

  // ---- Reading a label ------------------------------------------------------

  /** time.Parse with layout 2006-01-02. */
  function ParseDay(s: string): Option<Date> {
    if |s| == 10 && AllDigits(s[..4]) && s[4] == '-' && AllDigits(s[5..7]) && s[7] == '-' && AllDigits(s[8..]) then
      var d := Date(Value(s[..4]), Value(s[5..7]), Value(s[8..]));
      if Valid(d) then Some(d) else None
    else None
  }

  /** time.Parse with layout 2006-01. */
  function ParseMonth(s: string): Option<(int, int)> {
    if |s| == 7 && AllDigits(s[..4]) && s[4] == '-' && AllDigits(s[5..]) && ValidMonth(Value(s[5..]))
    then Some((Value(s[..4]), Value(s[5..]))) else None
  }

  /** A run of digits at the front; also returns the rest. */
  function ScanNat(s: string): Option<(int, string)> {
    var n := DigitRun(s);
    if n == 0 then None else Some((Value(s[..n]), s[n..]))
  }

  /** The verb %d of Sscanf: an optional sign and digits. */
  function ScanInt(s: string): Option<(int, string)> {
    if s != [] && (s[0] == '-' || s[0] == '+') then
      var scanned := ScanNat(s[1..]);
      if scanned.Some? && s[0] == '-' then Some((-scanned.value.0, scanned.value.1)) else scanned
    else ScanNat(s)
  }

  /** Sscanf with format %d-W%d; what follows the second number is ignored. */
  function ScanWeek(s: string): Option<(int, int)> {
    var year := ScanInt(s);
    if year.None? || !("-W" <= year.value.1) then None
    else
      var week := ScanInt(year.value.1[2..]);
      if week.None? then None else Some((year.value.0, week.value.0))
  }

  function DayRange(d: Date): Range
    requires Valid(d)
  {
    Range(DayNumber(d), DayNumber(d) + 1)
  }

  function MonthRange(y: int, m: int): Range
    requires ValidMonth(m)
  {
    MonthStep(y, m);
    var (y', m') := NextMonth(y, m);
    Range(MonthStart(y, m), MonthStart(y', m'))
  }

  /** Counts from 4 January of the label's year, with Sunday as weekday 0. */
  function WeekRange(year: int, week: int): Range {
    var w := IsoWeek(Date(year, 1, 4));
    var monday := Jan4(year) + (week - w) * 7 - Weekday(Jan4(year)) + 1;
    Range(monday, monday + 7)
  }

  /** `today` stands for the clock read when no layout fits. */
  function PeriodTimeRange(period: string, today: Date): Range
    requires Valid(today)
  {
    if ParseDay(period).Some? then DayRange(ParseDay(period).value)
    else if ScanWeek(period).Some? then WeekRange(ScanWeek(period).value.0, ScanWeek(period).value.1)
    else if ParseMonth(period).Some? then MonthRange(ParseMonth(period).value.0, ParseMonth(period).value.1)
    else MonthRange(today.year, today.month)
  }

  /** The layouts: 2006-01-02, 2006-01 and 2006-W01, the week number with a leading zero. */
  lemma LabelForms(d: Date)
    requires Valid(d) && FourDigitYear(d.year)
    ensures var s := PeriodLabel("daily", d);
            && |s| == 10 && s[4] == s[7] == '-'
            && AllDigits(s[..4]) && AllDigits(s[5..7]) && AllDigits(s[8..])
            && Value(s[..4]) == d.year && Value(s[5..7]) == d.month && Value(s[8..]) == d.day
    ensures var s := PeriodLabel("monthly", d);
            && |s| == 7 && s[4] == '-' && AllDigits(s[..4]) && AllDigits(s[5..])
            && Value(s[..4]) == d.year && Value(s[5..]) == d.month
    ensures var s := PeriodLabel("weekly", d);
            var n := |s| - 4;
            && n > 0 && s[n..n + 2] == "-W" && AllDigits(s[..n]) && AllDigits(s[n + 2..])
            && Value(s[..n]) == d.year && Value(s[n + 2..]) == IsoWeek(d)
  {
    DailyForm(d);
    MonthlyForm(d);
    WeeklyForm(d);
  }

  lemma DailyForm(d: Date)
    requires Valid(d) && FourDigitYear(d.year)
    ensures var s := DailyLabel(d);
            && |s| == 10 && s[4] == s[7] == '-'
            && AllDigits(s[..4]) && AllDigits(s[5..7]) && AllDigits(s[8..])
            && Value(s[..4]) == d.year && Value(s[5..7]) == d.month && Value(s[8..]) == d.day
  {
    var s := DailyLabel(d);
    var y, m, dd := PrintFixed(d.year, 4), PrintFixed(d.month, 2), PrintFixed(d.day, 2);
    assert s[..4] == y && s[5..7] == m && s[8..] == dd;
    ValueOfPrintFixed(d.year, 4);
    ValueOfPrintFixed(d.month, 2);
    ValueOfPrintFixed(d.day, 2);
  }

  lemma MonthlyForm(d: Date)
    requires Valid(d) && FourDigitYear(d.year)
    ensures var s := MonthlyLabel(d.year, d.month);
            && |s| == 7 && s[4] == '-' && AllDigits(s[..4]) && AllDigits(s[5..])
            && Value(s[..4]) == d.year && Value(s[5..]) == d.month
  {
    var s := MonthlyLabel(d.year, d.month);
    assert s[..4] == PrintFixed(d.year, 4) && s[5..] == PrintFixed(d.month, 2);
    ValueOfPrintFixed(d.year, 4);
    ValueOfPrintFixed(d.month, 2);
  }

  lemma WeeklyForm(d: Date)
    requires Valid(d) && d.year >= 0
    ensures var s := WeeklyLabel(d);
            var n := |s| - 4;
            && n > 0 && s[n..n + 2] == "-W" && AllDigits(s[..n]) && AllDigits(s[n + 2..])
            && Value(s[..n]) == d.year && Value(s[n + 2..]) == IsoWeek(d)
  {
    hide IsoWeek;
    IsoWeekIs(d);
    var s, y, w := WeeklyLabel(d), Print(d.year), PrintFixed(IsoWeek(d), 2);
    assert s[..|s| - 4] == y && s[|s| - 4..|s| - 2] == "-W" && s[|s| - 2..] == w;
    ValueOfPrint(d.year);
    ValueOfPrintFixed(IsoWeek(d), 2);
  }

  /** A period that no layout fits means the current month. */
  lemma UnreadableIsThisMonth(period: string, today: Date)
    requires Valid(today) && ParseDay(period).None? && ScanWeek(period).None? && ParseMonth(period).None?
    ensures var r, (y, m) := PeriodTimeRange(period, today), NextMonth(today.year, today.month);
            ValidMonth(m) && r.firstDay == MonthStart(today.year, today.month) && r.endDay == MonthStart(y, m)
  {
    MonthStep(today.year, today.month);
  }

  // ---- Labels read back -----------------------------------------------------

  lemma DailyLabelReadsBack(d: Date)
    requires Valid(d) && FourDigitYear(d.year)
    ensures ParseDay(DailyLabel(d)) == Some(d)
  {
    DailyForm(d);
  }

  lemma MonthlyLabelReadsBack(y: int, m: int)
    requires ValidMonth(m) && FourDigitYear(y)
    ensures ParseMonth(MonthlyLabel(y, m)) == Some((y, m))
    ensures ParseDay(MonthlyLabel(y, m)).None? && ScanWeek(MonthlyLabel(y, m)).None?
  {
    var s := MonthlyLabel(y, m);
    var ys, ms := PrintFixed(y, 4), PrintFixed(m, 2);
    assert s == ys + ("-" + ms);
    assert s[..4] == ys && s[5..] == ms;
    ValueOfPrintFixed(y, 4);
    ValueOfPrintFixed(m, 2);
    assert s[0] in ys;
    ScanDigits(ys, "-" + ms);
    assert ms[0] in ms;
  }

  lemma ScanDigits(digits: string, rest: string)
    requires digits != [] && AllDigits(digits) && (rest != [] ==> !IsDigit(rest[0]))
    ensures ScanInt(digits + rest) == ScanNat(digits + rest) == Some((Value(digits), rest))
  {
    DigitRunIs(digits, rest);
    assert digits[0] in digits;
    assert (digits + rest)[..|digits|] == digits && (digits + rest)[|digits|..] == rest;
  }

  lemma ScanMinus(digits: string, rest: string)
    requires digits != [] && AllDigits(digits) && (rest != [] ==> !IsDigit(rest[0]))
    ensures var magnitude: int := Value(digits); ScanInt("-" + digits + rest) == Some((-magnitude, rest))
  {
    ScanDigits(digits, rest);
    var s := "-" + digits + rest;
    assert s[0] == '-' && s[1..] == digits + rest;
  }

  lemma ScanPrinted(n: int, rest: string)
    requires rest != [] ==> !IsDigit(rest[0])
    ensures ScanInt(PrintSigned(n) + rest) == Some((n, rest))
  {
    hide ScanInt, ScanNat, Value;
    if n < 0 {
      ValueOfPrint(-n);
      ScanMinus(Print(-n), rest);
    } else {
      ValueOfPrint(n);
      ScanDigits(Print(n), rest);
    }
  }

  /** A day is written with digits and hyphens only. */
  lemma DayCharacters(s: string, k: nat)
    requires ParseDay(s).Some? && k < |s|
    ensures IsDigit(s[k]) || s[k] == '-'
  {
  }

  lemma WeekReadsBack(year: int, week: nat)
    requires week < Pow10(2)
    ensures ScanWeek(PrintSigned(year) + ("-W" + TwoDigits(week))) == Some((year, week))
  {
    var digits := PrintFixed(week, 2);
    var rest := "-W" + digits;
    ScanPrinted(year, rest);
    ValueOfPrintFixed(week, 2);
    ScanDigits(digits, []);
    assert digits + [] == digits && rest[2..] == digits;
  }

  lemma WeeklyLabelReadsBack(d: Date)
    requires Valid(d)
    ensures ScanWeek(WeeklyLabel(d)) == Some((d.year, IsoWeek(d)))
    ensures ParseDay(WeeklyLabel(d)).None?
  {
    IsoWeekIs(d);
    WeekReadsBack(d.year, IsoWeek(d));
    assert WeeklyLabel(d) == PrintSigned(d.year) + ("-W" + TwoDigits(IsoWeek(d)));
    if ParseDay(WeeklyLabel(d)).Some? {
      DayCharacters(WeeklyLabel(d), |PrintSigned(d.year)| + 1);
    }
  }

  // ---- Ranges ---------------------------------------------------------------

  /** A daily range is the date's own day. */
  lemma DailyRangeContains(t: Clock, today: Date)
    requires ValidClock(t) && Valid(today) && FourDigitYear(t.date.year)
    ensures PeriodTimeRange(PeriodLabel("daily", t.date), today).Contains(Instant(t))
    ensures PeriodTimeRange(PeriodLabel("daily", t.date), today) == DayRange(t.date)
  {
    DailyLabelReadsBack(t.date);
  }

  /** A monthly range contains its date, and the next month's range begins where it ends. */
  lemma MonthlyRangesTile(t: Clock, today: Date)
    requires ValidClock(t) && Valid(today) && FourDigitYear(t.date.year) && FourDigitYear(t.date.year + 1)
    ensures var range := PeriodTimeRange(PeriodLabel("monthly", t.date), today);
            var (y', m') := NextMonth(t.date.year, t.date.month);
            && range.Contains(Instant(t))
            && range.Until() == PeriodTimeRange(MonthlyLabel(y', m'), today).Since()
  {
    var (y', m') := NextMonth(t.date.year, t.date.month);
    MonthlyLabelReadsBack(t.date.year, t.date.month);
    MonthlyLabelReadsBack(y', m');
    MonthStep(t.date.year, t.date.month);
    DayInMonth(t.date);
  }

  /** The Monday the formula finds is the right one, or a week late when 4 January is a Sunday. */
  lemma WeekRangeIs(year: int, week: int)
    ensures WeekRange(year, week).firstDay ==
            FirstMonday(year) + 7 * (week - 1) + (if Weekday(Jan4(year)) == 0 then 7 else 0)
  {
    Jan4InWeekOne(year);
    MondayFormula(Jan4(year));
  }

  lemma MondayFormula(n: int)
    ensures n - Weekday(n) + 1 == MondayOf(n) + (if Weekday(n) == 0 then 7 else 0)
  {
  }

  lemma Jan4InWeekOne(year: int)
    ensures IsoYear(Date(year, 1, 4)) == year && IsoWeek(Date(year, 1, 4)) == 1
  {
  }

  /** Where the label's year is not the week's year, the range lies elsewhere. */
  lemma WrongYearMisses(d: Date)
    requires Valid(d) && IsoYear(d) != d.year
    ensures !(WeekRange(d.year, IsoWeek(d)).firstDay <= DayNumber(d) < WeekRange(d.year, IsoWeek(d)).firstDay + 7)
  {
    WrongYearMissesWeeks(d, DayNumber(d));
  }

  /** Even a week further on or back it does not come near. */
  lemma WrongYearMissesWeeks(d: Date, n: int)
    requires Valid(d) && IsoYear(d) != d.year && DayNumber(d) - 7 <= n <= DayNumber(d) + 7
    ensures !(WeekRange(d.year, IsoWeek(d)).firstDay <= n < WeekRange(d.year, IsoWeek(d)).firstDay + 7)
  {
    hide YearStart, WeekRange;
    IsoWeekIs(d);
    WeekRangeIs(d.year, IsoWeek(d));
    DayInYear(d);
    WeeksInYear(d.year - 1);
    WeeksInYear(d.year);
    WeeksInYear(d.year + 1);
  }

  /**
   * The weekly range contains the date it was labelled for exactly when the date's ISO
   * year is its calendar year and 4 January of that year is no Sunday.
   */
  lemma WeeklyRangeContainsIff(t: Clock, today: Date)
    requires ValidClock(t) && Valid(today)
    ensures PeriodTimeRange(PeriodLabel("weekly", t.date), today).Contains(Instant(t))
            <==> IsoYear(t.date) == t.date.year && Weekday(Jan4(t.date.year)) != 0
  {
    hide YearStart;
    var d := t.date;
    WeeklyLabelReadsBack(d);
    var first := WeekRange(d.year, IsoWeek(d)).firstDay;
    assert PeriodTimeRange(PeriodLabel("weekly", d), today).Contains(Instant(t)) <==> first <= DayNumber(d) < first + 7;
    if IsoYear(d) == d.year {
      IsoWeekIs(d);
      WeekRangeIs(d.year, IsoWeek(d));
    } else {
      WrongYearMisses(d);
    }
  }

  // ---- Labels of another time zone ------------------------------------------------

  /** A label is made from the date of the configured zone, a range is taken in UTC. */
  predicate SameInstant(local: Clock, utc: Clock, offset: int) {
    ValidClock(local) && ValidClock(utc) && Instant(local) == Instant(utc) + offset && 0 - DAY < offset < DAY
  }

  /** The daily range contains the instant of its label exactly where the local date is the UTC date. */
  lemma DailyRangeContainsIff(local: Clock, utc: Clock, offset: int, today: Date)
    requires SameInstant(local, utc, offset) && Valid(today) && FourDigitYear(local.date.year)
    ensures PeriodTimeRange(PeriodLabel("daily", local.date), today).Contains(Instant(utc)) <==> local.date == utc.date
  {
    DailyLabelReadsBack(local.date);
    DateOfDay(local.date, utc.date);
  }

  /** The monthly range, exactly where it is the same month. */
  lemma MonthlyRangeContainsIff(local: Clock, utc: Clock, offset: int, today: Date)
    requires SameInstant(local, utc, offset) && Valid(today) && FourDigitYear(local.date.year)
    ensures PeriodTimeRange(PeriodLabel("monthly", local.date), today).Contains(Instant(utc))
            <==> local.date.year == utc.date.year && local.date.month == utc.date.month
  {
    MonthlyLabelReadsBack(local.date.year, local.date.month);
    MonthStep(local.date.year, local.date.month);
    MonthOfDay(utc.date, local.date.year, local.date.month);
  }

  /**
   * The weekly range contains the instant of its label exactly where the label has the right
   * year and the UTC date lies in the local date's week, or in the week after it when
   * 4 January is a Sunday.
   */
  lemma WeeklyZonedRangeContainsIff(local: Clock, utc: Clock, offset: int, today: Date)
    requires SameInstant(local, utc, offset) && Valid(today)
    ensures PeriodTimeRange(PeriodLabel("weekly", local.date), today).Contains(Instant(utc)) <==>
            && IsoYear(local.date) == local.date.year
            && MondayOf(DayNumber(utc.date))
               == MondayOf(DayNumber(local.date)) + (if Weekday(Jan4(local.date.year)) == 0 then 7 else 0)
  {
    hide YearStart;
    var d, n := local.date, DayNumber(utc.date);
    WeeklyLabelReadsBack(d);
    var first := WeekRange(d.year, IsoWeek(d)).firstDay;
    assert PeriodTimeRange(PeriodLabel("weekly", d), today) == WeekRange(d.year, IsoWeek(d));
    assert WeekRange(d.year, IsoWeek(d)).Contains(Instant(utc)) <==> first <= n < first + 7;
    if IsoYear(d) == d.year {
      WeekStartsOnMonday(d, n);
    } else {
      WrongYearMissesWeeks(d, n);
    }
  }

  lemma WeekStartsOnMonday(d: Date, n: int)
    requires Valid(d) && IsoYear(d) == d.year
    ensures var first := WeekRange(d.year, IsoWeek(d)).firstDay;
            first <= n < first + 7 <==>
            MondayOf(n) == MondayOf(DayNumber(d)) + (if Weekday(Jan4(d.year)) == 0 then 7 else 0)
  {
    IsoWeekIs(d);
    WeekRangeIs(d.year, IsoWeek(d));
    FirstMondayIs(d.year);
    SameWeek(FirstMonday(d.year), IsoWeek(d), DayNumber(d), n, if Weekday(Jan4(d.year)) == 0 then 7 else 0);
  }

  lemma SameWeek(start: int, week: int, m: int, n: int, shift: int)
    requires start % 7 == 0 && start + 7 * (week - 1) <= m < start + 7 * week && (shift == 0 || shift == 7)
    ensures var first := start + 7 * (week - 1) + shift;
            first <= n < first + 7 <==> MondayOf(n) == MondayOf(m) + shift
  {
    var monday := start + 7 * (week - 1);
    assert monday % 7 == 0;
    assert MondayOf(m) == monday;
  }

  lemma Jan4Of2026()
    ensures Weekday(Jan4(2026)) == 0
  {
  }

  /** 4 January 2026 is a Sunday: no weekly digest of that year covers the day it is labelled for. */
  lemma NoWeekOf2026IsCovered(t: Clock, today: Date)
    requires ValidClock(t) && Valid(today) && t.date.year == 2026
    ensures !PeriodTimeRange(PeriodLabel("weekly", t.date), today).Contains(Instant(t))
  {
    Jan4Of2026();
    WeeklyRangeContainsIff(t, today);
  }
}
