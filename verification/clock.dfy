/** Calendar time as .NET's `DateTime` presents it to the application:
    a proleptic Gregorian date plus the ticks elapsed since midnight.
    The wall clock itself (`DateTime.Now`) is never read here: every
    operation of the model receives "now" as a parameter. */
module Clock {

  import opened Common
  import opened Text

  /** 100-nanosecond ticks in one day. */
  const TicksPerDay: nat := 864_000_000_000

  datatype DateTime = DateTime(year: int, month: int, day: int, ticks: nat)

  predicate IsLeapYear(y: int) {
    y % 4 == 0 && (y % 100 != 0 || y % 400 == 0)
  }

  function DaysInMonth(y: int, m: int): (d: nat)
    requires 1 <= m <= 12
    ensures 28 <= d <= 31
  {
    if m == 2 then (if IsLeapYear(y) then 29 else 28)
    else if m == 4 || m == 6 || m == 9 || m == 11 then 30
    else 31
  }

  /** The values a `DateTime` can take: years 1 to 9999, real days, a time of day. */
  predicate Valid(d: DateTime) {
    && 1 <= d.year <= 9999
    && 1 <= d.month <= 12
    && 1 <= d.day <= DaysInMonth(d.year, d.month)
    && d.ticks < TicksPerDay
  }

  /** `a <= b` on `DateTime`: chronological order. */
  predicate AtOrBefore(a: DateTime, b: DateTime) {
    || a.year < b.year
    || (a.year == b.year && a.month < b.month)
    || (a.year == b.year && a.month == b.month && a.day < b.day)
    || (a.year == b.year && a.month == b.month && a.day == b.day && a.ticks <= b.ticks)
  }

  /** `a < b` on `DateTime`. */
  predicate Before(a: DateTime, b: DateTime) {
    !AtOrBefore(b, a)
  }

  lemma AtOrBeforeTotal(a: DateTime, b: DateTime)
    ensures AtOrBefore(a, b) || AtOrBefore(b, a)
  {
  }

  lemma AtOrBeforeTransitive(a: DateTime, b: DateTime, c: DateTime)
    requires AtOrBefore(a, b) && AtOrBefore(b, c)
    ensures AtOrBefore(a, c)
  {
  }

  lemma AtOrBeforeAntisymmetric(a: DateTime, b: DateTime)
    requires AtOrBefore(a, b) && AtOrBefore(b, a)
    ensures a == b
  {
  }

  /** `d.Date`: midnight of the same day. */
  function Date(d: DateTime): (r: DateTime)
    ensures Valid(d) ==> Valid(r)
    ensures AtOrBefore(r, d) && r.ticks == 0
  {
    DateTime(d.year, d.month, d.day, 0)
  }

  /** `new DateTime(d.Year, d.Month, 1)`. */
  function FirstOfMonth(d: DateTime): (r: DateTime)
    ensures Valid(d) ==> Valid(r)
    ensures Valid(d) ==> AtOrBefore(r, d)
  {
    DateTime(d.year, d.month, 1, 0)
  }

  /** `new DateTime(d.Year, 1, 1)`. */
  function FirstOfYear(d: DateTime): (r: DateTime)
    ensures Valid(d) ==> Valid(r)
    ensures Valid(d) ==> AtOrBefore(r, FirstOfMonth(d))
  {
    DateTime(d.year, 1, 1, 0)
  }

  /** Months elapsed since January of year 0; the key `AddMonths` moves along. */
  function MonthIndex(d: DateTime): int {
    d.year * 12 + (d.month - 1)
  }

  function Min(a: int, b: int): int {
    if a <= b then a else b
  }

  /** `d.AddMonths(months)`: moves the month, clamps the day to the length of
      the target month and keeps the time of day. .NET throws when the year
      leaves 1..9999; that is `None` here. */
  function AddMonths(d: DateTime, months: int): (r: Option<DateTime>)
    requires Valid(d)
    ensures r.Some? <==> 1 <= (MonthIndex(d) + months) / 12 <= 9999
    ensures r.Some? ==> Valid(r.value)
    ensures r.Some? ==> MonthIndex(r.value) == MonthIndex(d) + months
    ensures r.Some? ==> r.value.day == Min(d.day, DaysInMonth(r.value.year, r.value.month))
    ensures r.Some? ==> r.value.ticks == d.ticks
  {
    var total := MonthIndex(d) + months;
    var y := total / 12;
    var m := total % 12 + 1;
    if 1 <= y <= 9999 then Some(DateTime(y, m, Min(d.day, DaysInMonth(y, m)), d.ticks)) else None
  }

  /** `d.AddYears(years)`: the same month and day `years` later, except that
      29 February becomes 28 February in a common year. */
  function AddYears(d: DateTime, years: int): (r: Option<DateTime>)
    requires Valid(d)
    ensures r.Some? <==> 1 <= d.year + years <= 9999
    ensures r.Some? ==> Valid(r.value)
    ensures r.Some? ==> r.value.year == d.year + years && r.value.month == d.month
    ensures r.Some? ==> r.value.day == (if d.month == 2 && d.day == 29 && !IsLeapYear(d.year + years) then 28 else d.day)
  {
    var r := AddMonths(d, 12 * years);
    assert (MonthIndex(d) + 12 * years) / 12 == d.year + years;
    assert (MonthIndex(d) + 12 * years) % 12 == d.month - 1;
    r
  }

  /** A smaller month index means an earlier date. */
  lemma MonthIndexOrder(a: DateTime, b: DateTime)
    requires 1 <= a.month <= 12 && 1 <= b.month <= 12
    requires MonthIndex(a) < MonthIndex(b)
    ensures Before(a, b)
  {
  }

  /** Going back a positive number of months lands strictly earlier. */
  lemma AddMonthsBackwardIsEarlier(d: DateTime, months: int)
    requires Valid(d) && months < 0
    requires AddMonths(d, months).Some?
    ensures Before(AddMonths(d, months).value, d)
  {
    MonthIndexOrder(AddMonths(d, months).value, d);
  }

  /** `d.ToString("yyyyMMdd")`. */
  function FormatYmd(d: DateTime): string {
    FormatD(d.year, 4) + FormatD(d.month, 2) + FormatD(d.day, 2)
  }

  /** For a valid date, `yyyyMMdd` is eight digits from which the year, month
      and day can be read back. */
  lemma FormatYmdShape(d: DateTime)
    requires Valid(d)
    ensures |FormatYmd(d)| == 8 && AllDigits(FormatYmd(d))
    ensures AllDigits(FormatYmd(d)[..4]) && AllDigits(FormatYmd(d)[4..6]) && AllDigits(FormatYmd(d)[6..])
    ensures ParseDigits(FormatYmd(d)[..4]) == d.year
    ensures ParseDigits(FormatYmd(d)[4..6]) == d.month
    ensures ParseDigits(FormatYmd(d)[6..]) == d.day
  {
    assert Pow10(2) == 100 && Pow10(4) == 10000;
    FormatDExactWidth(d.year, 4);
    FormatDExactWidth(d.month, 2);
    FormatDExactWidth(d.day, 2);
    ParsePadded(d.year, 4);
    ParsePadded(d.month, 2);
    ParsePadded(d.day, 2);
    var y, m, dd := FormatD(d.year, 4), FormatD(d.month, 2), FormatD(d.day, 2);
    assert FormatYmd(d) == y + m + dd;
    ThreeNumerals(y, m, dd);
  }

  /** Four, two and two digits joined are eight digits whose slices are the parts. */
  lemma ThreeNumerals(y: string, m: string, dd: string)
    requires |y| == 4 && |m| == 2 && |dd| == 2
    requires AllDigits(y) && AllDigits(m) && AllDigits(dd)
    ensures |y + m + dd| == 8 && AllDigits(y + m + dd)
    ensures (y + m + dd)[..4] == y && (y + m + dd)[4..6] == m && (y + m + dd)[6..] == dd
  {
    SlicesOfThree(y, m, dd);
    ConcatDigits(y, m);
    ConcatDigits(y + m, dd);
  }

  /** Two valid instants print the same `yyyyMMdd` exactly when they fall on the same day. */
  lemma FormatYmdSameDay(a: DateTime, b: DateTime)
    requires Valid(a) && Valid(b)
    ensures FormatYmd(a) == FormatYmd(b) <==> Date(a) == Date(b)
  {
    FormatYmdShape(a);
    FormatYmdShape(b);
  }
}
