/**
  Calendar dates as Python's `datetime` knows them: the proleptic Gregorian
  calendar from year 1 to year 9999, ordinal day numbers, adding whole days,
  the `.days` of a difference between a midnight deadline and the current
  instant, and the zero-padded `YYYY-MM-DD` rendering of `strftime`.
*/
module Calendar {
  import opened Text

  datatype Date = Date(year: int, month: int, day: int)

  /** The clock reading `datetime.now()`: a date and the microseconds since its midnight. */
  datatype Instant = Instant(date: Date, microsOfDay: nat)

  const MicrosPerDay: nat := 86_400_000_000

  predicate IsLeap(y: int) {
    y % 4 == 0 && (y % 100 != 0 || y % 400 == 0)
  }

  function DaysInMonth(y: int, m: int): (n: int)
    requires 1 <= m <= 12
    ensures 28 <= n <= 31
  {
    if m == 2 then (if IsLeap(y) then 29 else 28)
    else if m == 4 || m == 6 || m == 9 || m == 11 then 30
    else 31
  }

  /** The dates `datetime(year, month, day)` accepts (MINYEAR 1, MAXYEAR 9999). */
  predicate ValidDate(d: Date) {
    1 <= d.year <= 9999 && 1 <= d.month <= 12 && 1 <= d.day <= DaysInMonth(d.year, d.month)
  }

  predicate ValidInstant(t: Instant) {
    ValidDate(t.date) && t.microsOfDay < MicrosPerDay
  }

  function DaysBeforeYear(y: int): int
    requires y >= 1
  {
    var p := y - 1;
    365 * p + p / 4 - p / 100 + p / 400
  }

  /** Days of year y that lie before the first of month m. */
  function DaysBeforeMonth(y: int, m: int): (n: int)
    requires 1 <= m <= 12
    ensures 0 <= n <= 335
  {
    [0, 31, 59, 90, 120, 151, 181, 212, 243, 273, 304, 334][m - 1]
    + (if m > 2 && IsLeap(y) then 1 else 0)
  }

  /** The days before month m+1 are the days before m and those of m. */
  lemma MonthStep(y: int, m: int)
    requires 1 <= m < 12
    ensures DaysBeforeMonth(y, m + 1) == DaysBeforeMonth(y, m) + DaysInMonth(y, m)
  {
  }

  /** `date.toordinal()`: 0001-01-01 is day 1. */
  function DayNumber(d: Date): int
    requires d.year >= 1 && 1 <= d.month <= 12
  {
    DaysBeforeYear(d.year) + DaysBeforeMonth(d.year, d.month) + d.day
  }

  /** The calendar day after d. */
  function NextDay(d: Date): (r: Date)
    requires 1 <= d.month <= 12
    ensures 1 <= r.month <= 12
  {
    if d.day < DaysInMonth(d.year, d.month) then d.(day := d.day + 1)
    else if d.month < 12 then Date(d.year, d.month + 1, 1)
    else Date(d.year + 1, 1, 1)
  }

  /** `d + timedelta(days=n)`, one day at a time. */
  function AddDays(d: Date, n: nat): (r: Date)
    requires 1 <= d.month <= 12
    ensures 1 <= r.month <= 12
  {
    if n == 0 then d else NextDay(AddDays(d, n - 1))
  }

  lemma LeapDivision(y: int)
    requires y >= 1
    ensures DaysBeforeYear(y + 1) == DaysBeforeYear(y) + (if IsLeap(y) then 366 else 365)
  {
    var p := y - 1;
    assert y / 4 - p / 4 == (if y % 4 == 0 then 1 else 0);
    assert y / 100 - p / 100 == (if y % 100 == 0 then 1 else 0);
    assert y / 400 - p / 400 == (if y % 400 == 0 then 1 else 0);
    assert y % 400 == 0 ==> y % 100 == 0 && y % 4 == 0;
    assert y % 100 == 0 ==> y % 4 == 0;
  }

  /** Moving to the next day moves the ordinal by exactly one. */
  lemma NextDayNumber(d: Date)
    requires ValidDate(d)
    ensures NextDay(d).year >= 1
    ensures DayNumber(NextDay(d)) == DayNumber(d) + 1
  {
    if d.day == DaysInMonth(d.year, d.month) && d.month < 12 {
      MonthStep(d.year, d.month);
    } else if d.day == DaysInMonth(d.year, d.month) {
      LeapDivision(d.year);
      assert DaysBeforeMonth(d.year, 12) == (if IsLeap(d.year) then 335 else 334);
    }
  }

  /**
    The day after a valid date is valid unless it would leave the year 9999;
    it stays in the same year, or it is the first of January of the next,
    and a day in January before the 31st moves on to the next day of January.
  */
  lemma NextDayValid(d: Date)
    requires ValidDate(d) && (d.year < 9999 || (d.month == 1 && d.day < 31))
    ensures ValidDate(NextDay(d))
    ensures NextDay(d).year == d.year || (NextDay(d).year == d.year + 1 && NextDay(d).month == 1 && NextDay(d).day == 1)
    ensures d.month == 1 && d.day < 31 ==> NextDay(d) == Date(d.year, 1, d.day + 1)
  {
  }

  /**
    Adding up to 30 days to a valid date before the year 9999 stays a valid
    date, the ordinal grows by n, and the year grows at most once.
  */
  lemma {:induction false} AddDaysValid(d: Date, n: nat)
    requires ValidDate(d) && d.year < 9999 && n <= 30
    ensures ValidDate(AddDays(d, n))
    ensures DayNumber(AddDays(d, n)) == DayNumber(d) + n
    ensures AddDays(d, n).year == d.year
         || (AddDays(d, n).year == d.year + 1 && AddDays(d, n).month == 1 && AddDays(d, n).day <= n)
  {
    if n > 0 {
      var prev := AddDays(d, n - 1);
      AddDaysValid(d, n - 1);
      NextDayNumber(prev);
      NextDayValid(prev);
    }
  }

  /**
    `(deadline_midnight - now).days`: timedelta keeps a non-negative time
    part, so any time past midnight takes one more day off.
  */
  function DaysUntil(deadline: Date, now: Instant): int
    requires deadline.year >= 1 && 1 <= deadline.month <= 12
    requires now.date.year >= 1 && 1 <= now.date.month <= 12
  {
    DayNumber(deadline) - DayNumber(now.date) - (if now.microsOfDay > 0 then 1 else 0)
  }

  /** DaysUntil is the floor of the exact difference, counted in days. */
  lemma DaysUntilIsFloor(deadline: Date, now: Instant)
    requires deadline.year >= 1 && 1 <= deadline.month <= 12 && ValidInstant(now)
    ensures var diff := (DayNumber(deadline) - DayNumber(now.date)) * MicrosPerDay - now.microsOfDay;
            DaysUntil(deadline, now) * MicrosPerDay <= diff < (DaysUntil(deadline, now) + 1) * MicrosPerDay
  {
  }

  function DigitChar(n: nat): (c: char)
    requires n < 10
    ensures IsDigit(c)
  {
    ('0' as int + n) as char
  }

  function DigitValue(c: char): (n: nat)
    requires IsDigit(c)
    ensures n < 10
  {
    c as int - '0' as int
  }

  /** `f"{n:02d}"` for n below 100. */
  function Pad2(n: nat): (r: string)
    requires n < 100
    ensures |r| == 2 && IsDigit(r[0]) && IsDigit(r[1])
    ensures 10 * DigitValue(r[0]) + DigitValue(r[1]) == n
  {
    [DigitChar(n / 10), DigitChar(n % 10)]
  }

  /** `%Y` of strftime: the year in four digits. */
  function Pad4(n: nat): (r: string)
    requires n < 10000
    ensures |r| == 4 && forall i :: 0 <= i < 4 ==> IsDigit(r[i])
    ensures 1000 * DigitValue(r[0]) + 100 * DigitValue(r[1]) + 10 * DigitValue(r[2]) + DigitValue(r[3]) == n
  {
    var hi, lo := n / 100, n % 100;
    assert hi < 100 && n == 100 * hi + lo;
    assert hi == 10 * (hi / 10) + hi % 10;
    assert lo == 10 * (lo / 10) + lo % 10;
    [DigitChar(hi / 10), DigitChar(hi % 10), DigitChar(lo / 10), DigitChar(lo % 10)]
  }

  /** `date.strftime("%Y-%m-%d")`. */
  function FormatYmd(d: Date): (r: string)
    requires ValidDate(d)
    ensures |r| == 10 && r[4] == '-' && r[7] == '-'
  {
    Pad4(d.year) + "-" + Pad2(d.month) + "-" + Pad2(d.day)
  }

  /** The value of a string of ASCII digits, as `int()` reads it. */
  function DigitsValue(s: string): (n: nat)
    requires forall i :: 0 <= i < |s| ==> IsDigit(s[i])
  {
    if s == [] then 0 else 10 * DigitsValue(s[..|s| - 1]) + DigitValue(s[|s| - 1])
  }

  /** `int()` reads back a two-digit rendering. */
  lemma DigitsOfPad2(n: nat)
    requires n < 100
    ensures DigitsValue(Pad2(n)) == n
  {
    var r := Pad2(n);
    assert r[..|r| - 1] == [r[0]];
    assert [r[0]][..0] == [];
    assert DigitsValue([r[0]]) == DigitValue(r[0]);
  }

  /** `int()` reads back a four-digit rendering. */
  lemma DigitsOfPad4(n: nat)
    requires n < 10000
    ensures DigitsValue(Pad4(n)) == n
  {
    var r := Pad4(n);
    assert r[..1][..0] == [];
    assert DigitsValue(r[..1]) == DigitValue(r[0]);
    assert r[..2][..1] == r[..1];
    assert DigitsValue(r[..2]) == 10 * DigitValue(r[0]) + DigitValue(r[1]);
    assert r[..3][..2] == r[..2];
    assert DigitsValue(r[..3]) == 100 * DigitValue(r[0]) + 10 * DigitValue(r[1]) + DigitValue(r[2]);
    assert r[..4] == r;
  }

  /** Decimal rendering of a natural number (`str(n)`). */
  function NatToString(n: nat): (r: string)
    ensures r != [] && forall i :: 0 <= i < |r| ==> IsDigit(r[i])
  {
    if n < 10 then [DigitChar(n)] else NatToString(n / 10) + [DigitChar(n % 10)]
  }
}
