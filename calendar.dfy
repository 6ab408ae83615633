/**
 * Proleptic Gregorian dates and naive date-times in the range of Python's `datetime`
 * (years 1 to 9999), with the arithmetic the services use: `timedelta` subtraction,
 * `relativedelta` month and year steps, calendar-day comparison and `isoformat()`.
 */
module Calendar {
  import opened Wrappers
  import opened Text

  datatype Date = Date(year: int, month: int, day: int)

  /** A naive date-time; `second` counts the seconds since midnight (microseconds are not modelled). */
  datatype DateTime = DateTime(date: Date, second: int)

  const MinYear: int := 1
  const MaxYear: int := 9999
  const SecondsPerDay: int := 86400

  predicate IsLeap(y: int) { y % 4 == 0 && (y % 100 != 0 || y % 400 == 0) }

  function DaysInMonth(y: int, m: int): (r: int)
    requires 1 <= m <= 12
    ensures 28 <= r <= 31
    ensures r == 29 <==> m == 2 && IsLeap(y)
  {
    if m == 2 then (if IsLeap(y) then 29 else 28)
    else if m == 4 || m == 6 || m == 9 || m == 11 then 30
    else 31
  }

  predicate ValidDate(d: Date) {
    MinYear <= d.year <= MaxYear && 1 <= d.month <= 12 && 1 <= d.day <= DaysInMonth(d.year, d.month)
  }

  predicate ValidDateTime(t: DateTime) { ValidDate(t.date) && 0 <= t.second < SecondsPerDay }

  /** A date-time the calendar can represent: what a parser or the clock hands back. */
  type Instant = t: DateTime | ValidDateTime(t) witness DateTime(Date(1, 1, 1), 0)

  /** `date <= date`: Python compares dates field by field. */
  predicate DateLe(a: Date, b: Date) {
    a.year < b.year || (a.year == b.year && (a.month < b.month || (a.month == b.month && a.day <= b.day)))
  }

  /** `datetime < datetime` for naive date-times. */
  predicate Before(a: DateTime, b: DateTime) {
    (DateLe(a.date, b.date) && a.date != b.date) || (a.date == b.date && a.second < b.second)
  }

  /** Days in the years before `y`. */
  function DaysBeforeYear(y: int): int
    requires y >= 1
  {
    var k := y - 1;
    365 * k + k / 4 - k / 100 + k / 400
  }

  /** Days in the months of year `y` before month `m`. */
  function DaysBeforeMonth(y: int, m: int): (r: int)
    requires 1 <= m <= 12
    ensures 0 <= r <= 335
    ensures m > 1 ==> r == DaysBeforeMonth(y, m - 1) + DaysInMonth(y, m - 1)
  {
    var common := [0, 31, 59, 90, 120, 151, 181, 212, 243, 273, 304, 334][m - 1];
    if m > 2 && IsLeap(y) then common + 1 else common
  }

  /** `date.toordinal()`: 0001-01-01 is day 1. */
  function Ordinal(d: Date): int
    requires ValidDate(d)
  {
    DaysBeforeYear(d.year) + DaysBeforeMonth(d.year, d.month) + d.day
  }

  const FirstDate: Date := Date(MinYear, 1, 1)

  /** The day before a valid date other than 0001-01-01. */
  function PrevDay(d: Date): (r: Date)
    requires ValidDate(d) && d != FirstDate
    ensures ValidDate(r) && Ordinal(r) == Ordinal(d) - 1
  {
    if d.day > 1 then Date(d.year, d.month, d.day - 1)
    else if d.month > 1 then
      MonthBack(d);
      Date(d.year, d.month - 1, DaysInMonth(d.year, d.month - 1))
    else
      YearBack(d);
      Date(d.year - 1, 12, 31)
  }

  /** The day before the first of a month other than January is the last of the month before. */
  lemma MonthBack(d: Date)
    requires ValidDate(d) && d.day == 1 && d.month > 1
    ensures var r := Date(d.year, d.month - 1, DaysInMonth(d.year, d.month - 1));
      ValidDate(r) && Ordinal(r) == Ordinal(d) - 1
  {
  }

  /** The day before January 1 is December 31 of the year before. */
  lemma YearBack(d: Date)
    requires ValidDate(d) && d.day == 1 && d.month == 1 && d.year > MinYear
    ensures ValidDate(Date(d.year - 1, 12, 31)) && Ordinal(Date(d.year - 1, 12, 31)) == Ordinal(d) - 1
  {
    YearLength(d.year - 1);
  }

  lemma YearLength(y: int)
    requires y >= 1
    ensures DaysBeforeYear(y + 1) == DaysBeforeYear(y) + DaysBeforeMonth(y, 12) + 31
  {
    LeapYearDays(y);
    DecemberStart(y);
  }

  /** A year has 366 days exactly when it is a leap year. */
  lemma LeapYearDays(y: int)
    requires y >= 1
    ensures DaysBeforeYear(y + 1) == DaysBeforeYear(y) + 365 + (if IsLeap(y) then 1 else 0)
  {
    var k := y - 1;
    DivStep(k, 4);
    DivStep(k, 100);
    DivStep(k, 400);
    CenturyDivides(y);
  }

  /** A multiple of 400 is one of 100, and a multiple of 100 one of 4. */
  lemma CenturyDivides(y: int)
    ensures y % 400 == 0 ==> y % 100 == 0
    ensures y % 100 == 0 ==> y % 4 == 0
  {
    if y % 400 == 0 {
      assert y == 400 * (y / 400);
      assert y == 100 * (4 * (y / 400));
    }
    if y % 100 == 0 {
      assert y == 100 * (y / 100);
      assert y == 4 * (25 * (y / 100));
    }
  }

  lemma DecemberStart(y: int)
    ensures DaysBeforeMonth(y, 12) == 334 + (if IsLeap(y) then 1 else 0)
  {
  }

  /** The quotient by `n` goes up by one exactly at the multiples of `n`. */
  lemma DivStep(k: int, n: int)
    requires k >= 0 && (n == 4 || n == 100 || n == 400)
    ensures (k + 1) / n == k / n + (if (k + 1) % n == 0 then 1 else 0)
  {
    if n == 4 {
      assert (k + 1) / 4 == k / 4 + (if (k + 1) % 4 == 0 then 1 else 0);
    } else if n == 100 {
      assert (k + 1) / 100 == k / 100 + (if (k + 1) % 100 == 0 then 1 else 0);
    } else {
      assert (k + 1) / 400 == k / 400 + (if (k + 1) % 400 == 0 then 1 else 0);
    }
  }


  lemma FirstDateIsFirst(d: Date)
    requires ValidDate(d)
    ensures Ordinal(d) >= 1
    ensures Ordinal(d) == 1 <==> d == FirstDate
  {
    assert DaysBeforeYear(d.year) >= 0;
    if d.year > 1 {
      assert DaysBeforeYear(d.year) >= 365;
    }
  }

  /**
   * `d - timedelta(days=n)`: `None` stands for the OverflowError raised when the result
   * would fall before 0001-01-01.
   */
  function MinusDays(d: Date, n: nat): (r: Option<Date>)
    requires ValidDate(d)
    ensures r.Some? <==> Ordinal(d) - n >= 1
    ensures r.Some? ==> ValidDate(r.value) && Ordinal(r.value) == Ordinal(d) - n
    decreases n
  {
    if n == 0 then Some(d)
    else if d == FirstDate then None
    else
      FirstDateIsFirst(d);
      MinusDays(PrevDay(d), n - 1)
  }

  /**
   * `t - timedelta(seconds=s)` for `s >= 0`; the day borrow is the floor of the shifted
   * second count over a day.
   */
  function MinusSeconds(t: DateTime, s: nat): (r: Option<DateTime>)
    requires ValidDateTime(t)
    ensures r.Some? ==> ValidDateTime(r.value)
    ensures r.Some? ==> Ordinal(r.value.date) * SecondsPerDay + r.value.second == Ordinal(t.date) * SecondsPerDay + t.second - s
  {
    var shifted := t.second - s;
    var borrow := -(shifted / SecondsPerDay);
    assert borrow >= 0;
    match MinusDays(t.date, borrow)
    case None => None
    case Some(d) => Some(DateTime(d, shifted % SecondsPerDay))
  }

  /** The last valid day of month `m` in year `y`, or `day` when that is earlier: relativedelta's clamp. */
  function ClampDay(y: int, m: int, day: int): (r: int)
    requires 1 <= m <= 12 && 1 <= day
    ensures 1 <= r <= DaysInMonth(y, m) && r <= day
    ensures day <= DaysInMonth(y, m) ==> r == day
  {
    if day <= DaysInMonth(y, m) then day else DaysInMonth(y, m)
  }

  /**
   * `t - relativedelta(months=n)`: month arithmetic on the (year, month) pair, the day clamped
   * to the length of the target month, the time unchanged; `None` stands for the ValueError
   * raised when the year leaves 1..9999.
   */
  function MinusMonths(t: DateTime, n: nat): (r: Option<DateTime>)
    requires ValidDateTime(t)
    ensures r.Some? <==> MinYear * 12 <= t.date.year * 12 + t.date.month - 1 - n
    ensures r.Some? ==> ValidDateTime(r.value) && r.value.second == t.second
    ensures r.Some? ==> r.value.date.year * 12 + r.value.date.month - 1 == t.date.year * 12 + t.date.month - 1 - n
  {
    var index := t.date.year * 12 + t.date.month - 1 - n;
    var y, m := index / 12, index % 12 + 1;
    if y < MinYear then None
    else Some(DateTime(Date(y, m, ClampDay(y, m, t.date.day)), t.second))
  }

  /** `t - relativedelta(years=n)`: February 29 becomes February 28 in a common year. */
  function MinusYears(t: DateTime, n: nat): (r: Option<DateTime>)
    requires ValidDateTime(t)
    ensures r.Some? <==> t.date.year - n >= MinYear
    ensures r.Some? ==> ValidDateTime(r.value) && r.value.second == t.second
    ensures r.Some? ==> r.value.date.year == t.date.year - n && r.value.date.month == t.date.month
    ensures r.Some? && t.date.day <= 28 ==> r.value.date.day == t.date.day
  {
    var y := t.date.year - n;
    if y < MinYear then None
    else Some(DateTime(Date(y, t.date.month, ClampDay(y, t.date.month, t.date.day)), t.second))
  }

  /** Zero-padded decimal digits of `n`, at least `width` of them. */
  function Padded(n: nat, width: nat): (r: string)
    ensures |r| >= width
    ensures forall i :: 0 <= i < |r| ==> IsDigit(r[i])
  {
    var s := NatToString(n);
    if |s| >= width then s else seq(width - |s|, _ => '0') + s
  }

  /** `date.isoformat()`: `YYYY-MM-DD`. */
  function DateIso(d: Date): (r: string)
    requires ValidDate(d)
    ensures |r| == 10 && r[4] == '-' && r[7] == '-'
  {
    PaddedWidth(d.year, 4);
    PaddedWidth(d.month, 2);
    PaddedWidth(d.day, 2);
    Padded(d.year, 4) + "-" + Padded(d.month, 2) + "-" + Padded(d.day, 2)
  }

  lemma PaddedWidth(n: nat, width: nat)
    requires 1 <= width && n < Pow10(width)
    ensures |Padded(n, width)| == width
  {
    NatToStringLength(n, width);
  }

  function Pow10(k: nat): (r: nat)
    ensures r >= 1
  {
    if k == 0 then 1 else 10 * Pow10(k - 1)
  }

  lemma {:induction false} NatToStringLength(n: nat, width: nat)
    requires 1 <= width && n < Pow10(width)
    ensures |NatToString(n)| <= width
    decreases width
  {
    if n >= 10 {
      NatToStringLength(n / 10, width - 1);
    }
  }

  /** `datetime.isoformat()` of a naive date-time without microseconds: `YYYY-MM-DDTHH:MM:SS`. */
  function IsoFormat(t: DateTime): (r: string)
    requires ValidDateTime(t)
    ensures |r| == 19 && r[..10] == DateIso(t.date) && r[10] == 'T'
  {
    var h, m, s := t.second / 3600, t.second % 3600 / 60, t.second % 60;
    PaddedWidth(h, 2);
    PaddedWidth(m, 2);
    PaddedWidth(s, 2);
    var r := DateIso(t.date) + "T" + Padded(h, 2) + ":" + Padded(m, 2) + ":" + Padded(s, 2);
    assert r[..10] == DateIso(t.date);
    r
  }
}
