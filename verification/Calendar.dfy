/**
 The proleptic Gregorian calendar as `chrono::NaiveDateTime` keeps it: a wall-clock reading with
 no time zone. Days are counted from 0001-01-01, which is a Monday.
 */
module Calendar {

  const SECONDS_PER_MINUTE: int := 60
  const SECONDS_PER_HOUR: int := 3600
  const SECONDS_PER_DAY: int := 86400
  const NANOS_PER_SECOND: int := 1000000000
  const HOURS_PER_DAY: int := 24
  const DAYS_PER_WEEK: int := 7
  const MONTHS_PER_YEAR: int := 12

  /** `month0` counts from zero, like `Datelike::month0`. */
  datatype DateTime = DateTime(year: int, month0: int, day: int, hour: int, minute: int, second: int, nanos: int)

  predicate LeapYear(year: int) {
    year % 4 == 0 && (year % 100 != 0 || year % 400 == 0)
  }

  function DaysInMonth(year: int, month0: int): (n: int)
    requires 0 <= month0 < 12
    ensures 28 <= n <= 31
  {
    if month0 == 1 then (if LeapYear(year) then 29 else 28)
    else if month0 in {3, 5, 8, 10} then 30
    else 31
  }

  predicate ValidDate(year: int, month0: int, day: int) {
    0 <= month0 < 12 && 1 <= day <= DaysInMonth(year, month0)
  }

  predicate ValidTime(hour: int, minute: int, second: int) {
    0 <= hour < 24 && 0 <= minute < 60 && 0 <= second < 60
  }

  predicate Valid(dt: DateTime) {
    && ValidDate(dt.year, dt.month0, dt.day)
    && ValidTime(dt.hour, dt.minute, dt.second)
    && 0 <= dt.nanos < NANOS_PER_SECOND
  }

  function YearLength(year: int): (n: int)
    ensures 365 <= n <= 366
  {
    if LeapYear(year) then 366 else 365
  }

  /** Days from 0001-01-01 to the first of January of `year`; negative before year 1. */
  function DaysBeforeYear(year: int): int
    decreases if year < 1 then 2 - year else year
  {
    if year == 1 then 0
    else if year < 1 then DaysBeforeYear(year + 1) - YearLength(year)
    else DaysBeforeYear(year - 1) + YearLength(year - 1)
  }

  /** Days of the year that precede the month; `month0 == 12` gives the length of the year. */
  function DaysBeforeMonth(year: int, month0: int): (n: int)
    requires 0 <= month0 <= 12
    ensures 0 <= n
  {
    [0, 31, 59, 90, 120, 151, 181, 212, 243, 273, 304, 334, 365][month0]
    + (if 2 <= month0 && LeapYear(year) then 1 else 0)
  }

  function DayNumber(year: int, month0: int, day: int): int
    requires 0 <= month0 < 12
  {
    DaysBeforeYear(year) + DaysBeforeMonth(year, month0) + day - 1
  }

  function DayOf(dt: DateTime): int
    requires Valid(dt)
  {
    DayNumber(dt.year, dt.month0, dt.day)
  }

  /** `Weekday::num_days_from_sunday` of the day with this number. */
  function WeekdayFromSunday(dayNumber: int): (w: int)
    ensures 0 <= w < 7
  {
    (dayNumber + 1) % 7
  }

  /** Whole seconds on the wall clock since 0001-01-01T00:00:00. */
  function Seconds(dt: DateTime): int
    requires Valid(dt)
  {
    DayOf(dt) * SECONDS_PER_DAY + dt.hour * SECONDS_PER_HOUR + dt.minute * SECONDS_PER_MINUTE + dt.second
  }

  function HourIndex(dt: DateTime): int
    requires Valid(dt)
  {
    DayOf(dt) * HOURS_PER_DAY + dt.hour
  }

  lemma HourIndexOfSeconds(dt: DateTime)
    requires Valid(dt)
    ensures HourIndex(dt) == Seconds(dt) / SECONDS_PER_HOUR
    ensures DayOf(dt) == HourIndex(dt) / HOURS_PER_DAY == Seconds(dt) / SECONDS_PER_DAY
  {
  }

  // ---------------------------------------------------------------------------
  // Months on the day line
  // ---------------------------------------------------------------------------

  function MonthIndex(year: int, month0: int): int {
    year * MONTHS_PER_YEAR + month0
  }

  /** The day number of the first day of a month. */
  function FirstDay(month: int): int {
    DaysBeforeYear(month / 12) + DaysBeforeMonth(month / 12, month % 12)
  }

  lemma YearStep(year: int)
    ensures DaysBeforeYear(year + 1) == DaysBeforeYear(year) + YearLength(year)
  {
  }

  lemma MonthStep(year: int, month0: int)
    requires 0 <= month0 < 12
    ensures DaysBeforeMonth(year, month0 + 1) == DaysBeforeMonth(year, month0) + DaysInMonth(year, month0)
  {
  }

  lemma MonthLength(month: int)
    ensures FirstDay(month + 1) == FirstDay(month) + DaysInMonth(month / 12, month % 12)
  {
    MonthStep(month / 12, month % 12);
    if month % 12 == 11 {
      YearStep(month / 12);
      assert (month + 1) / 12 == month / 12 + 1 && (month + 1) % 12 == 0;
    } else {
      assert (month + 1) / 12 == month / 12 && (month + 1) % 12 == month % 12 + 1;
    }
  }

  lemma {:induction false} FirstDayMonotone(a: int, b: int)
    requires a <= b
    ensures FirstDay(a) + 28 * (b - a) <= FirstDay(b)
    decreases b - a
  {
    if a < b {
      FirstDayMonotone(a, b - 1);
      MonthLength(b - 1);
    }
  }

  /** A date lies inside its own month. */
  lemma {:induction false} DateInMonth(year: int, month0: int, day: int)
    requires ValidDate(year, month0, day)
    ensures DayNumber(year, month0, day) == FirstDay(MonthIndex(year, month0)) + day - 1
    ensures FirstDay(MonthIndex(year, month0)) <= DayNumber(year, month0, day) < FirstDay(MonthIndex(year, month0) + 1)
  {
    var month := MonthIndex(year, month0);
    assert month / 12 == year && month % 12 == month0;
    MonthLength(month);
  }

  // ---------------------------------------------------------------------------
  // The closed form
  // ---------------------------------------------------------------------------

  /** Years since 0001, every fourth of them a leap year, but of the centuries only every fourth. */
  lemma {:induction false} YearsInDays(year: int)
    ensures DaysBeforeYear(year) == 365 * (year - 1) + (year - 1) / 4 - (year - 1) / 100 + (year - 1) / 400
    decreases if year < 1 then 2 - year else year
  {
    if year > 1 {
      YearsInDays(year - 1);
      LeapsBetween(year - 1);
    } else if year < 1 {
      YearsInDays(year + 1);
      LeapsBetween(year);
    }
  }

  lemma FourthYears(year: int)
    ensures year / 4 - (year - 1) / 4 == if year % 4 == 0 then 1 else 0
  {
  }

  lemma Centuries(year: int)
    ensures year / 100 - (year - 1) / 100 == if year % 100 == 0 then 1 else 0
  {
  }

  lemma FourthCenturies(year: int)
    ensures year / 400 - (year - 1) / 400 == if year % 400 == 0 then 1 else 0
    ensures year % 400 == 0 ==> year % 100 == 0
    ensures year % 100 == 0 ==> year % 4 == 0
  {
  }

  lemma LeapsBetween(year: int)
    ensures YearLength(year)
      == 365 + (year / 4 - (year - 1) / 4) - (year / 100 - (year - 1) / 100) + (year / 400 - (year - 1) / 400)
  {
    FourthYears(year);
    Centuries(year);
    FourthCenturies(year);
  }

  /**
   The day number without a table: in years that begin in March the leap day comes last, and the months
   have 31, 30, 31, 30, 31 days again and again.
   */
  lemma ClosedForm(year: int, month0: int, day: int)
    requires 0 <= month0 < 12
    ensures
      var y := if month0 < 2 then year - 1 else year;
      var m := if month0 < 2 then month0 + 10 else month0 - 2;
      DayNumber(year, month0, day) == 365 * y + y / 4 - y / 100 + y / 400 + (153 * m + 2) / 5 + day - 307
  {
    YearsInDays(year);
    YearsInDays(year + 1);
    YearStep(year);
    assert 2 <= month0 ==> DaysBeforeMonth(year, month0) == YearLength(year) - 306 + (153 * (month0 - 2) + 2) / 5;
  }

  /** The first of January 1970 was a Thursday. */
  lemma FirstOf1970()
    ensures DayNumber(1970, 0, 1) == 719162 && WeekdayFromSunday(DayNumber(1970, 0, 1)) == 4
  {
    ClosedForm(1970, 0, 1);
  }

  // ---------------------------------------------------------------------------
  // From a day number back to the date
  // ---------------------------------------------------------------------------

  /** The year that is running on day `n`, found by walking from `year`. */
  function YearFrom(n: int, year: int): (r: int)
    ensures DaysBeforeYear(r) <= n < DaysBeforeYear(r + 1)
    decreases if n < DaysBeforeYear(year) then DaysBeforeYear(year) - n + 1
              else if n < DaysBeforeYear(year + 1) then 0 else n - DaysBeforeYear(year) + 1
  {
    YearStep(year);
    YearStep(year - 1);
    YearStep(year + 1);
    if n < DaysBeforeYear(year) then YearFrom(n, year - 1)
    else if n < DaysBeforeYear(year + 1) then year
    else YearFrom(n, year + 1)
  }

  function MonthFrom(year: int, dayOfYear: int, upTo: nat): (month0: nat)
    requires upTo < 12
    requires 0 <= dayOfYear < DaysBeforeMonth(year, upTo + 1)
    ensures month0 < 12
    ensures DaysBeforeMonth(year, month0) <= dayOfYear < DaysBeforeMonth(year, month0 + 1)
  {
    if DaysBeforeMonth(year, upTo) <= dayOfYear then upTo else MonthFrom(year, dayOfYear, upTo - 1)
  }

  /** The calendar date of a day number, as (year, month0, day). */
  function DateOfDay(n: int): (date: (int, int, int))
    ensures ValidDate(date.0, date.1, date.2)
    ensures DayNumber(date.0, date.1, date.2) == n
  {
    var year := YearFrom(n, 1);
    YearStep(year);
    var dayOfYear := n - DaysBeforeYear(year);
    var month0 := MonthFrom(year, dayOfYear, 11);
    MonthStep(year, month0);
    (year, month0, dayOfYear - DaysBeforeMonth(year, month0) + 1)
  }

  /** The month a day falls in, counted from year 0. */
  function MonthOfDay(n: int): int {
    var date := DateOfDay(n);
    MonthIndex(date.0, date.1)
  }

  lemma MonthOfDayBounds(n: int)
    ensures FirstDay(MonthOfDay(n)) <= n < FirstDay(MonthOfDay(n) + 1)
    ensures MonthOfDay(n) / 12 == DateOfDay(n).0
  {
    var date := DateOfDay(n);
    DateInMonth(date.0, date.1, date.2);
  }

  /** `MonthOfDay` is the only month whose days include `n`. */
  lemma MonthOfDayUnique(n: int, month: int)
    requires FirstDay(month) <= n < FirstDay(month + 1)
    ensures MonthOfDay(n) == month
  {
    MonthOfDayBounds(n);
    MonthsDoNotOverlap(n, MonthOfDay(n), n, month);
    MonthsDoNotOverlap(n, month, n, MonthOfDay(n));
  }

  lemma MonthsDoNotOverlap(m: int, a: int, n: int, b: int)
    requires m < FirstDay(a + 1) && FirstDay(b) <= n && n <= m
    ensures b <= a
  {
    if a + 1 <= b {
      FirstDayMonotone(a + 1, b);
    }
  }

  lemma MonthOfDayMonotone(a: int, b: int)
    requires a <= b
    ensures MonthOfDay(a) <= MonthOfDay(b)
  {
    MonthOfDayBounds(a);
    MonthOfDayBounds(b);
    MonthsDoNotOverlap(b, MonthOfDay(b), a, MonthOfDay(a));
  }

  lemma MonthIndexInjective(y: int, m: int, year: int, month0: int)
    requires 0 <= m < 12 && 0 <= month0 < 12 && MonthIndex(y, m) == MonthIndex(year, month0)
    ensures y == year && m == month0
  {
  }

  lemma {:induction false} MonthRoundTrip(year: int, month0: int, day: int)
    requires ValidDate(year, month0, day)
    ensures MonthOfDay(DayNumber(year, month0, day)) == MonthIndex(year, month0)
  {
    DateInMonth(year, month0, day);
    MonthOfDayUnique(DayNumber(year, month0, day), MonthIndex(year, month0));
  }

  /** Converting a date to its day number and back is the identity. */
  lemma {:induction false} DateRoundTrip(year: int, month0: int, day: int)
    requires ValidDate(year, month0, day)
    ensures DateOfDay(DayNumber(year, month0, day)) == (year, month0, day)
    ensures MonthOfDay(DayNumber(year, month0, day)) == MonthIndex(year, month0)
  {
    MonthRoundTrip(year, month0, day);
    var date := DateOfDay(DayNumber(year, month0, day));
    MonthIndexInjective(date.0, date.1, year, month0);
    SameDay(year, month0, date.2, day);
  }

  lemma {:induction false} SameDay(year: int, month0: int, a: int, b: int)
    requires 0 <= month0 < 12 && DayNumber(year, month0, a) == DayNumber(year, month0, b)
    ensures a == b
  {
  }

  lemma SplitClock(rest: int)
    requires 0 <= rest < SECONDS_PER_DAY
    ensures ValidTime(rest / 3600, rest % 3600 / 60, rest % 60)
    ensures rest / 3600 * SECONDS_PER_HOUR + rest % 3600 / 60 * SECONDS_PER_MINUTE + rest % 60 == rest
  {
  }

  /** The wall-clock reading with this second count. */
  function FromSeconds(s: int): (dt: DateTime)
    ensures Valid(dt) && dt.nanos == 0 && Seconds(dt) == s
  {
    var date := DateOfDay(s / SECONDS_PER_DAY);
    var rest := s % SECONDS_PER_DAY;
    SplitClock(rest);
    DateTime(date.0, date.1, date.2, rest / 3600, rest % 3600 / 60, rest % 60, 0)
  }
}
