/**
 * The local-time calendar arithmetic of JavaScript `Date` objects as the application uses
 * them: `new Date(y, m, d)`, `setDate`, `setMonth`, `setFullYear` and `<` on dates.
 * A date is a (year, month 0..11, day) triple on the proleptic Gregorian calendar; days are
 * numbered from 1970-01-01, and out-of-range days and months spill into the neighbouring
 * months the way MakeDay does (section 21.4.1.28 of ECMA-262).
 */
module JsDate {

  predicate IsLeap(y: int) {
    y % 4 == 0 && (y % 100 != 0 || y % 400 == 0)
  }

  function DaysInYear(y: int): int {
    if IsLeap(y) then 366 else 365
  }

  function DaysInMonth(y: int, m: int): (n: int)
    requires 0 <= m < 12
    ensures 28 <= n <= 31
  {
    if m == 1 then (if IsLeap(y) then 29 else 28)
    else if m == 3 || m == 5 || m == 8 || m == 10 then 30
    else 31
  }

  /** Days before the first of each month in a common year. */
  const CUMULATIVE_DAYS: seq<int> := [0, 31, 59, 90, 120, 151, 181, 212, 243, 273, 304, 334, 365]

  /** Days of year `y` before the first of month `m` (`m == 12`: the whole year). */
  function DaysBeforeMonth(y: int, m: int): (r: int)
    requires 0 <= m <= 12
    ensures r >= 0
  {
    CUMULATIVE_DAYS[m] + (if m >= 2 && IsLeap(y) then 1 else 0)
  }

  /** The month table agrees with the month lengths. */
  lemma MonthStep(y: int, m: int)
    requires 0 <= m < 12
    ensures DaysBeforeMonth(y, m + 1) == DaysBeforeMonth(y, m) + DaysInMonth(y, m)
    ensures DaysBeforeMonth(y, 12) == DaysInYear(y)
  {
  }

  /** Days from 1970-01-01 to the first of January of year `y` (negative before 1970). */
  function DaysBeforeYear(y: int): int
    decreases if y >= 1970 then y - 1970 else 1970 - y
  {
    if y == 1970 then 0
    else if y > 1970 then DaysBeforeYear(y - 1) + DaysInYear(y - 1)
    else DaysBeforeYear(y + 1) - DaysInYear(y)
  }

  lemma YearStep(y: int)
    ensures DaysBeforeYear(y + 1) == DaysBeforeYear(y) + DaysInYear(y)
  {
  }

  lemma {:induction false} YearsAtMost(a: int, b: int)
    requires a <= b
    ensures DaysBeforeYear(b) <= DaysBeforeYear(a) + 366 * (b - a)
    decreases b - a
  {
    if a < b {
      YearStep(b - 1);
      YearsAtMost(a, b - 1);
    }
  }

  lemma {:induction false} YearsMonotone(a: int, b: int)
    requires a <= b
    ensures DaysBeforeYear(a) + 365 * (b - a) <= DaysBeforeYear(b)
    decreases b - a
  {
    if a < b {
      YearStep(b - 1);
      YearsMonotone(a, b - 1);
    }
  }

  datatype CalDate = CalDate(year: int, month: int, day: int)

  predicate Valid(d: CalDate) {
    0 <= d.month < 12 && 1 <= d.day <= DaysInMonth(d.year, d.month)
  }

  /** Days since 1970-01-01 (the JavaScript `Day` of the date's local midnight). */
  function DayNumber(d: CalDate): int
    requires 0 <= d.month < 12
  {
    DaysBeforeYear(d.year) + DaysBeforeMonth(d.year, d.month) + d.day - 1
  }

  /** A valid date's day number lies within its year. */
  lemma DayNumberWithinYear(d: CalDate)
    requires Valid(d)
    ensures DaysBeforeYear(d.year) <= DayNumber(d) < DaysBeforeYear(d.year + 1)
  {
    MonthStep(d.year, d.month);
    YearStep(d.year);
    assert DaysBeforeMonth(d.year, d.month + 1) <= DaysBeforeMonth(d.year, 12);
  }

  /** Different valid dates have different day numbers. */
  lemma DayNumberInjective(a: CalDate, b: CalDate)
    requires Valid(a) && Valid(b) && DayNumber(a) == DayNumber(b)
    ensures a == b
  {
    DayNumberWithinYear(a);
    DayNumberWithinYear(b);
    if a.year < b.year {
      YearsMonotone(a.year + 1, b.year);
      assert false;
    } else if b.year < a.year {
      YearsMonotone(b.year + 1, a.year);
      assert false;
    }
    MonthStep(a.year, a.month);
    MonthStep(b.year, b.month);
  }

  /**
   * Day `d` of month `m` of year `y`, counting on from the first of that month:
   * day 0 is the last day of the previous month, day 32 of January is the first of February.
   */
  function Norm(y: int, m: int, d: int): (r: CalDate)
    requires 0 <= m < 12
    ensures Valid(r)
    ensures DayNumber(r) == DaysBeforeYear(y) + DaysBeforeMonth(y, m) + d - 1
    decreases (if d < 1 then 1 - d else 0), (if d > 0 then d else 0)
  {
    if d < 1 then
      var py := if m == 0 then y - 1 else y;
      var pm := if m == 0 then 11 else m - 1;
      MonthStep(py, pm);
      YearStep(py);
      Norm(py, pm, d + DaysInMonth(py, pm))
    else if d > DaysInMonth(y, m) then
      var ny := if m == 11 then y + 1 else y;
      var nm := if m == 11 then 0 else m + 1;
      MonthStep(y, m);
      YearStep(y);
      Norm(ny, nm, d - DaysInMonth(y, m))
    else
      CalDate(y, m, d)
  }

  /** A valid date is its own normal form. */
  lemma NormOfValid(d: CalDate)
    requires Valid(d)
    ensures Norm(d.year, d.month, d.day) == d
  {
  }

  /** `new Date(y, m, d)` maps the years 0..99 to 1900..1999. */
  function JsYear(y: int): (r: int)
    ensures r >= y
    ensures 0 <= y <= 99 ==> r == 1900 + y
    ensures !(0 <= y <= 99) ==> r == y
  {
    if 0 <= y <= 99 then 1900 + y else y
  }

  const MS_PER_DAY: int := 86400000

  /** A local date and the milliseconds elapsed since its midnight. */
  datatype Instant = Instant(date: CalDate, ms: int)

  predicate ValidInstant(t: Instant) {
    Valid(t.date) && 0 <= t.ms < MS_PER_DAY
  }

  /** Milliseconds since 1970-01-01 00:00 local time. */
  function TimeValue(t: Instant): int
    requires 0 <= t.date.month < 12
  {
    DayNumber(t.date) * MS_PER_DAY + t.ms
  }

  /**
   * The largest magnitude of a `Date`'s time value: 8.64e15 milliseconds, that is
   * 100 000 000 days either side of 1970-01-01. TimeClip (section 21.4.1 of ECMA-262)
   * turns a time value beyond it into NaN, the Invalid Date.
   */
  const MAX_TIME_VALUE: int := 8_640_000_000_000_000

  predicate InTimeRange(t: Instant)
    requires 0 <= t.date.month < 12
  {
    -MAX_TIME_VALUE <= TimeValue(t) <= MAX_TIME_VALUE
  }

  /** An instant `new Date()` can return: a valid local date and time within the range. */
  predicate IsNow(t: Instant) {
    ValidInstant(t) && InTimeRange(t)
  }

  /** An instant more than 800 days inside the range, as every clock reading of our era is. */
  predicate FarFromLimit(t: Instant) {
    IsNow(t) && -MAX_TIME_VALUE + 800 * MS_PER_DAY <= TimeValue(t) <= MAX_TIME_VALUE - 800 * MS_PER_DAY
  }

  /** An instant whose day lies within 790 days of a far-from-limit instant's day is within range. */
  lemma NearIsInRange(t: Instant, u: Instant)
    requires FarFromLimit(t) && ValidInstant(u)
    requires DayNumber(t.date) - 790 <= DayNumber(u.date) <= DayNumber(t.date) + 790
    ensures InTimeRange(u)
  {
  }

  /** What a `Date` object holds: an instant, or the Invalid Date. */
  datatype DateValue = DateOf(instant: Instant) | InvalidDate

  /** The `Date` a calendar operation leaves: its instant when within range, else the Invalid Date. */
  function Clip(t: Instant): (r: DateValue)
    requires ValidInstant(t)
    ensures r.DateOf? <==> InTimeRange(t)
    ensures r.DateOf? ==> r.instant == t && IsNow(t)
  {
    if InTimeRange(t) then DateOf(t) else InvalidDate
  }

  /** Moving `n` days moves the time value by `n` whole days. */
  lemma AddDaysTimeValue(t: Instant, n: int)
    requires ValidInstant(t)
    ensures TimeValue(AddDays(t, n)) == TimeValue(t) + n * MS_PER_DAY
  {
  }

  /** `a < b` on two dates, which compares their time values. */
  predicate Before(a: Instant, b: Instant)
    requires ValidInstant(a) && ValidInstant(b)
  {
    TimeValue(a) < TimeValue(b)
  }

  /** Comparing time values compares day numbers first, then the time of day. */
  lemma BeforeByDay(a: Instant, b: Instant)
    requires ValidInstant(a) && ValidInstant(b)
    ensures Before(a, b) <==>
      DayNumber(a.date) < DayNumber(b.date) || (DayNumber(a.date) == DayNumber(b.date) && a.ms < b.ms)
  {
    var da, db := DayNumber(a.date), DayNumber(b.date);
    if da < db {
      assert da * MS_PER_DAY + MS_PER_DAY <= db * MS_PER_DAY;
    } else if da > db {
      assert db * MS_PER_DAY + MS_PER_DAY <= da * MS_PER_DAY;
    }
  }

  /** `new Date(y, m, d)`: local midnight of the normalised date. */
  function MakeDate(y: int, m: int, d: int): (r: Instant)
    requires 0 <= m < 12
    ensures ValidInstant(r) && r.ms == 0
    ensures DayNumber(r.date) == DaysBeforeYear(JsYear(y)) + DaysBeforeMonth(JsYear(y), m) + d - 1
  {
    Instant(Norm(JsYear(y), m, d), 0)
  }

  /** `t.setDate(t.getDate() + n)`: `n` days later at the same time of day. */
  function AddDays(t: Instant, n: int): (r: Instant)
    requires ValidInstant(t)
    ensures ValidInstant(r) && r.ms == t.ms
    ensures DayNumber(r.date) == DayNumber(t.date) + n
  {
    Instant(Norm(t.date.year, t.date.month, t.date.day + n), t.ms)
  }

  /** `t.setMonth(t.getMonth() + 1)`: the same day number in the next month, spilling over when that month is shorter. */
  function AddMonth(t: Instant): (r: Instant)
    requires ValidInstant(t)
    ensures ValidInstant(r) && r.ms == t.ms
    ensures t.date.month < 11 ==> DayNumber(r.date) == DaysBeforeYear(t.date.year) + DaysBeforeMonth(t.date.year, t.date.month + 1) + t.date.day - 1
    ensures t.date.month == 11 ==> DayNumber(r.date) == DaysBeforeYear(t.date.year + 1) + t.date.day - 1
  {
    var y := if t.date.month == 11 then t.date.year + 1 else t.date.year;
    var m := if t.date.month == 11 then 0 else t.date.month + 1;
    Instant(Norm(y, m, t.date.day), t.ms)
  }

  /** `t.setFullYear(t.getFullYear() + 1)`: the same month and day a year later (29 February becomes 1 March). */
  function AddYear(t: Instant): (r: Instant)
    requires ValidInstant(t)
    ensures ValidInstant(r) && r.ms == t.ms
    ensures DayNumber(r.date) == DaysBeforeYear(t.date.year + 1) + DaysBeforeMonth(t.date.year + 1, t.date.month) + t.date.day - 1
    ensures DayNumber(r.date) >= DaysBeforeYear(t.date.year + 1)
  {
    Instant(Norm(t.date.year + 1, t.date.month, t.date.day), t.ms)
  }

  /** `setMonth` one on moves a date by the length of its month, at most 31 days. */
  lemma AddMonthAtMost(t: Instant)
    requires ValidInstant(t)
    ensures DayNumber(AddMonth(t).date) <= DayNumber(t.date) + 31
  {
    MonthStep(t.date.year, t.date.month);
    YearStep(t.date.year);
  }

  /** `setFullYear` one on moves a date by 364 to 367 days. */
  lemma AddYearBounds(t: Instant)
    requires ValidInstant(t)
    ensures DayNumber(t.date) + 364 <= DayNumber(AddYear(t).date) <= DayNumber(t.date) + 367
  {
    YearStep(t.date.year);
  }

  /** Moving a date by `a` days and then by `b` days moves it by `a + b` days. */
  lemma AddDaysCompose(t: Instant, a: int, b: int)
    requires ValidInstant(t)
    ensures AddDays(AddDays(t, a), b) == AddDays(t, a + b)
  {
    DayNumberInjective(AddDays(AddDays(t, a), b).date, AddDays(t, a + b).date);
  }
}
