/**
 * Local calendar time without a date library.
 *
 * An instant is a number of milliseconds since 1970-01-01 00:00 on the local
 * wall clock; a day is the number of local calendar days since that date.
 * Two instants share their local date, month and year exactly when they
 * share their day number, since the (year, month, date) of a day number
 * determines it and is determined by it.
 */
module Time {

  type Instant = int
  type Day = int

  const MsPerMinute: int := 60_000
  const MsPerHour: int := 60 * MsPerMinute
  const MsPerDay: int := 24 * MsPerHour
  const MsPerWeek: int := 7 * MsPerDay

  /** The local calendar day an instant falls on (time of day dropped). */
  function DayOf(t: Instant): (d: Day)
    ensures d * MsPerDay <= t < (d + 1) * MsPerDay
  {
    t / MsPerDay
  }

  /** A day number is the only one whose 24 hours contain the instant. */
  lemma DayOfUnique(t: Instant, d: Day)
    requires d * MsPerDay <= t < (d + 1) * MsPerDay
    ensures DayOf(t) == d
  {
  }

  /** An instant falls on day `d` exactly when it lies in `d`'s 24 hours. */
  lemma DayOfIff(t: Instant, d: Day)
    ensures DayOf(t) == d <==> d * MsPerDay <= t < (d + 1) * MsPerDay
  {
    if d * MsPerDay <= t < (d + 1) * MsPerDay {
      DayOfUnique(t, d);
    }
  }

  /** Later instants never fall on earlier days. */
  lemma DayOfMonotone(t1: Instant, t2: Instant)
    requires t1 <= t2
    ensures DayOf(t1) <= DayOf(t2)
  {
  }

  /** `setHours(0, 0, 0, 0)`: local midnight at the start of the instant's day. */
  function StartOfDay(t: Instant): (m: Instant)
    ensures m % MsPerDay == 0
    ensures m <= t < m + MsPerDay
    ensures DayOf(m) == DayOf(t)
  {
    DayOfUnique(DayOf(t) * MsPerDay, DayOf(t));
    DayOf(t) * MsPerDay
  }

  /** Moving an instant by whole days moves its day number by the same count. */
  lemma DayOfShift(t: Instant, n: int)
    ensures DayOf(t + n * MsPerDay) == DayOf(t) + n
  {
    DayOfUnique(t + n * MsPerDay, DayOf(t) + n);
  }

  /** JavaScript `getDay()`: 0 is Sunday. 1970-01-01 was a Thursday (4). */
  function Weekday(d: Day): (w: int)
    ensures 0 <= w < 7
  {
    (d + 4) % 7
  }

  /** `startOfWeek(d, { weekStartsOn: 0 })`: the Sunday on or before `d`. */
  function WeekStart(d: Day): (s: Day)
    ensures Weekday(s) == 0
    ensures s <= d < s + 7
  {
    d - Weekday(d)
  }

  /** Only one Sunday lies within the six days before `d` or on `d` itself. */
  lemma WeekStartUnique(d: Day, s: Day)
    requires Weekday(s) == 0 && s <= d < s + 7
    ensures s == WeekStart(d)
  {
    var w := WeekStart(d);
    assert (s + 4) % 7 == 0 && (w + 4) % 7 == 0;
    assert (s + 4) == 7 * ((s + 4) / 7) && (w + 4) == 7 * ((w + 4) / 7);
    assert -7 < s - w < 7;
  }

  /** Shifting an instant by a whole week shifts its week's Sunday by seven days. */
  lemma WeekStartShift(t: Instant, n: int)
    ensures WeekStart(DayOf(t + n * MsPerWeek)) == WeekStart(DayOf(t)) + 7 * n
  {
    assert n * MsPerWeek == (7 * n) * MsPerDay;
    DayOfShift(t, 7 * n);
    var d, s := DayOf(t), WeekStart(DayOf(t));
    assert Weekday(s + 7 * n) == Weekday(s);
    WeekStartUnique(d + 7 * n, s + 7 * n);
  }

  // ---------------------------------------------------------------------
  // Months of the proleptic Gregorian calendar, as ranges of day numbers.

  type MonthNumber = m: int | 1 <= m <= 12 witness 1

  datatype YearMonth = YearMonth(year: int, month: MonthNumber)

  predicate IsLeapYear(y: int)
  {
    y % 4 == 0 && (y % 100 != 0 || y % 400 == 0)
  }

  function YearLength(y: int): (n: int)
    ensures n == 365 || n == 366
  {
    if IsLeapYear(y) then 366 else 365
  }

  function DaysInMonth(ym: YearMonth): (n: int)
    ensures 28 <= n <= 31
  {
    match ym.month
    case 2 => if IsLeapYear(ym.year) then 29 else 28
    case 4 => 30
    case 6 => 30
    case 9 => 30
    case 11 => 30
    case _ => 31
  }

  /** Leap years among the years before `y` (counted from an arbitrary origin). */
  function LeapsBefore(y: int): int
  {
    (y - 1) / 4 - (y - 1) / 100 + (y - 1) / 400
  }

  /** Day number of January 1st of year `y`. */
  function YearStart(y: int): Day
  {
    365 * (y - 1970) + LeapsBefore(y) - LeapsBefore(1970)
  }

  /** Days of year `ym.year` before the 1st of month `ym.month`. */
  function DaysBeforeMonth(ym: YearMonth): (n: int)
    ensures 0 <= n <= 335
  {
    var before := [0, 31, 59, 90, 120, 151, 181, 212, 243, 273, 304, 334];
    before[ym.month - 1] + (if ym.month > 2 && IsLeapYear(ym.year) then 1 else 0)
  }

  /** Day number of the 1st of the month (`startOfMonth`). */
  function MonthStart(ym: YearMonth): Day
  {
    YearStart(ym.year) + DaysBeforeMonth(ym)
  }

  /** The day belongs to the month: its local year and month are `ym`'s (`isSameMonth`). */
  predicate InMonth(d: Day, ym: YearMonth)
  {
    MonthStart(ym) <= d < MonthStart(ym) + DaysInMonth(ym)
  }

  /** `addMonths(m, 1)`, seen through the year and month of its result. */
  function NextMonth(ym: YearMonth): (r: YearMonth)
    ensures MonthIndex(r) == MonthIndex(ym) + 1
  {
    if ym.month == 12 then YearMonth(ym.year + 1, 1) else YearMonth(ym.year, ym.month + 1)
  }

  /** `subMonths(m, 1)`, seen through the year and month of its result. */
  function PrevMonth(ym: YearMonth): (r: YearMonth)
    ensures MonthIndex(r) == MonthIndex(ym) - 1
  {
    if ym.month == 1 then YearMonth(ym.year - 1, 12) else YearMonth(ym.year, ym.month - 1)
  }

  /** Months counted from January of year 0. */
  function MonthIndex(ym: YearMonth): int
  {
    12 * ym.year + ym.month - 1
  }

  lemma MonthIndexInjective(a: YearMonth, b: YearMonth)
    requires MonthIndex(a) == MonthIndex(b)
    ensures a == b
  {
  }

  /** Moving forward one month and back again (or back, then forward) returns to the same month. */
  lemma NextPrevInverse(ym: YearMonth)
    ensures PrevMonth(NextMonth(ym)) == ym
    ensures NextMonth(PrevMonth(ym)) == ym
  {
    MonthIndexInjective(PrevMonth(NextMonth(ym)), ym);
    MonthIndexInjective(NextMonth(PrevMonth(ym)), ym);
  }

  /** Stepping from `y - 1` to `y` passes a multiple of `m` exactly when `y` is one. */
  lemma DivStep(y: int, m: int)
    requires m > 0
    ensures y / m - (y - 1) / m == (if y % m == 0 then 1 else 0)
  {
    var q, r := y / m, y % m;
    if r == 0 {
      DivUnique(y - 1, m, q - 1, m - 1);
    } else {
      DivUnique(y - 1, m, q, r - 1);
    }
  }

  /** Euclidean division is unique: quotient and remainder are determined by `a` and `m`. */
  lemma DivUnique(a: int, m: int, q: int, r: int)
    requires m > 0 && a == m * q + r && 0 <= r < m
    ensures a / m == q && a % m == r
  {
    var q0, r0 := a / m, a % m;
    assert m * (q - q0) == r0 - r;
    if q0 < q {
      MulAtLeast(m, q - q0);
    } else if q < q0 {
      MulAtLeast(m, q0 - q);
    }
  }

  /** A positive multiple of a positive number is at least that number. */
  lemma MulAtLeast(m: int, k: int)
    requires m > 0 && k >= 1
    ensures m * k >= m
  {
  }

  /** Consecutive New Year's Days lie a year's length apart: 365 days, or 366 in a leap year. */
  lemma YearStartStep(y: int)
    ensures YearStart(y + 1) == YearStart(y) + YearLength(y)
  {
    DivStep(y, 4);
    DivStep(y, 100);
    DivStep(y, 400);
  }

  /**
   * Months tile the day line: the month after `ym` starts on the day after
   * `ym`'s last day.
   */
  lemma MonthsTile(ym: YearMonth)
    ensures MonthStart(NextMonth(ym)) == MonthStart(ym) + DaysInMonth(ym)
  {
    if ym.month == 12 {
      YearStartStep(ym.year);
    }
  }

  /** A month that comes later starts after every day of an earlier month. */
  lemma {:induction false} MonthsOrdered(a: YearMonth, b: YearMonth)
    requires MonthIndex(a) < MonthIndex(b)
    ensures MonthStart(a) + DaysInMonth(a) <= MonthStart(b)
    decreases MonthIndex(b) - MonthIndex(a)
  {
    MonthsTile(a);
    var n := NextMonth(a);
    if MonthIndex(n) == MonthIndex(b) {
      MonthIndexInjective(n, b);
    } else {
      MonthsOrdered(n, b);
    }
  }

  /** A day lies in at most one month, so `InMonth` names the day's own month. */
  lemma InMonthUnique(d: Day, a: YearMonth, b: YearMonth)
    requires InMonth(d, a) && InMonth(d, b)
    ensures a == b
  {
    if MonthIndex(a) < MonthIndex(b) {
      MonthsOrdered(a, b);
    } else if MonthIndex(b) < MonthIndex(a) {
      MonthsOrdered(b, a);
    } else {
      MonthIndexInjective(a, b);
    }
  }

  /**
   * The month of day `d`, found by walking month by month from `m`: back
   * while `d` lies before `m`, forward while it lies after.
   */
  function MonthFrom(d: Day, m: YearMonth): (r: YearMonth)
    ensures InMonth(d, r)
    decreases if d < MonthStart(m) then 1 else 0, if d < MonthStart(m) then MonthStart(m) - d else d - MonthStart(m)
  {
    if d < MonthStart(m) then
      NextPrevInverse(m);
      MonthsTile(PrevMonth(m));
      MonthFrom(d, PrevMonth(m))
    else if d < MonthStart(m) + DaysInMonth(m) then m
    else
      MonthsTile(m);
      MonthFrom(d, NextMonth(m))
  }

  /** The local year and month of a day (`getFullYear`, `getMonth`): every day lies in a month. */
  function MonthOf(d: Day): (r: YearMonth)
    ensures InMonth(d, r)
  {
    MonthFrom(d, YearMonth(1970, 1))
  }

  /** `isSameMonth(day, m)` holds exactly when `m` is the day's own month: each day lies in exactly one month. */
  lemma InMonthIff(d: Day, ym: YearMonth)
    ensures InMonth(d, ym) <==> ym == MonthOf(d)
  {
    if InMonth(d, ym) {
      InMonthUnique(d, ym, MonthOf(d));
    }
  }

  /** Day numbering agrees with the calendar: day 0 is 1970-01-01, a Thursday; 2024-03-01 was a Friday. */
  lemma CalendarAnchors()
    ensures MonthStart(YearMonth(1970, 1)) == 0 && Weekday(0) == 4
    ensures MonthStart(YearMonth(2024, 3)) == 19783 && Weekday(19783) == 5
  {
  }
}
