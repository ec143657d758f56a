/**
 * Local calendar dates as JavaScript `Date` objects hold them, reduced to what the
 * domain needs: validity, chronological order, and the start dates that the
 * top-selling-products report derives from "now".
 */
module Calendar {

  const MillisPerDay: int := 86_400_000

  /** A local date and time of day (the month is 1-based here; `Date.getMonth()` is 0-based). */
  datatype DateTime = DateTime(year: int, month: int, day: int, millis: int)
  {
    /** The fields name a real calendar day and a time within it. */
    predicate WellFormed()
    {
      1 <= month <= 12 && 1 <= day <= DaysInMonth(year, month) && 0 <= millis < MillisPerDay
    }
  }

  /** Proleptic Gregorian leap years (Dafny's `%` is Euclidean, so this also holds for negative years). */
  predicate IsLeapYear(y: int)
  {
    y % 4 == 0 && (y % 100 != 0 || y % 400 == 0)
  }

  function DaysInYear(y: int): int
  {
    if IsLeapYear(y) then 366 else 365
  }

  function DaysInMonth(y: int, m: int): int
  {
    if m == 2 then (if IsLeapYear(y) then 29 else 28)
    else if m == 4 || m == 6 || m == 9 || m == 11 then 30
    else 31
  }

  /** Days of year `y` that come before the first of month `m`. */
  function DaysBeforeMonth(y: int, m: int): int
    requires 1 <= m <= 12
  {
    (if m == 1 then 0 else if m == 2 then 31 else if m == 3 then 59 else if m == 4 then 90
     else if m == 5 then 120 else if m == 6 then 151 else if m == 7 then 181 else if m == 8 then 212
     else if m == 9 then 243 else if m == 10 then 273 else if m == 11 then 304 else 334)
    + (if m > 2 && IsLeapYear(y) then 1 else 0)
  }

  /** Days from 1 January of year 0 to 1 January of year `y` (negative for earlier years). */
  function DaysBeforeYear(y: int): int
    decreases if y < 0 then -y else y
  {
    if y == 0 then 0
    else if y > 0 then DaysBeforeYear(y - 1) + DaysInYear(y - 1)
    else DaysBeforeYear(y + 1) - DaysInYear(y)
  }

  /** A day count independent of the field layout: consecutive days get consecutive numbers. */
  function DayNumber(t: DateTime): int
    requires 1 <= t.month <= 12
  {
    DaysBeforeYear(t.year) + DaysBeforeMonth(t.year, t.month) + t.day - 1
  }

  /** Months since January of year 0. */
  function MonthNumber(t: DateTime): int
  {
    12 * t.year + t.month - 1
  }

  /** `a <= b` on dates: field-by-field comparison, most significant field first. */
  predicate NotAfter(a: DateTime, b: DateTime)
  {
    a.year < b.year ||
    (a.year == b.year && (a.month < b.month ||
    (a.month == b.month && (a.day < b.day ||
    (a.day == b.day && a.millis <= b.millis)))))
  }

  /** The calendar day of `a` comes strictly before that of `b` in field order. */
  predicate DayBefore(a: DateTime, b: DateTime)
  {
    a.year < b.year || (a.year == b.year && (a.month < b.month || (a.month == b.month && a.day < b.day)))
  }

  lemma DaysBeforeYearStep(y: int)
    ensures DaysBeforeYear(y + 1) == DaysBeforeYear(y) + DaysInYear(y)
  {
  }

  /** All years from `y1` up to (not including) `y2` lie between their first days. */
  lemma {:induction false} DaysBeforeYearGrows(y1: int, y2: int)
    requires y1 < y2
    ensures DaysBeforeYear(y1) + DaysInYear(y1) <= DaysBeforeYear(y2)
    decreases y2 - y1
  {
    DaysBeforeYearStep(y1);
    if y1 + 1 < y2 {
      DaysBeforeYearGrows(y1 + 1, y2);
      DaysBeforeYearStep(y1 + 1);
    }
  }

  /** A well-formed day lies inside its year. */
  lemma DayOfYearInRange(t: DateTime)
    requires t.WellFormed()
    ensures 0 <= DaysBeforeMonth(t.year, t.month) + t.day - 1 < DaysInYear(t.year)
  {
  }

  /** Earlier months of the same year end before a later month starts. */
  lemma MonthsOrdered(y: int, m1: int, m2: int)
    requires 1 <= m1 < m2 <= 12
    ensures DaysBeforeMonth(y, m1) + DaysInMonth(y, m1) <= DaysBeforeMonth(y, m2)
  {
  }

  lemma DayBeforeMeansEarlierDay(a: DateTime, b: DateTime)
    requires a.WellFormed() && b.WellFormed() && DayBefore(a, b)
    ensures DayNumber(a) < DayNumber(b)
  {
    if a.year < b.year {
      DayOfYearInRange(a);
      DaysBeforeYearGrows(a.year, b.year);
    } else if a.month < b.month {
      MonthsOrdered(a.year, a.month, b.month);
    }
  }

  /**
   * Field order on well-formed dates is chronological order: it agrees with the
   * order of (day number, time of day).
   */
  lemma NotAfterIsChronological(a: DateTime, b: DateTime)
    requires a.WellFormed() && b.WellFormed()
    ensures NotAfter(a, b) <==>
            (DayNumber(a) < DayNumber(b) || (DayNumber(a) == DayNumber(b) && a.millis <= b.millis))
  {
    if DayBefore(a, b) {
      DayBeforeMeansEarlierDay(a, b);
    } else if DayBefore(b, a) {
      DayBeforeMeansEarlierDay(b, a);
    }
  }

  /** `setDate(getDate() - 7)`: the same time of day, seven calendar days earlier. */
  function WeekBefore(t: DateTime): (r: DateTime)
    requires t.WellFormed()
    ensures r.WellFormed() && r.millis == t.millis
    ensures DayNumber(r) == DayNumber(t) - 7
    ensures NotAfter(r, t)
  {
    if t.day > 7 then
      t.(day := t.day - 7)
    else if t.month > 1 then
      DateTime(t.year, t.month - 1, DaysInMonth(t.year, t.month - 1) + t.day - 7, t.millis)
    else
      DaysBeforeYearStep(t.year - 1);
      DateTime(t.year - 1, 12, 31 + t.day - 7, t.millis)
  }

  /**
   * `new Date(y, m - k, 1)`: midnight on the first of the month `k` months before
   * that of `t`; the month arithmetic rolls over into earlier years.
   */
  function MonthStart(t: DateTime, k: nat): (r: DateTime)
    requires t.WellFormed()
    ensures r.WellFormed() && r.day == 1 && r.millis == 0
    ensures MonthNumber(r) == MonthNumber(t) - k
    ensures NotAfter(r, t)
  {
    var index := MonthNumber(t) - k;
    DateTime(index / 12, index % 12 + 1, 1, 0)
  }
}
