/** The proleptic Gregorian calendar as JavaScript's Date uses it (section 21.4.1
    of ECMA-262): a time value is milliseconds since 1970-01-01 00:00 local
    time, Day(t) = floor(t / msPerDay), WeekDay(t) = (Day(t) + 4) mod 7, and
    MakeDay(year, month, date) normalises an out-of-range month or date by
    carrying into the neighbouring months, which is what setMonth, setDate and
    setFullYear do. */
module Calendar {

  const MsPerDay: int := 86_400_000

  predicate IsLeapYear(y: int)
  {
    y % 4 == 0 && (y % 100 != 0 || y % 400 == 0)
  }

  function DaysInYear(y: int): int
  {
    if IsLeapYear(y) then 366 else 365
  }

  /** Length of month m (0 = January) of year y. */
  function DaysInMonth(y: int, m: int): (n: int)
    requires 0 <= m < 12
    ensures 28 <= n <= 31
  {
    if m == 1 then (if IsLeapYear(y) then 29 else 28)
    else if m == 3 || m == 5 || m == 8 || m == 10 then 30
    else 31
  }

  /** Days from January 1 of year y to the first of month m. */
  function DaysBeforeMonth(y: int, m: int): int
    requires 0 <= m < 12
  {
    [0, 31, 59, 90, 120, 151, 181, 212, 243, 273, 304, 334][m]
      + (if m >= 2 && IsLeapYear(y) then 1 else 0)
  }

  /** Day number of January 1 of year y (day 0 is 1970-01-01). */
  function DaysBeforeYear(y: int): int
    decreases if y >= 1970 then y - 1970 else 1970 - y
  {
    if y == 1970 then 0
    else if y > 1970 then DaysBeforeYear(y - 1) + DaysInYear(y - 1)
    else DaysBeforeYear(y + 1) - DaysInYear(y)
  }

  /** Day number of the first day of the month with index mi = 12 * year + month. */
  function MonthStart(mi: int): int
  {
    DaysBeforeYear(mi / 12) + DaysBeforeMonth(mi / 12, mi % 12)
  }

  /** ECMA-262 MakeDay: the year is carried by floor(month / 12) and the month
      taken modulo 12, then date - 1 days are added to the first of that month. */
  function MakeDay(year: int, month: int, date: int): int
  {
    MonthStart(12 * (year + month / 12) + month % 12) + date - 1
  }

  /** A local date-time: the time value and the calendar fields JavaScript
      derives from it (getFullYear, getMonth, getDate, getDay). */
  datatype DateTime = DateTime(time: int, year: int, month: int, date: int, weekday: int)
  {
    function Day(): int
    {
      time / MsPerDay
    }

    ghost predicate Valid()
    {
      && 0 <= month < 12
      && 1 <= date <= DaysInMonth(year, month)
      && Day() == MakeDay(year, month, date)
      && weekday == (Day() + 4) % 7
    }
  }

  /** The time value of local midnight starting day d (setHours(0, 0, 0, 0)). */
  function StartOfDay(d: int): (t: int)
    ensures t % MsPerDay == 0 && t / MsPerDay == d
  {
    d * MsPerDay
  }

  lemma MakeDayIndex(year: int, month: int, date: int)
    ensures MakeDay(year, month, date) == MonthStart(12 * year + month) + date - 1
  {
    assert 12 * (year + month / 12) + month % 12 == 12 * year + month;
  }

  /** Consecutive months follow each other without gap: the next month starts
      one month length after this one. */
  lemma {:induction false} MonthStartStep(mi: int)
    ensures MonthStart(mi + 1) == MonthStart(mi) + DaysInMonth(mi / 12, mi % 12)
  {
    var y, m := mi / 12, mi % 12;
    if m < 11 {
      assert (mi + 1) / 12 == y && (mi + 1) % 12 == m + 1;
    } else {
      assert (mi + 1) / 12 == y + 1 && (mi + 1) % 12 == 0;
      assert DaysBeforeYear(y + 1) == DaysBeforeYear(y) + DaysInYear(y) by {
        if y + 1 != 1970 && y + 1 < 1970 {
          assert DaysBeforeYear(y) == DaysBeforeYear(y + 1) - DaysInYear(y);
        }
      }
    }
  }

  /** Going back k months moves the first of the month back by between 28 and
      31 days per month. */
  lemma {:induction false} MonthsBack(mi: int, k: nat)
    ensures 28 * k <= MonthStart(mi) - MonthStart(mi - k) <= 31 * k
  {
    if k > 0 {
      MonthsBack(mi, k - 1);
      MonthStartStep(mi - k);
      assert mi - k + 1 == mi - (k - 1);
    }
  }

  /** The same date k months earlier (Date.setMonth(getMonth() - k)) lies
      between 28k and 31k days back, whatever overflow the date causes. */
  lemma ShiftMonthsBack(year: int, month: int, date: int, k: nat)
    ensures 28 * k <= MakeDay(year, month, date) - MakeDay(year, month - k, date) <= 31 * k
  {
    var mi := 12 * year + month;
    var a := MakeDay(year, month, date);
    var b := MakeDay(year, month - k, date);
    assert a == MonthStart(mi) + date - 1 by {
      MakeDayIndex(year, month, date);
    }
    assert b == MonthStart(mi - k) + date - 1 by {
      MakeDayIndex(year, month - k, date);
      assert 12 * year + (month - k) == mi - k;
    }
    MonthsBack(mi, k);
    ShiftBetween(a, b, MonthStart(mi), MonthStart(mi - k), date, k);
  }

  lemma ShiftBetween(a: int, b: int, c: int, d: int, date: int, k: nat)
    requires a == c + date - 1 && b == d + date - 1
    requires 28 * k <= c - d <= 31 * k
    ensures 28 * k <= a - b <= 31 * k
  {
  }

  /** setDate(getDate() - n) moves exactly n days back. */
  lemma ShiftDaysBack(year: int, month: int, date: int, n: int)
    ensures MakeDay(year, month, date - n) == MakeDay(year, month, date) - n
  {
  }

  /** A later time never falls on an earlier day. */
  lemma DayMonotone(a: int, b: int)
    requires a <= b
    ensures a / MsPerDay <= b / MsPerDay
  {
  }

  /** The midnight of a day no later than t's own day is no later than t. */
  lemma StartNotAfter(t: int, d: int)
    requires d <= t / MsPerDay
    ensures StartOfDay(d) <= t
  {
    WithinDay(t, t / MsPerDay);
  }

  /** A time lies in the day [StartOfDay(d), StartOfDay(d) + MsPerDay - 1]
      exactly when its day number is d. */
  lemma WithinDay(t: int, d: int)
    ensures StartOfDay(d) <= t <= StartOfDay(d) + MsPerDay - 1 <==> t / MsPerDay == d
  {
  }
}
