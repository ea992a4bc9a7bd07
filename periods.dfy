/** Report periods: the window each period looks back over (getDateRange) and
    the key a sale is bucketed under in the sales analytics. */
module Periods {
  import opened Common
  import opened Calendar

  /** The period query parameter; any other text is `Other`. */
  datatype Period = Daily | Weekly | Monthly | Quarterly | SemiAnnual | Annual | Other

  function PeriodName(p: Period): string
  {
    match p
    case Daily => "daily"
    case Weekly => "weekly"
    case Monthly => "monthly"
    case Quarterly => "quarterly"
    case SemiAnnual => "semi-annual"
    case Annual => "annual"
    case Other => ""
  }

  function ParsePeriod(s: string): (p: Period)
    ensures p != Other ==> PeriodName(p) == s
    ensures p == Other ==> forall q: Period | q != Other :: PeriodName(q) != s
  {
    if s == "daily" then Daily
    else if s == "weekly" then Weekly
    else if s == "monthly" then Monthly
    else if s == "quarterly" then Quarterly
    else if s == "semi-annual" then SemiAnnual
    else if s == "annual" then Annual
    else Other
  }

  lemma ParsePeriodName(p: Period)
    ensures ParsePeriod(PeriodName(p)) == p
  {
  }

  /** The day the window starts on: today, or the same date one week, one,
      three or six months, or one year back, with JavaScript's overflow of an
      out-of-range date into the next month. */
  function StartDay(now: DateTime, p: Period): int
  {
    match p
    case Daily => now.Day()
    case Weekly => MakeDay(now.year, now.month, now.date - 7)
    case Monthly => MakeDay(now.year, now.month - 1, now.date)
    case Quarterly => MakeDay(now.year, now.month - 3, now.date)
    case SemiAnnual => MakeDay(now.year, now.month - 6, now.date)
    case Annual => MakeDay(now.year - 1, now.month, now.date)
    case Other => now.Day()
  }

  datatype Range = Range(start: int, end: int)

  /** getDateRange: from local midnight of the start day to the clock reading. */
  function DateRange(now: DateTime, p: Period): (r: Range)
    ensures r.end == now.time
    ensures r.start % MsPerDay == 0 && r.start / MsPerDay == StartDay(now, p)
  {
    Range(StartOfDay(StartDay(now, p)), now.time)
  }

  lemma {:induction false} YearStep(y: int)
    ensures DaysBeforeYear(y + 1) == DaysBeforeYear(y) + DaysInYear(y)
  {
    if y + 1 < 1970 {
      assert DaysBeforeYear(y) == DaysBeforeYear(y + 1) - DaysInYear(y);
    }
  }

  /** The same date one year back is 365 or 366 days back. */
  lemma YearBack(year: int, month: int, date: int)
    requires 0 <= month < 12
    ensures 365 <= MakeDay(year, month, date) - MakeDay(year - 1, month, date) <= 366
  {
    MakeDayIndex(year, month, date);
    MakeDayIndex(year - 1, month, date);
    var mi := 12 * year + month;
    assert mi / 12 == year && mi % 12 == month;
    assert (mi - 12) / 12 == year - 1 && (mi - 12) % 12 == month;
    assert 12 * (year - 1) + month == mi - 12;
    YearStep(year - 1);
  }

  /** How many days back each period's start day lies: today for daily and
      for an unknown period, 7 days for weekly, 28 to 31 days per month for
      monthly, quarterly and semi-annual, 365 or 366 days for annual. */
  lemma Lookback(now: DateTime, p: Period)
    requires now.Valid()
    ensures var back := now.Day() - StartDay(now, p);
      && (p == Daily || p == Other ==> back == 0)
      && (p == Weekly ==> back == 7)
      && (p == Monthly ==> 28 <= back <= 31)
      && (p == Quarterly ==> 84 <= back <= 93)
      && (p == SemiAnnual ==> 168 <= back <= 186)
      && (p == Annual ==> 365 <= back <= 366)
  {
    match p
    case Weekly => WeekBack(now);
    case Monthly => MonthsBackFrom(now, Monthly, 1);
    case Quarterly => MonthsBackFrom(now, Quarterly, 3);
    case SemiAnnual => MonthsBackFrom(now, SemiAnnual, 6);
    case Annual => YearBackFrom(now);
    case _ =>
  }

  lemma WeekBack(now: DateTime)
    requires now.Valid()
    ensures now.Day() - StartDay(now, Weekly) == 7
  {
    ShiftDaysBack(now.year, now.month, now.date, 7);
  }

  lemma MonthsBackFrom(now: DateTime, p: Period, k: nat)
    requires now.Valid()
    requires (p == Monthly && k == 1) || (p == Quarterly && k == 3) || (p == SemiAnnual && k == 6)
    ensures 28 * k <= now.Day() - StartDay(now, p) <= 31 * k
  {
    ShiftMonthsBack(now.year, now.month, now.date, k);
  }

  lemma YearBackFrom(now: DateTime)
    requires now.Valid()
    ensures 365 <= now.Day() - StartDay(now, Annual) <= 366
  {
    YearBack(now.year, now.month, now.date);
  }

  /** The window of every period ends at now and starts at a midnight no
      later than today's, exactly as far back as Lookback says. */
  lemma DateRangeBounds(now: DateTime, p: Period)
    requires now.Valid()
    ensures var r := DateRange(now, p);
      var back := now.Day() - r.start / MsPerDay;
      && r.start <= r.end
      && (p == Daily || p == Other ==> back == 0)
      && (p == Weekly ==> back == 7)
      && (p == Monthly ==> 28 <= back <= 31)
      && (p == Quarterly ==> 84 <= back <= 93)
      && (p == SemiAnnual ==> 168 <= back <= 186)
      && (p == Annual ==> 365 <= back <= 366)
  {
    Lookback(now, p);
    StartNotAfter(now.time, StartDay(now, p));
  }

  /** An unknown period uses the daily window. */
  lemma UnknownIsDaily(now: DateTime)
    ensures DateRange(now, Other) == DateRange(now, Daily)
  {
  }

  /** The label a sale is grouped under. Labels are kept as their fields: the
      locale text ("Jan 5", "January", "Q1 2024", "H1 2024", "2024",
      "1/5/2024") is a function of exactly these. */
  datatype BucketKey =
    | MonthDay(month: int, date: int)
    | WeekOf(sunday: int)
    | MonthName(month: int)
    | QuarterOf(quarter: int, year: int)
    | HalfOf(first: bool, year: int)
    | YearOf(year: int)
    | FullDate(year: int, month: int, date: int)

  function BucketOf(p: Period, d: DateTime): (k: BucketKey)
    ensures p == Quarterly && 0 <= d.month < 12 ==>
      k.QuarterOf? && 1 <= k.quarter <= 4 && 3 * (k.quarter - 1) <= d.month < 3 * k.quarter && k.year == d.year
    ensures p == SemiAnnual ==> k.HalfOf? && (k.first <==> d.month < 6) && k.year == d.year
    ensures p == Weekly && d.Valid() ==>
      k.WeekOf? && (k.sunday + 4) % 7 == 0 && d.Day() - 6 <= k.sunday <= d.Day()
  {
    match p
    case Daily => MonthDay(d.month, d.date)
    case Weekly =>
      ShiftDaysBack(d.year, d.month, d.date, d.weekday);
      SundayOf(d.Day());
      WeekOf(MakeDay(d.year, d.month, d.date - d.weekday))
    case Monthly => MonthName(d.month)
    case Quarterly => QuarterOf(d.month / 3 + 1, d.year)
    case SemiAnnual => HalfOf(d.month < 6, d.year)
    case Annual => YearOf(d.year)
    case Other => FullDate(d.year, d.month, d.date)
  }

  /** Going back by the weekday lands on a Sunday in the last seven days. */
  lemma SundayOf(day: int)
    ensures var s := day - (day + 4) % 7;
      (s + 4) % 7 == 0 && day - 6 <= s <= day
  {
    var q := (day + 4) / 7;
    assert day + 4 == 7 * q + (day + 4) % 7;
    assert day - (day + 4) % 7 + 4 == 7 * q;
  }

  /** Only the annual labels are array indices (canonical integer strings),
      which `Object.values` lists first in ascending order. */
  function BucketIndex(k: BucketKey): Option<nat>
  {
    if k.YearOf? && 0 <= k.year < 0xFFFF_FFFF then Some(k.year) else None
  }
}
