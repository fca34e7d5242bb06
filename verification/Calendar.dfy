/** UTC instants on the proleptic Gregorian calendar, and the budget windows over them. */
module Calendar {
  import opened Common

  datatype Date = Date(year: int, month: int, day: int)

  const MAX_YEAR: int := 9999
  const MICROS_PER_DAY: int := 86_400_000_000

  predicate IsLeap(year: int) {
    year % 4 == 0 && (year % 100 != 0 || year % 400 == 0)
  }

  function DaysInMonth(year: int, month: int): (days: int)
    ensures 28 <= days <= 31
  {
    if month == 2 then if IsLeap(year) then 29 else 28
    else if month == 4 || month == 6 || month == 9 || month == 11 then 30 else 31
  }

  predicate IsDate(d: Date) {
    1 <= d.year <= MAX_YEAR && 1 <= d.month <= 12 && 1 <= d.day <= DaysInMonth(d.year, d.month)
  }

  function DaysInYear(year: int): (days: int)
    ensures 365 <= days <= 366
  {
    if IsLeap(year) then 366 else 365
  }

  /** Days before 1 January of a year, counted from 1 January of year 1. */
  function DaysBeforeYear(year: int): (days: int)
    ensures 0 <= days
    decreases year
  {
    if year <= 1 then 0 else DaysBeforeYear(year - 1) + DaysInYear(year - 1)
  }

  function DaysBeforeMonth(year: int, month: int): (days: int)
    ensures 0 <= days
    decreases month
  {
    if month <= 1 then 0 else DaysBeforeMonth(year, month - 1) + DaysInMonth(year, month - 1)
  }

  /** The day number of a date: 1 for 1 January of year 1. */
  function Ordinal(d: Date): int {
    DaysBeforeYear(d.year) + DaysBeforeMonth(d.year, d.month) + d.day
  }

  /** A moment: a date and the microseconds since its midnight. */
  datatype DateTime = DateTime(date: Date, micros: int)

  predicate IsDateTime(t: DateTime) {
    IsDate(t.date) && 0 <= t.micros < MICROS_PER_DAY
  }

  /** Position on the time line, in microseconds. */
  function Instant(t: DateTime): int {
    Ordinal(t.date) * MICROS_PER_DAY + t.micros
  }

  /** The order of dates and of moments, field by field. */
  predicate Earlier(d: Date, e: Date) {
    d.year < e.year || (d.year == e.year && (d.month < e.month || (d.month == e.month && d.day < e.day)))
  }

  // ----- day numbers -------------------------------------------------------------------

  lemma {:induction false} MultipleStep(y: int)
    requires 1 <= y
    ensures y / 4 - (y - 1) / 4 == if y % 4 == 0 then 1 else 0
    ensures y / 100 - (y - 1) / 100 == if y % 100 == 0 then 1 else 0
    ensures y / 400 - (y - 1) / 400 == if y % 400 == 0 then 1 else 0
  {
  }

  lemma {:induction false} MultiplesNest(y: int)
    ensures y % 400 == 0 ==> y % 100 == 0
    ensures y % 100 == 0 ==> y % 4 == 0
  {
  }

  /** The closed form: a leap day every 4 years, but not every 100, but every 400. */
  lemma {:induction false} LeapDaysCount(year: int)
    requires 1 <= year
    ensures DaysBeforeYear(year) == (year - 1) * 365 + (year - 1) / 4 - (year - 1) / 100 + (year - 1) / 400
  {
    if year > 1 {
      LeapDaysCount(year - 1);
      MultipleStep(year - 1);
      MultiplesNest(year - 1);
    }
  }

  /** The closed form of the months: thirty and four sevenths of a day each, rounded, less what
      February lacks. */
  lemma {:induction false} MonthDaysCount(year: int, month: int)
    requires 1 <= month <= 12
    ensures DaysBeforeMonth(year, month)
         == (367 * month - 362) / 12 - (if month <= 2 then 0 else if IsLeap(year) then 1 else 2)
    decreases month
  {
    if month > 1 {
      MonthDaysCount(year, month - 1);
      MonthStep(year, month - 1);
    }
  }

  lemma {:induction false} MonthStep(year: int, m: int)
    requires 1 <= m <= 11
    ensures (367 * (m + 1) - 362) / 12 == (367 * m - 362) / 12 + if m == 2 then 30 else DaysInMonth(year, m)
  {
  }

  lemma {:induction false} MonthsOfYear(year: int)
    ensures DaysBeforeMonth(year, 12) + 31 == DaysInYear(year)
  {
    MonthDaysCount(year, 12);
  }

  /** The closed form of day numbers. */
  lemma {:induction false} OrdinalCount(d: Date)
    requires 1 <= d.year && 1 <= d.month <= 12
    ensures Ordinal(d)
         == (d.year - 1) * 365 + (d.year - 1) / 4 - (d.year - 1) / 100 + (d.year - 1) / 400
          + (367 * d.month - 362) / 12 - (if d.month <= 2 then 0 else if IsLeap(d.year) then 1 else 2)
          + d.day
  {
    LeapDaysCount(d.year);
    MonthDaysCount(d.year, d.month);
  }

  lemma {:induction false} EpochDay(d: Date)
    requires d.year == 1970 && d.month == 1 && d.day == 1
    ensures Ordinal(d) == 719_163
  {
    OrdinalCount(d);
  }

  lemma {:induction false} BillionthDay(d: Date)
    requires d.year == 2001 && d.month == 9 && d.day == 9
    ensures Ordinal(d) == 719_163 + 11_574
  {
    OrdinalCount(d);
  }

  /** The billionth second after the start of 1970, a Thursday, fell on 9 September 2001 at
      01:46:40, a Sunday. */
  lemma {:induction false} BillionthSecond(epoch: DateTime, later: DateTime)
    requires epoch.date.year == 1970 && epoch.date.month == 1 && epoch.date.day == 1 && epoch.micros == 0
    requires later.date.year == 2001 && later.date.month == 9 && later.date.day == 9
    requires later.micros == ((1 * 60 + 46) * 60 + 40) * 1_000_000
    ensures Instant(later) - Instant(epoch) == 1_000_000_000 * 1_000_000
    ensures Weekday(epoch.date) == 3 && Weekday(later.date) == 6
  {
    EpochDay(epoch.date);
    BillionthDay(later.date);
  }

  lemma {:induction false} MonthsIncrease(year: int, m: int, n: int)
    requires 1 <= m < n <= 12
    ensures DaysBeforeMonth(year, m) + DaysInMonth(year, m) <= DaysBeforeMonth(year, n)
    decreases n
  {
    if m < n - 1 { MonthsIncrease(year, m, n - 1); }
  }

  lemma {:induction false} DayWithinYear(d: Date)
    requires IsDate(d)
    ensures DaysBeforeYear(d.year) < Ordinal(d) <= DaysBeforeYear(d.year + 1)
  {
    MonthsOfYear(d.year);
    if d.month < 12 { MonthsIncrease(d.year, d.month, 12); }
  }

  lemma {:induction false} YearsIncrease(y: int, z: int)
    requires y <= z
    ensures DaysBeforeYear(y) <= DaysBeforeYear(z)
    decreases z - y
  {
    if y < z { YearsIncrease(y, z - 1); }
  }

  /** Day numbers follow the calendar order, across month ends, leap days and year ends. */
  lemma {:induction false} OrdinalFollowsOrder(d: Date, e: Date)
    requires IsDate(d) && IsDate(e)
    ensures Earlier(d, e) <==> Ordinal(d) < Ordinal(e)
    ensures d == e <==> Ordinal(d) == Ordinal(e)
  {
    if Earlier(d, e) {
      EarlierMeansLess(d, e);
    } else if d != e {
      EarlierMeansLess(e, d);
    }
  }

  lemma {:induction false} EarlierMeansLess(d: Date, e: Date)
    requires IsDate(d) && IsDate(e) && Earlier(d, e)
    ensures Ordinal(d) < Ordinal(e)
  {
    if d.year < e.year {
      DayWithinYear(d);
      DayWithinYear(e);
      YearsIncrease(d.year + 1, e.year);
    } else if d.month < e.month {
      MonthsIncrease(d.year, d.month, e.month);
    }
  }

  /** The day after, if the calendar has one. */
  function NextDay(d: Date): Option<Date> {
    if d.day < DaysInMonth(d.year, d.month) then Some(d.(day := d.day + 1))
    else if d.month < 12 then Some(Date(d.year, d.month + 1, 1))
    else if d.year < MAX_YEAR then Some(Date(d.year + 1, 1, 1))
    else None
  }

  /** 31 December 9999. */
  predicate IsLastDay(d: Date) {
    IsDate(d) && NextDay(d).None?
  }

  const LAST_ORDINAL: int := 3_652_059

  lemma {:induction false} NextDayIsNext(d: Date)
    requires IsDate(d)
    ensures NextDay(d).None? <==> d.year == MAX_YEAR && d.month == 12 && d.day == 31
    ensures NextDay(d).Some? ==> IsDate(NextDay(d).value) && Ordinal(NextDay(d).value) == Ordinal(d) + 1
  {
    MonthsOfYear(d.year);
  }

  lemma {:induction false} LastOrdinal(last: Date)
    requires IsLastDay(last)
    ensures Ordinal(last) == LAST_ORDINAL
  {
    YearsBeforeTheLast(last.year);
    MonthsOfYear(last.year);
  }

  lemma {:induction false} YearsBeforeTheLast(year: int)
    requires year == MAX_YEAR
    ensures DaysBeforeYear(year) == LAST_ORDINAL - 365 && !IsLeap(year)
  {
    LeapDaysCount(year);
  }

  lemma {:induction false} OrdinalInRange(d: Date)
    requires IsDate(d)
    ensures 1 <= Ordinal(d) <= LAST_ORDINAL
  {
    var last := Date(MAX_YEAR, 12, 31);
    LastOrdinal(last);
    OrdinalFollowsOrder(last, d);
  }

  /** The date with a day number: what adding days to a date computes. */
  function FromOrdinal(n: int): (d: Date)
    requires 1 <= n <= LAST_ORDINAL
    ensures IsDate(d) && Ordinal(d) == n
    decreases n
  {
    if n == 1 then Date(1, 1, 1) else
    var d := FromOrdinal(n - 1);
    NotLast(d);
    NextDayIsNext(d);
    NextDay(d).value
  }

  lemma {:induction false} NotLast(d: Date)
    requires IsDate(d) && Ordinal(d) < LAST_ORDINAL
    ensures !IsLastDay(d)
  {
    if IsLastDay(d) { LastOrdinal(d); }
  }

  /** Day numbers and dates correspond one to one. */
  lemma {:induction false} FromOrdinalInverts(d: Date)
    requires IsDate(d)
    ensures 1 <= Ordinal(d) <= LAST_ORDINAL && FromOrdinal(Ordinal(d)) == d
  {
    OrdinalInRange(d);
    OrdinalFollowsOrder(d, FromOrdinal(Ordinal(d)));
  }

  /** Midnight at the start of a day, by its number; beyond the calendar Python raises. */
  function Midnight(ordinal: int): (t: Option<DateTime>) {
    if 1 <= ordinal <= LAST_ORDINAL then Some(DateTime(FromOrdinal(ordinal), 0)) else None
  }

  // ----- windows -----------------------------------------------------------------------

  datatype Period = Daily | Weekly | Monthly

  datatype Window = Window(start: DateTime, end: DateTime)

  /** 0 for Monday. */
  function Weekday(d: Date): int {
    (Ordinal(d) + 6) % 7
  }

  function WeekFrom(monday: int): (window: Option<Window>) {
    match Midnight(monday)
    case None => None
    case Some(start) =>
      match Midnight(Ordinal(start.date) + 7)
      case None => None
      case Some(end) => Some(Window(start, end))
  }

  /** `current_period_window`.  No window is returned when its end lies beyond year 9999. */
  function CurrentPeriodWindow(period: Period, now: DateTime): (window: Option<Window>)
    requires IsDateTime(now)
  {
    match period
    case Daily =>
      (match Midnight(Ordinal(now.date) + 1)
       case None => None
       case Some(end) => Some(Window(DateTime(now.date, 0), end)))
    case Weekly => WeekFrom(Ordinal(now.date) - Weekday(now.date))
    case Monthly =>
      var start := Date(now.date.year, now.date.month, 1);
      if start.month == 12 then
        if start.year == MAX_YEAR then None
        else Some(Window(DateTime(start, 0), DateTime(Date(start.year + 1, 1, 1), 0)))
      else Some(Window(DateTime(start, 0), DateTime(Date(start.year, start.month + 1, 1), 0)))
  }

  /** Which day, week or month a date falls into. */
  function PeriodIndex(period: Period, d: Date): int {
    match period
    case Daily => Ordinal(d)
    case Weekly => (Ordinal(d) - 1) / 7
    case Monthly => d.year * 12 + d.month
  }

  predicate Within(window: Window, t: DateTime) {
    Instant(window.start) <= Instant(t) < Instant(window.end)
  }

  lemma {:induction false} WithinByDay(window: Window, t: DateTime)
    requires window.start.micros == 0 && window.end.micros == 0 && IsDateTime(t)
    ensures Within(window, t) <==> Ordinal(window.start.date) <= Ordinal(t.date) < Ordinal(window.end.date)
  {
  }

  lemma {:induction false} MonthByOrdinal(d: Date, e: Date)
    requires IsDate(d) && IsDate(e)
    ensures Ordinal(d) - d.day < Ordinal(e) <= Ordinal(d) - d.day + DaysInMonth(d.year, d.month) <==>
            d.year == e.year && d.month == e.month
  {
    var first, last := Date(d.year, d.month, 1), Date(d.year, d.month, DaysInMonth(d.year, d.month));
    OrdinalFollowsOrder(e, first);
    OrdinalFollowsOrder(last, e);
  }

  /** First day and length of the period a date falls into. */
  function FirstDay(period: Period, d: Date): int {
    match period
    case Daily => Ordinal(d)
    case Weekly => Ordinal(d) - Weekday(d)
    case Monthly => Ordinal(d) - d.day + 1
  }

  function Length(period: Period, d: Date): int {
    match period case Daily => 1 case Weekly => 7 case Monthly => DaysInMonth(d.year, d.month)
  }

  lemma {:induction false} MondayOf(n: int)
    ensures n - (n + 6) % 7 == 7 * ((n - 1) / 7) + 1
  {
  }

  lemma {:induction false} MonthWindowDays(d: Date)
    requires IsDate(d)
    ensures Ordinal(d) - d.day + 1 == Ordinal(Date(d.year, d.month, 1))
    ensures d.month < 12 ==>
              Ordinal(Date(d.year, d.month + 1, 1)) == Ordinal(Date(d.year, d.month, 1)) + DaysInMonth(d.year, d.month)
    ensures d.month == 12 ==>
              Ordinal(Date(d.year + 1, 1, 1)) == Ordinal(Date(d.year, d.month, 1)) + DaysInMonth(d.year, d.month)
  {
    MonthsOfYear(d.year);
  }

  lemma {:induction false} WindowDays(period: Period, now: DateTime)
    requires IsDateTime(now) && CurrentPeriodWindow(period, now).Some?
    ensures var w := CurrentPeriodWindow(period, now).value;
            && IsDate(w.start.date) && w.start.micros == 0 && IsDate(w.end.date) && w.end.micros == 0
            && Ordinal(w.start.date) == FirstDay(period, now.date)
            && Ordinal(w.end.date) == FirstDay(period, now.date) + Length(period, now.date)
  {
    if period.Monthly? { MonthWindowDays(now.date); }
  }

  lemma {:induction false} InPeriod(period: Period, d: Date, e: Date)
    requires IsDate(d) && IsDate(e)
    ensures FirstDay(period, d) <= Ordinal(e) < FirstDay(period, d) + Length(period, d) <==>
            PeriodIndex(period, e) == PeriodIndex(period, d)
  {
    match period {
      case Daily =>
      case Weekly => InWeek(d, e);
      case Monthly => InMonth(d, e);
    }
  }

  lemma {:induction false} InMonth(d: Date, e: Date)
    requires IsDate(d) && IsDate(e)
    ensures FirstDay(Monthly, d) <= Ordinal(e) < FirstDay(Monthly, d) + Length(Monthly, d) <==>
            PeriodIndex(Monthly, e) == PeriodIndex(Monthly, d)
  {
    MonthByOrdinal(d, e);
    MonthIndex(d.year, d.month, e.year, e.month);
  }

  lemma {:induction false} MonthIndex(y: int, m: int, z: int, n: int)
    requires 1 <= m <= 12 && 1 <= n <= 12
    ensures y * 12 + m == z * 12 + n <==> y == z && m == n
  {
  }

  lemma {:induction false} InWeek(d: Date, e: Date)
    ensures FirstDay(Weekly, d) <= Ordinal(e) < FirstDay(Weekly, d) + Length(Weekly, d) <==>
            PeriodIndex(Weekly, e) == PeriodIndex(Weekly, d)
  {
    WeekByOrdinal(Ordinal(d), Ordinal(e));
  }

  /** Day 1 is a Monday, so weeks are the blocks of seven from there. */
  lemma {:induction false} WeekByOrdinal(m: int, n: int)
    ensures m - (m + 6) % 7 <= n < m - (m + 6) % 7 + 7 <==> (n - 1) / 7 == (m - 1) / 7
  {
  }

  /** The window of a moment is exactly its day, week or month: half open, all of it. */
  lemma {:induction false} WindowIsThePeriod(period: Period, now: DateTime, t: DateTime)
    requires IsDateTime(now) && IsDateTime(t) && CurrentPeriodWindow(period, now).Some?
    ensures Within(CurrentPeriodWindow(period, now).value, t) <==>
            PeriodIndex(period, t.date) == PeriodIndex(period, now.date)
  {
    WindowDays(period, now);
    WithinByDay(CurrentPeriodWindow(period, now).value, t);
    InPeriod(period, now.date, t.date);
  }

  /** Two moments have the same window, or windows with no moment in common. */
  lemma {:induction false} WindowsTile(period: Period, a: DateTime, b: DateTime)
    requires IsDateTime(a) && IsDateTime(b)
    requires CurrentPeriodWindow(period, a).Some? && CurrentPeriodWindow(period, b).Some?
    ensures var v, w := CurrentPeriodWindow(period, a).value, CurrentPeriodWindow(period, b).value;
            Within(v, a) && (v == w || forall t | IsDateTime(t) :: !(Within(v, t) && Within(w, t)))
  {
    WindowIsThePeriod(period, a, a);
    if PeriodIndex(period, a.date) == PeriodIndex(period, b.date) {
      SamePeriodSameWindow(period, a, b);
    } else {
      forall t | IsDateTime(t)
        ensures !(Within(CurrentPeriodWindow(period, a).value, t) && Within(CurrentPeriodWindow(period, b).value, t))
      {
        WindowIsThePeriod(period, a, t);
        WindowIsThePeriod(period, b, t);
      }
    }
  }

  lemma {:induction false} SamePeriodSameWindow(period: Period, a: DateTime, b: DateTime)
    requires IsDateTime(a) && IsDateTime(b)
    requires PeriodIndex(period, a.date) == PeriodIndex(period, b.date)
    ensures CurrentPeriodWindow(period, a) == CurrentPeriodWindow(period, b)
  {
    match period {
      case Daily => OrdinalFollowsOrder(a.date, b.date);
      case Weekly => WeekFirstDay(a.date); WeekFirstDay(b.date); SameWeekSameWindow(a, b);
      case Monthly =>
    }
  }

  lemma {:induction false} WeekFirstDay(d: Date)
    ensures FirstDay(Weekly, d) == 7 * PeriodIndex(Weekly, d) + 1
  {
    MondayOf(Ordinal(d));
  }

  lemma {:induction false} SameWeekSameWindow(a: DateTime, b: DateTime)
    requires IsDateTime(a) && IsDateTime(b) && FirstDay(Weekly, a.date) == FirstDay(Weekly, b.date)
    ensures CurrentPeriodWindow(Weekly, a) == CurrentPeriodWindow(Weekly, b)
  {
  }

  /** Each window ends where the next begins, and its own start has the same window. */
  lemma {:induction false} WindowsAreAdjacent(period: Period, now: DateTime)
    requires IsDateTime(now) && CurrentPeriodWindow(period, now).Some?
    ensures var w := CurrentPeriodWindow(period, now).value;
            && IsDateTime(w.start) && CurrentPeriodWindow(period, w.start) == Some(w)
            && IsDateTime(w.end)
            && PeriodIndex(period, w.end.date) == PeriodIndex(period, now.date) + 1
            && (CurrentPeriodWindow(period, w.end).Some? ==> CurrentPeriodWindow(period, w.end).value.start == w.end)
  {
    var w := CurrentPeriodWindow(period, now).value;
    WindowDays(period, now);
    InPeriod(period, now.date, w.start.date);
    SamePeriodSameWindow(period, w.start, now);
    NextPeriod(period, now);
    if CurrentPeriodWindow(period, w.end).Some? {
      WindowDays(period, w.end);
      OrdinalFollowsOrder(w.end.date, CurrentPeriodWindow(period, w.end).value.start.date);
    }
  }

  lemma {:induction false} NextPeriod(period: Period, now: DateTime)
    requires IsDateTime(now) && CurrentPeriodWindow(period, now).Some?
    ensures var end := CurrentPeriodWindow(period, now).value.end;
            && PeriodIndex(period, end.date) == PeriodIndex(period, now.date) + 1
            && FirstDay(period, end.date) == Ordinal(end.date)
  {
    WindowDays(period, now);
    if period.Weekly? { NextWeek(Ordinal(now.date)); }
  }

  lemma {:induction false} NextWeek(n: int)
    ensures var next := n - (n + 6) % 7 + 7; (next - 1) / 7 == (n - 1) / 7 + 1 && (next + 6) % 7 == 0
  {
  }

  lemma {:induction false} WeekExistsUnlessLast(now: DateTime, last: Date)
    requires IsDateTime(now) && IsLastDay(last)
    ensures CurrentPeriodWindow(Weekly, now).None? <==> PeriodIndex(Weekly, now.date) == PeriodIndex(Weekly, last)
  {
    OrdinalInRange(now.date);
    LastOrdinal(last);
    LastWeek(Ordinal(now.date));
  }

  lemma {:induction false} DayExistsUnlessLast(now: DateTime, last: Date)
    requires IsDateTime(now) && IsLastDay(last)
    ensures CurrentPeriodWindow(Daily, now).None? <==> PeriodIndex(Daily, now.date) == PeriodIndex(Daily, last)
  {
    OrdinalInRange(now.date);
    LastOrdinal(last);
  }

  lemma {:induction false} MonthExistsUnlessLast(now: DateTime, last: Date)
    requires IsDateTime(now) && IsLastDay(last)
    ensures CurrentPeriodWindow(Monthly, now).None? <==> PeriodIndex(Monthly, now.date) == PeriodIndex(Monthly, last)
  {
    NextDayIsNext(last);
  }

  /** A window fails to exist only in the last period the calendar has. */
  lemma {:induction false} WindowExistsUnlessLast(period: Period, now: DateTime, last: Date)
    requires IsDateTime(now) && IsLastDay(last)
    ensures CurrentPeriodWindow(period, now).None? <==> PeriodIndex(period, now.date) == PeriodIndex(period, last)
  {
    match period {
      case Daily => DayExistsUnlessLast(now, last);
      case Weekly => WeekExistsUnlessLast(now, last);
      case Monthly => MonthExistsUnlessLast(now, last);
    }
  }

  lemma {:induction false} LastWeek(n: int)
    requires 1 <= n <= LAST_ORDINAL
    ensures 1 <= n - (n + 6) % 7
    ensures n - (n + 6) % 7 + 7 > LAST_ORDINAL <==> (n - 1) / 7 == (LAST_ORDINAL - 1) / 7
  {
  }

  lemma {:induction false} PeriodsFollowTime(period: Period, a: DateTime, b: DateTime)
    requires IsDateTime(a) && IsDateTime(b) && Instant(a) <= Instant(b)
    ensures PeriodIndex(period, a.date) <= PeriodIndex(period, b.date)
  {
    OrdinalFollowsOrder(b.date, a.date);
  }

  /** The daily window lies inside the weekly and the monthly one. */
  lemma {:induction false} DaysNestInWeeksAndMonths(now: DateTime, t: DateTime, longer: Period)
    requires IsDateTime(now) && IsDateTime(t)
    requires CurrentPeriodWindow(Daily, now).Some? && CurrentPeriodWindow(longer, now).Some?
    requires Within(CurrentPeriodWindow(Daily, now).value, t)
    ensures Within(CurrentPeriodWindow(longer, now).value, t)
  {
    WindowIsThePeriod(Daily, now, t);
    OrdinalFollowsOrder(now.date, t.date);
    WindowIsThePeriod(longer, now, t);
  }
}
