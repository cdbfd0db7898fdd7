/** Quota periods on the calendar: the monthly reset day, clamped to the length
    of the month. Days are compared by their proleptic Gregorian ordinal. */
module Calendar {

  predicate IsLeap(y: int) {
    y % 4 == 0 && (y % 100 != 0 || y % 400 == 0)
  }

  // calendar.monthrange(y, m)[1]
  function MonthLength(y: int, m: int): (n: int)
    requires 1 <= m <= 12
    ensures 28 <= n <= 31
  {
    if m == 2 then (if IsLeap(y) then 29 else 28)
    else if m in {4, 6, 9, 11} then 30
    else 31
  }

  datatype Date = Date(year: int, month: int, day: int) {
    predicate Valid() {
      1 <= month <= 12 && 1 <= day <= MonthLength(year, month)
    }
  }

  function DaysBeforeMonth(y: int, m: int): int
    requires 1 <= m <= 12
  {
    if m == 1 then 0 else DaysBeforeMonth(y, m - 1) + MonthLength(y, m - 1)
  }

  function DaysBeforeYear(y: int): int {
    365 * (y - 1) + (y - 1) / 4 - (y - 1) / 100 + (y - 1) / 400
  }

  // date.toordinal()
  function Ordinal(d: Date): int
    requires d.Valid()
  {
    DaysBeforeYear(d.year) + DaysBeforeMonth(d.year, d.month) + d.day
  }

  /** A moment is a date and the seconds since its midnight. */
  datatype Moment = Moment(date: Date, seconds: int) {
    predicate Valid() {
      date.Valid() && 0 <= seconds < 86400
    }
  }

  function Seconds(t: Moment): int
    requires t.Valid()
  {
    86400 * Ordinal(t.date) + t.seconds
  }

  predicate AtOrBefore(a: Moment, b: Moment)
    requires a.Valid() && b.Valid()
  {
    Seconds(a) <= Seconds(b)
  }

  predicate Before(a: Moment, b: Moment)
    requires a.Valid() && b.Valid()
  {
    Seconds(a) < Seconds(b)
  }

  // ---- The period grid --------------------------------------------------------------

  function Min(a: int, b: int): int { if a < b then a else b }

  function NextMonth(y: int, m: int): (int, int) { if m == 12 then (y + 1, 1) else (y, m + 1) }
  function LastMonth(y: int, m: int): (int, int) { if m == 1 then (y - 1, 12) else (y, m - 1) }

  /** Midnight of the reset day of a month, or of its last day if it is shorter. */
  function ResetIn(y: int, m: int, resetDay: int): (t: Moment)
    requires 1 <= m <= 12 && 1 <= resetDay <= 31
    ensures t.Valid()
  {
    Moment(Date(y, m, Min(resetDay, MonthLength(y, m))), 0)
  }

  // _month_range
  function MonthRange(y: int, m: int, resetDay: int): (r: (Moment, Moment))
    requires 1 <= m <= 12 && 1 <= resetDay <= 31
    ensures r.0.Valid() && r.1.Valid()
  {
    var (ny, nm) := NextMonth(y, m);
    (ResetIn(y, m, resetDay), ResetIn(ny, nm, resetDay))
  }

  function PeriodMonth(now: Date, resetDay: int): (r: (int, int))
    requires now.Valid()
    ensures 1 <= r.1 <= 12
  {
    if now.day < resetDay then LastMonth(now.year, now.month) else (now.year, now.month)
  }

  /** period_bounds for a scheduled reset. */
  function PeriodBounds(now: Moment, resetDay: int): (r: (Moment, Moment))
    requires now.Valid() && 1 <= resetDay <= 31
    ensures r.0.Valid() && r.1.Valid()
  {
    var (y, m) := PeriodMonth(now.date, resetDay);
    MonthRange(y, m, resetDay)
  }

  // days_remaining
  function DaysRemaining(now: Moment, resetDay: int): int
    requires now.Valid() && resetDay <= 31
  {
    if resetDay <= 0 then -1
    else
      var delta := Ordinal(PeriodBounds(now, resetDay).1.date) - Ordinal(now.date);
      if delta < 0 then 0 else delta
  }

  // ---- Consecutive months ----------------------------------------------------------------

  lemma YearLength(y: int)
    ensures DaysBeforeYear(y + 1) == DaysBeforeYear(y) + if IsLeap(y) then 366 else 365
  {
    FourthYears(y);
    Centuries(y);
    FourthCenturies(y);
    Multiples(y);
  }

  lemma FourthYears(y: int)
    ensures y / 4 - (y - 1) / 4 == if y % 4 == 0 then 1 else 0
  {
  }

  lemma Centuries(y: int)
    ensures y / 100 - (y - 1) / 100 == if y % 100 == 0 then 1 else 0
  {
  }

  lemma FourthCenturies(y: int)
    ensures y / 400 - (y - 1) / 400 == if y % 400 == 0 then 1 else 0
  {
  }

  lemma Multiples(y: int)
    ensures y % 400 == 0 ==> y % 100 == 0
    ensures y % 100 == 0 ==> y % 4 == 0
  {
  }

  lemma DecemberEndsTheYear(y: int)
    ensures DaysBeforeMonth(y, 12) + 31 == if IsLeap(y) then 366 else 365
  {
    var leap := if IsLeap(y) then 1 else 0;
    assert DaysBeforeMonth(y, 2) == 31;
    assert DaysBeforeMonth(y, 3) == 59 + leap;
    assert DaysBeforeMonth(y, 4) == 90 + leap;
    assert DaysBeforeMonth(y, 5) == 120 + leap;
    assert DaysBeforeMonth(y, 6) == 151 + leap;
    assert DaysBeforeMonth(y, 7) == 181 + leap;
    assert DaysBeforeMonth(y, 8) == 212 + leap;
    assert DaysBeforeMonth(y, 9) == 243 + leap;
    assert DaysBeforeMonth(y, 10) == 273 + leap;
    assert DaysBeforeMonth(y, 11) == 304 + leap;
  }

  lemma NewYear(y: int)
    ensures DaysBeforeYear(y + 1) + DaysBeforeMonth(y + 1, 1) ==
            DaysBeforeYear(y) + DaysBeforeMonth(y, 12) + MonthLength(y, 12)
  {
    YearLength(y);
    DecemberEndsTheYear(y);
  }

  lemma NextInYear(y: int, m: int)
    requires 1 <= m < 12
    ensures DaysBeforeMonth(y, m + 1) == DaysBeforeMonth(y, m) + MonthLength(y, m)
  {
  }

  /** Day `d` of a month, counted on, becomes day `d - length` of the next month:
      also over New Year and in leap years. */
  lemma MonthsAreAdjacent(y: int, m: int)
    requires 1 <= m <= 12
    ensures var (ny, nm) := NextMonth(y, m);
            DaysBeforeYear(ny) + DaysBeforeMonth(ny, nm) ==
            DaysBeforeYear(y) + DaysBeforeMonth(y, m) + MonthLength(y, m)
  {
    if m == 12 {
      NewYear(y);
    } else {
      NextInYear(y, m);
    }
  }

  // ---- The promises ------------------------------------------------------------------------

  predicate ShortMonthEnd(d: Date, resetDay: int)
    requires d.Valid()
  {
    d.day == MonthLength(d.year, d.month) && MonthLength(d.year, d.month) < resetDay
  }

  /** The period starts at or before now, and ends after now except exactly on
      the last day of a month that is shorter than the reset day. */
  lemma NowIsInsidePeriod(now: Moment, resetDay: int)
    requires now.Valid() && 1 <= resetDay <= 31
    ensures AtOrBefore(PeriodBounds(now, resetDay).0, now)
    ensures Before(now, PeriodBounds(now, resetDay).1) <==> !ShortMonthEnd(now.date, resetDay)
  {
    var (y, m) := PeriodMonth(now.date, resetDay);
    MonthsAreAdjacent(y, m);
  }

  /** The grid has no gaps: a period ends where that of the next month starts. Asked
      at that moment, period_bounds gives the next period exactly when the end was
      not clamped; on a clamped end it still gives the old one. */
  lemma EndStartsNextPeriod(now: Moment, resetDay: int)
    requires now.Valid() && 1 <= resetDay <= 31
    ensures var (start, end) := PeriodBounds(now, resetDay);
            && (var (y, m) := PeriodMonth(now.date, resetDay);
                var (ny, nm) := NextMonth(y, m);
                end == MonthRange(ny, nm, resetDay).0)
            && (PeriodBounds(end, resetDay).0 == end <==> end.date.day == resetDay)
            && (end.date.day != resetDay ==> PeriodBounds(end, resetDay) == (start, end))
  {
    var (y, m) := PeriodMonth(now.date, resetDay);
    var (ny, nm) := NextMonth(y, m);
    assert LastMonth(ny, nm) == (y, m);
    var (start, end) := PeriodBounds(now, resetDay);
    assert end.date.day <= resetDay;
  }

  lemma CountdownInRange(now: Moment, resetDay: int)
    requires now.Valid() && 1 <= resetDay <= 31
    ensures 0 <= DaysRemaining(now, resetDay) <= 31
    ensures DaysRemaining(now, resetDay) == 0 <==> ShortMonthEnd(now.date, resetDay)
    ensures DaysRemaining(now, resetDay) ==
            Ordinal(PeriodBounds(now, resetDay).1.date) - Ordinal(now.date)
  {
    var (y, m) := PeriodMonth(now.date, resetDay);
    MonthsAreAdjacent(y, m);
  }

  function Tomorrow(d: Date): (t: Date)
    requires d.Valid()
    ensures t.Valid()
  {
    if d.day < MonthLength(d.year, d.month) then Date(d.year, d.month, d.day + 1)
    else
      var (y, m) := NextMonth(d.year, d.month);
      Date(y, m, 1)
  }

  lemma TomorrowIsNext(d: Date)
    requires d.Valid()
    ensures Ordinal(Tomorrow(d)) == Ordinal(d) + 1
  {
    MonthsAreAdjacent(d.year, d.month);
  }

  /** The countdown drops by one from a day to the next exactly when no new
      period begins in between, whatever the months and years. */
  lemma CountdownDropsByOne(now: Moment, later: Moment, resetDay: int)
    requires now.Valid() && later.Valid() && later.date == Tomorrow(now.date) && 1 <= resetDay <= 31
    ensures DaysRemaining(later, resetDay) == DaysRemaining(now, resetDay) - 1 <==>
            PeriodBounds(later, resetDay) == PeriodBounds(now, resetDay)
    ensures PeriodBounds(later, resetDay) == PeriodBounds(now, resetDay) <==>
            later.date.day != resetDay && !ShortMonthEnd(now.date, resetDay)
  {
    TomorrowIsNext(now.date);
    CountdownInRange(now, resetDay);
    CountdownInRange(later, resetDay);
    TomorrowsMonth(now.date, resetDay);
    var (y, m) := PeriodMonth(now.date, resetDay);
    var (ny, nm) := NextMonth(y, m);
    LaterReset(ny, nm, resetDay);
  }

  /** Tomorrow's period is the same one or the next. */
  lemma TomorrowsMonth(d: Date, resetDay: int)
    requires d.Valid() && 1 <= resetDay <= 31
    ensures var (y, m) := PeriodMonth(d, resetDay);
            PeriodMonth(Tomorrow(d), resetDay) ==
            if Tomorrow(d).day != resetDay && !ShortMonthEnd(d, resetDay) then (y, m) else NextMonth(y, m)
  {
  }

  lemma LaterReset(y: int, m: int, resetDay: int)
    requires 1 <= m <= 12 && 1 <= resetDay <= 31
    ensures var (ny, nm) := NextMonth(y, m);
            Ordinal(ResetIn(y, m, resetDay).date) < Ordinal(ResetIn(ny, nm, resetDay).date)
  {
    MonthsAreAdjacent(y, m);
  }
}
