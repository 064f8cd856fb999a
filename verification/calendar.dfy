/** Civil dates of the proleptic Gregorian calendar (UTC), and the
    normalisation Go's time.Date applies to out-of-range months and days:
    time.Date(2022, 3, 0, ...) is 28 February 2022, and
    time.Date(2022, 10, 31, ...).AddDate(0, 1, 0) is 1 December 2022. */
module Calendar {

  /** A civil date; `Valid` says it names a real day. */
  datatype Date = Date(year: int, month: int, day: int)

  predicate IsLeap(y: int)
  {
    y % 4 == 0 && (y % 100 != 0 || y % 400 == 0)
  }

  function DaysIn(y: int, m: int): (n: int)
    requires 1 <= m <= 12
    ensures 28 <= n <= 31
  {
    if m == 2 then (if IsLeap(y) then 29 else 28)
    else if m == 4 || m == 6 || m == 9 || m == 11 then 30
    else 31
  }

  predicate Valid(d: Date)
  {
    1 <= d.month <= 12 && 1 <= d.day <= DaysIn(d.year, d.month)
  }

  /** Days from 1 January of year 0 to 1 January of year `y`. */
  function DaysBeforeYear(y: int): int
  {
    365 * y + (y + 3) / 4 - (y + 99) / 100 + (y + 399) / 400
  }

  /** Days from 1 January to the first day of month `m` (m = 13: the whole year). */
  function DaysBeforeMonth(y: int, m: int): int
    requires 1 <= m <= 13
    decreases m
  {
    if m == 1 then 0 else DaysBeforeMonth(y, m - 1) + DaysIn(y, m - 1)
  }

  /** The position of a day on the time line: days since 1 January of year 0. */
  function DayNumber(d: Date): int
    requires 1 <= d.month <= 12
  {
    DaysBeforeYear(d.year) + DaysBeforeMonth(d.year, d.month) + d.day - 1
  }

  /** time.Date's month normalisation: months outside 1..12 carry into the year. */
  function NormMonth(year: int, month: int): (ym: (int, int))
    ensures 1 <= ym.1 <= 12
  {
    (year + (month - 1) / 12, (month - 1) % 12 + 1)
  }

  function NextMonth(y: int, m: int): (ym: (int, int))
    requires 1 <= m <= 12
    ensures 1 <= ym.1 <= 12
  {
    if m == 12 then (y + 1, 1) else (y, m + 1)
  }

  function PrevMonth(y: int, m: int): (ym: (int, int))
    requires 1 <= m <= 12
    ensures 1 <= ym.1 <= 12
    ensures NextMonth(ym.0, ym.1) == (y, m)
  {
    if m == 1 then (y - 1, 12) else (y, m - 1)
  }

  /** time.Date(year, month, day, 0, 0, 0, 0, time.UTC): the day that lies
      `day - 1` days after the first of the normalised month, so that day 0 is
      the last day of the month before and day 32 runs into the month after. */
  function MakeDate(year: int, month: int, day: int): (d: Date)
    ensures Valid(d)
    decreases (if day < 1 then 1 else 0), (if day < 1 then -day else day)
  {
    var (y, m) := NormMonth(year, month);
    if day < 1 then
      var (py, pm) := PrevMonth(y, m);
      MakeDate(py, pm, day + DaysIn(py, pm))
    else if day > DaysIn(y, m) then
      var (ny, nm) := NextMonth(y, m);
      MakeDate(ny, nm, day - DaysIn(y, m))
    else
      Date(y, m, day)
  }

  /** t.AddDate(0, months, 0) for a date at midnight. */
  function AddMonths(d: Date, months: int): (r: Date)
    ensures Valid(r)
    ensures DayNumber(r) == DayNumber(FirstOf(d.year, d.month + months)) + d.day - 1
  {
    MakeDateDayNumber(d.year, d.month + months, d.day);
    MakeDate(d.year, d.month + months, d.day)
  }

  /** The first day of the normalised month. */
  function FirstOf(year: int, month: int): (d: Date)
    ensures Valid(d) && d.day == 1
  {
    var (y, m) := NormMonth(year, month);
    Date(y, m, 1)
  }

  lemma DivStep(y: int, k: int)
    requires k == 4 || k == 100 || k == 400
    ensures (y + k) / k - (y + k - 1) / k == if y % k == 0 then 1 else 0
  {
    var q := y / k;
    var r := y % k;
    assert y == q * k + r;
    assert (y + k) / k == q + 1 + r / k;
  }

  lemma DivisibilityChain(y: int)
    ensures y % 400 == 0 ==> y % 100 == 0
    ensures y % 100 == 0 ==> y % 4 == 0
  {
    var q := y / 400;
    var r := y % 400;
    assert y == 400 * q + r;
    assert y == 100 * (4 * q) + r;
    assert r % 100 == y % 100 by {
      assert y % 100 == (100 * (4 * q) + r) % 100;
    }
    var q2 := y / 100;
    var r2 := y % 100;
    assert y == 4 * (25 * q2) + r2;
  }

  /** Consecutive years start 365 days apart, 366 after a leap year. */
  lemma DaysBeforeYearStep(y: int)
    ensures DaysBeforeYear(y + 1) == DaysBeforeYear(y) + if IsLeap(y) then 366 else 365
  {
    DivStep(y, 4);
    DivStep(y, 100);
    DivStep(y, 400);
    DivisibilityChain(y);
    var a := (y + 4) / 4 - (y + 3) / 4;
    var b := (y + 100) / 100 - (y + 99) / 100;
    var c := (y + 400) / 400 - (y + 399) / 400;
    assert DaysBeforeYear(y + 1) - DaysBeforeYear(y) == 365 + a - b + c;
  }

  /** The twelve months add up to the length of the year. */
  lemma MonthsFillYear(y: int)
    ensures DaysBeforeMonth(y, 13) == if IsLeap(y) then 366 else 365
  {
    var feb := DaysIn(y, 2);
    assert feb == if IsLeap(y) then 29 else 28;
    assert DaysBeforeMonth(y, 2) == 31;
    assert DaysBeforeMonth(y, 3) == 31 + feb;
    assert DaysBeforeMonth(y, 4) == 62 + feb;
    assert DaysBeforeMonth(y, 5) == 92 + feb;
    assert DaysBeforeMonth(y, 6) == 123 + feb;
    assert DaysBeforeMonth(y, 7) == 153 + feb;
    assert DaysBeforeMonth(y, 8) == 184 + feb;
    assert DaysBeforeMonth(y, 9) == 215 + feb;
    assert DaysBeforeMonth(y, 10) == 245 + feb;
    assert DaysBeforeMonth(y, 11) == 276 + feb;
    assert DaysBeforeMonth(y, 12) == 306 + feb;
  }

  lemma YearLength(y: int)
    ensures DaysBeforeYear(y + 1) == DaysBeforeYear(y) + DaysBeforeMonth(y, 13)
  {
    DaysBeforeYearStep(y);
    MonthsFillYear(y);
  }

  /** The first of the next month lies one month length after the first of this one. */
  lemma NextMonthStart(y: int, m: int)
    requires 1 <= m <= 12
    ensures var (ny, nm) := NextMonth(y, m);
      DayNumber(Date(ny, nm, 1)) == DayNumber(Date(y, m, 1)) + DaysIn(y, m)
  {
    if m == 12 {
      YearLength(y);
    }
  }

  /** time.Date on a day before the first: the same as counting back from
      the month before. */
  lemma MakeDateStepBack(year: int, month: int, day: int)
    requires day < 1
    ensures var (y, m) := NormMonth(year, month);
      var (py, pm) := PrevMonth(y, m);
      MakeDate(year, month, day) == MakeDate(py, pm, day + DaysIn(py, pm))
      && FirstOf(py, pm) == Date(py, pm, 1)
      && FirstOf(year, month) == Date(y, m, 1)
      && DayNumber(Date(y, m, 1)) == DayNumber(Date(py, pm, 1)) + DaysIn(py, pm)
  {
    var (y, m) := NormMonth(year, month);
    var (py, pm) := PrevMonth(y, m);
    assert NormMonth(py, pm) == (py, pm);
    NextMonthStart(py, pm);
  }

  /** time.Date on a day past the end: the same as counting on into the
      month after. */
  lemma MakeDateStepOn(year: int, month: int, day: int)
    requires var (y, m) := NormMonth(year, month); day > DaysIn(y, m)
    ensures var (y, m) := NormMonth(year, month);
      var (ny, nm) := NextMonth(y, m);
      MakeDate(year, month, day) == MakeDate(ny, nm, day - DaysIn(y, m))
      && FirstOf(ny, nm) == Date(ny, nm, 1)
      && FirstOf(year, month) == Date(y, m, 1)
      && DayNumber(Date(ny, nm, 1)) == DayNumber(Date(y, m, 1)) + DaysIn(y, m)
  {
    var (y, m) := NormMonth(year, month);
    var (ny, nm) := NextMonth(y, m);
    assert NormMonth(ny, nm) == (ny, nm);
    NextMonthStart(y, m);
  }

  /** time.Date's result lies `day - 1` days after the first of the normalised
      month, whatever `day` is. */
  lemma {:induction false} MakeDateDayNumber(year: int, month: int, day: int)
    ensures DayNumber(MakeDate(year, month, day)) == DayNumber(FirstOf(year, month)) + day - 1
    decreases (if day < 1 then 1 else 0), (if day < 1 then -day else day)
  {
    var (y, m) := NormMonth(year, month);
    if day < 1 {
      MakeDateStepBack(year, month, day);
      var (py, pm) := PrevMonth(y, m);
      MakeDateDayNumber(py, pm, day + DaysIn(py, pm));
    } else if day > DaysIn(y, m) {
      MakeDateStepOn(year, month, day);
      var (ny, nm) := NextMonth(y, m);
      MakeDateDayNumber(ny, nm, day - DaysIn(y, m));
    } else {
      assert MakeDate(year, month, day) == Date(y, m, day);
    }
  }

  /** time.Date leaves a real date unchanged. */
  lemma MakeDateOfValid(d: Date)
    requires Valid(d)
    ensures MakeDate(d.year, d.month, d.day) == d
  {
  }

  lemma {:induction false} DaysBeforeMonthMonotone(y: int, m1: int, m2: int)
    requires 1 <= m1 <= m2 <= 13
    ensures DaysBeforeMonth(y, m1) + (m2 - m1) <= DaysBeforeMonth(y, m2)
    decreases m2 - m1
  {
    if m1 < m2 {
      DaysBeforeMonthMonotone(y, m1, m2 - 1);
    }
  }

  lemma {:induction false} DaysBeforeYearMonotone(y1: int, y2: int)
    requires y1 <= y2
    ensures DaysBeforeYear(y1) + 365 * (y2 - y1) <= DaysBeforeYear(y2)
    decreases y2 - y1
  {
    if y1 < y2 {
      DaysBeforeYearMonotone(y1, y2 - 1);
      YearLength(y2 - 1);
    }
  }

  /** A real date lies within its year on the time line. */
  lemma DayNumberInYear(d: Date)
    requires Valid(d)
    ensures DaysBeforeYear(d.year) <= DayNumber(d) < DaysBeforeYear(d.year + 1)
  {
    DaysBeforeMonthMonotone(d.year, d.month + 1, 13);
    YearLength(d.year);
  }

  /** A day of an earlier month lies before the first of month (y, m). */
  lemma EarlierMonthBefore(y: int, m: int, d: Date)
    requires 1 <= m <= 12 && Valid(d)
    requires d.year < y || (d.year == y && d.month < m)
    ensures DayNumber(d) < DayNumber(Date(y, m, 1))
  {
    DayNumberInYear(d);
    if d.year < y {
      DaysBeforeYearMonotone(d.year + 1, y);
      DaysBeforeMonthMonotone(y, 1, m);
    } else {
      DaysBeforeMonthMonotone(y, d.month + 1, m);
      assert DaysBeforeMonth(y, d.month + 1) == DaysBeforeMonth(y, d.month) + DaysIn(y, d.month);
    }
  }

  /** A day of a later month lies at or after the end of month (y, m). */
  lemma LaterMonthAfter(y: int, m: int, d: Date)
    requires 1 <= m <= 12 && Valid(d)
    requires d.year > y || (d.year == y && d.month > m)
    ensures DayNumber(Date(y, m, 1)) + DaysIn(y, m) <= DayNumber(d)
  {
    assert DaysBeforeMonth(y, m + 1) == DaysBeforeMonth(y, m) + DaysIn(y, m);
    if d.year > y {
      DayNumberInYear(d);
      DaysBeforeYearMonotone(y + 1, d.year);
      DaysBeforeMonthMonotone(y, m + 1, 13);
      YearLength(y);
    } else {
      DaysBeforeMonthMonotone(y, m + 1, d.month);
    }
  }

  /** The days of month (y, m) are exactly the day numbers from the first of
      that month up to, not including, the first of the next month. */
  lemma MonthSpan(y: int, m: int, d: Date)
    requires 1 <= m <= 12 && Valid(d)
    ensures var start := DayNumber(Date(y, m, 1));
      start <= DayNumber(d) < start + DaysIn(y, m) <==> d.year == y && d.month == m
  {
    if d.year < y || (d.year == y && d.month < m) {
      EarlierMonthBefore(y, m, d);
    } else if d.year > y || (d.year == y && d.month > m) {
      LaterMonthAfter(y, m, d);
    }
  }

  /** Microseconds in a day: instants are counted in microseconds from
      midnight UTC of 1 January of year 0, as time.Time is at its precision here. */
  const MicrosPerDay: int := 86_400_000_000

  /** The instant at which a date begins. */
  function Midnight(d: Date): int
    requires 1 <= d.month <= 12
  {
    DayNumber(d) * MicrosPerDay
  }

  /** time.Date(y, m+1, 1) is the first of the month after (y, m). */
  lemma FirstOfNext(y: int, m: int)
    requires 1 <= m <= 12
    ensures FirstOf(y, m + 1) == Date(NextMonth(y, m).0, NextMonth(y, m).1, 1)
    ensures MakeDate(y, m + 1, 1) == FirstOf(y, m + 1)
  {
  }

  /** An instant of day `d` falls in [Midnight(a), Midnight(b)) exactly when
      the day itself lies in [a, b). */
  lemma InstantBetween(d: Date, s: int, a: Date, b: Date)
    requires 1 <= d.month <= 12 && 1 <= a.month <= 12 && 1 <= b.month <= 12
    requires 0 <= s < MicrosPerDay
    ensures Midnight(a) <= Midnight(d) + s < Midnight(b)
        <==> DayNumber(a) <= DayNumber(d) < DayNumber(b)
  {
  }

  /** Adding a month to a date moves it on by the length of its month (a day
      past the end of the next month carries on into the one after). */
  lemma AddMonthLength(d: Date)
    requires Valid(d)
    ensures DayNumber(AddMonths(d, 1)) == DayNumber(d) + DaysIn(d.year, d.month)
  {
    MakeDateDayNumber(d.year, d.month + 1, d.day);
    FirstOfNext(d.year, d.month);
    NextMonthStart(d.year, d.month);
  }

  /** The day before begins one day's worth of microseconds earlier. */
  lemma MidnightOfDayBefore(a: Date, b: Date)
    requires 1 <= a.month <= 12 && 1 <= b.month <= 12
    requires DayNumber(a) == DayNumber(b) - 1
    ensures Midnight(a) == Midnight(b) - MicrosPerDay
  {
  }
}
