/** The date the report handler passes as the start of the report window,
    and what the resulting window covers. */
module ReportPeriod {
  import opened Calendar
  import ReportRepo

  /** time.Date(year, time.Month(month), 0, 0, 0, 0, 0, time.UTC), as the
      report handler builds it: day 0 is normalised to the last day of the
      month before the requested one. */
  function ReportDateAsWritten(year: int, month: int): (d: Date)
    ensures Valid(d)
    ensures DayNumber(d) == DayNumber(FirstOf(year, month)) - 1
  {
    MakeDateDayNumber(year, month, 0);
    MakeDate(year, month, 0)
  }

  /** The first day of the requested month. */
  function MonthStart(year: int, month: int): (d: Date)
    requires 1 <= month <= 12
    ensures Valid(d)
  {
    Date(year, month, 1)
  }

  /** Starting from the first of the month, the report window holds exactly
      the instants of that month. */
  lemma MonthStartWindowIsMonth(year: int, month: int, d: Date, s: int)
    requires 1 <= month <= 12 && Valid(d) && 0 <= s < MicrosPerDay
    ensures var w := ReportRepo.Window(MonthStart(year, month));
      w.0 <= Midnight(d) + s < w.1 <==> d.year == year && d.month == month
  {
    var start := MonthStart(year, month);
    AddMonthLength(start);
    InstantBetween(d, s, start, AddMonths(start, 1));
    MonthSpan(year, month, d);
  }

  /** The handler's date begins exactly one day before the requested month. */
  lemma AsWrittenStartsDayBefore(year: int, month: int)
    requires 1 <= month <= 12
    ensures Midnight(ReportDateAsWritten(year, month)) == Midnight(MonthStart(year, month)) - MicrosPerDay
  {
    assert FirstOf(year, month) == MonthStart(year, month);
    MidnightOfDayBefore(ReportDateAsWritten(year, month), MonthStart(year, month));
  }

  /** The window the handler asks for starts a full day before the requested
      month does. */
  lemma AsWrittenWindowStartsDayEarly(year: int, month: int)
    requires 1 <= month <= 12
    ensures ReportRepo.Window(ReportDateAsWritten(year, month)).0
         == ReportRepo.Window(MonthStart(year, month)).0 - MicrosPerDay
  {
    AsWrittenStartsDayBefore(year, month);
  }

  /** For March 2022 the handler's window is [28 February, 28 March): it
      takes in a day of February and leaves out the last days of March. */
  lemma AsWrittenMarch2022()
    ensures ReportDateAsWritten(2022, 3) == Date(2022, 2, 28)
    ensures var w := ReportRepo.Window(ReportDateAsWritten(2022, 3));
      w.0 <= Midnight(Date(2022, 2, 28)) < w.1
      && !(w.0 <= Midnight(Date(2022, 3, 30)) < w.1)
  {
    assert MakeDate(2022, 2, 28) == Date(2022, 2, 28);
    assert MakeDate(2022, 3, 0) == MakeDate(2022, 2, 28);
    assert AddMonths(Date(2022, 2, 28), 1) == MakeDate(2022, 3, 28) == Date(2022, 3, 28);
  }
}
