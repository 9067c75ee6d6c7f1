/** The filters of the "export report" dialog, shared by the sales and the
    payments reports: an optional first day, an optional last day and an
    optional client. */
module ExportFilter {
  import opened Wrappers
  import opened Calendar

  datatype Filters = Filters(startDay: Option<int>, endDay: Option<int>, clientId: Option<int>)

  /** The period test of the reports: on or after midnight of the first day
      when one is given, and on or before 23:59:59.999 of the last day when
      one is given. */
  predicate InPeriod(f: Filters, t: int)
  {
    (f.startDay.None? || t >= StartOfDay(f.startDay.value)) &&
    (f.endDay.None? || t <= EndOfDay(f.endDay.value))
  }

  /** The period is inclusive at both ends, counted in whole days. */
  lemma InPeriodByDay(f: Filters, t: int)
    ensures InPeriod(f, t) <==>
      (f.startDay.None? || f.startDay.value <= DayOf(t)) &&
      (f.endDay.None? || DayOf(t) <= f.endDay.value)
  {
    if f.startDay.Some? {
      AfterStart(t, f.startDay.value);
    }
    if f.endDay.Some? {
      BeforeEnd(t, f.endDay.value);
    }
  }
}
