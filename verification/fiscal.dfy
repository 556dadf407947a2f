/** The fiscal calendar: the fiscal year starts on the first of October and
    is named after the calendar year in which it ends; its quarters are
    Oct-Dec, Jan-Mar, Apr-Jun and Jul-Sep. A missing date has no fiscal
    year or quarter. */
module Fiscal {
  import opened Options
  import opened Calendar

  /** Month index (see `Calendar.MonthIndex`) of October of year `fy - 1`,
      the first month of fiscal year `fy`. */
  function FiscalYearStart(fy: int): int {
    12 * (fy - 1) + 9
  }

  /** `calculate_fiscal_year`. */
  function FiscalYear(date: Option<Date>): (r: Option<int>)
    ensures r.Some? <==> date.Some?
    ensures date.Some? ==>
      FiscalYearStart(r.value) <= MonthIndex(date.value) < FiscalYearStart(r.value) + 12
  {
    match date
    case None => None
    case Some(d) => Some(if d.month >= 10 then d.year + 1 else d.year)
  }

  /** `calculate_fiscal_quarter`. */
  function FiscalQuarter(date: Option<Date>): (r: Option<int>)
    ensures r.Some? <==> date.Some?
    ensures date.Some? ==> 1 <= r.value <= 4
    ensures date.Some? ==>
      var start := FiscalYearStart(FiscalYear(date).value);
      start + 3 * (r.value - 1) <= MonthIndex(date.value) < start + 3 * r.value
  {
    match date
    case None => None
    case Some(d) =>
      if d.month >= 10 then Some(1)
      else if d.month <= 3 then Some(2)
      else if d.month <= 6 then Some(3)
      else Some(4)
  }

  /** The fiscal year is the calendar year, plus one from October on. */
  lemma FiscalYearRule(d: Date)
    ensures d.month >= 10 <==> FiscalYear(Some(d)) == Some(d.year + 1)
    ensures d.month < 10 <==> FiscalYear(Some(d)) == Some(d.year)
  {
  }

  /** Quarter 1 is October to December, 2 January to March, 3 April to June,
      4 July to September. */
  lemma FiscalQuarterRule(d: Date)
    ensures FiscalQuarter(Some(d)) == Some(1) <==> 10 <= d.month <= 12
    ensures FiscalQuarter(Some(d)) == Some(2) <==> 1 <= d.month <= 3
    ensures FiscalQuarter(Some(d)) == Some(3) <==> 4 <= d.month <= 6
    ensures FiscalQuarter(Some(d)) == Some(4) <==> 7 <= d.month <= 9
  {
  }
}
