/**
 Calendar dates as ordinals of a calendar with twelve 31-day months per year:
 the order of two dates and the month a date lies in are those of the real
 calendar; day arithmetic across months is not modelled.
 */
module Calendar {
  type Date = int

  function MakeDate(year: int, month: int, day: int): Date
    requires 1 <= month <= 12 && 1 <= day <= 31
  {
    year * 372 + (month - 1) * 31 + (day - 1)
  }

  function Year(d: Date): int {
    d / 372
  }

  function Month(d: Date): (m: int)
    ensures 1 <= m <= 12
  {
    (d % 372) / 31 + 1
  }

  /** date.format("%Y-%m-01"). */
  function MonthStart(d: Date): Date {
    MakeDate(Year(d), Month(d), 1)
  }

  predicate IsMonthStart(d: Date) {
    MonthStart(d) == d
  }

  /** next_month: December rolls over into January of the following year. */
  function NextMonth(month: Date): Date {
    if Month(month) == 12 then MakeDate(Year(month) + 1, 1, 1)
    else MakeDate(Year(month), Month(month) + 1, 1)
  }

  /** The half-open range [month, next_month) that verification queries use holds
      exactly the dates whose partition month it is. */
  lemma MonthRangeIsPartition(month: Date, d: Date)
    requires IsMonthStart(month)
    ensures month <= d < NextMonth(month) <==> MonthStart(d) == month
  {
    assert d == 372 * Year(d) + d % 372;
    assert d % 372 == 31 * (Month(d) - 1) + d % 372 % 31;
    assert NextMonth(month) == month + 31;
    if month <= d < month + 31 {
      assert Year(month) * 372 <= d < Year(month) * 372 + 372;
      assert Year(d) == Year(month);
    }
  }
}
