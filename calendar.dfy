/** Gregorian month lengths, as Python's `calendar.monthrange(year, month)[1]`
    gives them. */
module Calendar {

  /** Python's `calendar.isleap`. Python's `%` floors and Dafny's is
      Euclidean; for the positive divisors used here both give the same
      remainder, negative years included. */
  predicate IsLeapYear(year: int)
  {
    year % 4 == 0 && (year % 100 != 0 || year % 400 == 0)
  }

  /** The month table of the `calendar` module (index 0 unused). */
  const MONTH_DAYS: seq<nat> := [0, 31, 28, 31, 30, 31, 30, 31, 31, 30, 31, 30, 31]

  /** Number of days of a month: the table entry, plus one for February of a
      leap year. The contract states the familiar rule it implements. */
  function DaysInMonth(year: int, month: int): (d: nat)
    requires 1 <= month <= 12
    ensures 28 <= d <= 31
    ensures month in {1, 3, 5, 7, 8, 10, 12} ==> d == 31
    ensures month in {4, 6, 9, 11} ==> d == 30
    ensures month == 2 && IsLeapYear(year) ==> d == 29
    ensures month == 2 && !IsLeapYear(year) ==> d == 28
  {
    MONTH_DAYS[month] + (if month == 2 && IsLeapYear(year) then 1 else 0)
  }
}
