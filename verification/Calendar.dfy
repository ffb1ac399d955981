/** Calendar dates, with the range and validity that Python's `datetime.date` enforces. */
module Calendar {

  datatype Date = Date(year: int, month: int, day: int)

  predicate IsLeapYear(y: int) {
    y % 4 == 0 && (y % 100 != 0 || y % 400 == 0)
  }

  function DaysInMonth(y: int, m: int): int {
    if m == 2 then (if IsLeapYear(y) then 29 else 28)
    else if m == 4 || m == 6 || m == 9 || m == 11 then 30
    else 31
  }

  predicate IsDate(d: Date) {
    1 <= d.year <= 9999 && 1 <= d.month <= 12 && 1 <= d.day <= DaysInMonth(d.year, d.month)
  }

  /** The days that exist, month by month. */
  lemma DatesAre(y: int, m: int, d: int)
    ensures IsDate(Date(y, m, d)) <==> (
              && 0 < y < 10_000 && m in {1, 2, 3, 4, 5, 6, 7, 8, 9, 10, 11, 12} && 0 < d < 32
              && (d == 31 ==> m in {1, 3, 5, 7, 8, 10, 12})
              && (d == 30 ==> m != 2)
              && (d == 29 && m == 2 ==> y % 400 == 0 || (y % 100 != 0 && y % 4 == 0)))
  {
  }
}
