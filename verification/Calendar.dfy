/** Gregorian dates and the lifetime of the monthly counter. */
module Calendar {
  const DAY := 86_400

  /** Days before the first of January of year `y`, counted from year 1. */
  function DaysBeforeYear(y: int): int {
    var p := y - 1;
    365 * p + p / 4 - p / 100 + p / 400
  }

  function YearLength(y: int): int {
    DaysBeforeYear(y + 1) - DaysBeforeYear(y)
  }

  /** Days of a common year before month `m`. */
  function CommonDaysBefore(m: int): int
    requires 1 <= m <= 13
  {
    [0, 31, 59, 90, 120, 151, 181, 212, 243, 273, 304, 334, 365][m - 1]
  }

  /** Day number of the first of the month, 1 January 1970 being 0; a long year has its extra day
      at the end of February. */
  function MonthStart(y: int, m: int): int
    requires 1 <= m <= 13
  {
    DaysBeforeYear(y) - 719_162 + CommonDaysBefore(m) + (if m > 2 then YearLength(y) - 365 else 0)
  }

  datatype Date = Date(year: int, month: int, day: int)

  /** `date` names the day with number `n`. */
  predicate Names(date: Date, n: int) {
    && 1 <= date.month <= 12
    && MonthStart(date.year, date.month) <= n < MonthStart(date.year, date.month + 1)
    && date.day == n - MonthStart(date.year, date.month) + 1
  }

  /** The table in the source. */
  function DaysInMonth(year: int, month: int): int {
    if month in {1, 3, 5, 7, 8, 10, 12} then 31
    else if month in {4, 6, 9, 11} then 30
    else if month == 2 then
      if year % 4 == 0 && (year % 100 != 0 || year % 400 == 0) then 29 else 28
    else 31
  }

  /** 32-bit unsigned subtraction as the machine does it. */
  function Sub32(a: int, b: int): int {
    (a - b) % 0x1_0000_0000
  }

  function TtlSeconds(date: Date): int {
    (Sub32(DaysInMonth(date.year, date.month), date.day) + 5) % 0x1_0000_0000 * 24 * 60 * 60
  }

  lemma FourYears(y: int)
    ensures y / 4 - (y - 1) / 4 == if y % 4 == 0 then 1 else 0
  {
  }

  lemma Century(y: int)
    ensures y / 100 - (y - 1) / 100 == if y % 100 == 0 then 1 else 0
  {
    var q, r := y / 100, y % 100;
    assert y - 1 == if r == 0 then 100 * (q - 1) + 99 else 100 * q + (r - 1);
  }

  lemma FourCenturies(y: int)
    ensures y / 400 - (y - 1) / 400 == if y % 400 == 0 then 1 else 0
  {
    var q, r := y / 400, y % 400;
    assert y - 1 == if r == 0 then 400 * (q - 1) + 399 else 400 * q + (r - 1);
  }

  lemma CenturyIsMultiple(y: int)
    requires y % 100 == 0
    ensures y % 4 == 0
  {
    assert y == 4 * (25 * (y / 100));
  }

  lemma FourCenturiesAreMultiple(y: int)
    requires y % 400 == 0
    ensures y % 100 == 0
  {
    assert y == 100 * (4 * (y / 400));
  }

  lemma LeapYears(y: int)
    ensures YearLength(y) == if y % 4 == 0 && (y % 100 != 0 || y % 400 == 0) then 366 else 365
  {
    FourYears(y);
    Century(y);
    FourCenturies(y);
    if y % 100 == 0 { CenturyIsMultiple(y); }
    if y % 400 == 0 { FourCenturiesAreMultiple(y); }
  }

  /** The source's table is the true distance between consecutive month starts, in every year. */
  lemma MonthLengths(y: int, m: int)
    requires 1 <= m <= 12
    ensures MonthStart(y, m + 1) - MonthStart(y, m) == DaysInMonth(y, m)
    ensures m == 12 ==> MonthStart(y, 13) == MonthStart(y + 1, 1)
  {
    LeapYears(y);
  }

  /** Days are counted from the first of January 1970. */
  lemma KnownDates()
    ensures Names(Date(1970, 1, 1), 0) && Names(Date(2000, 2, 29), 11_016) && Names(Date(2024, 12, 31), 20_088)
  {
  }

  /** On every date the subtraction does not wrap, and a counter created at any second of that day
      expires 4 to 5 days after its month ends. */
  lemma CounterOutlivesMonth(date: Date, n: int, second: int)
    requires Names(date, n) && n * DAY <= second < (n + 1) * DAY
    ensures date.day <= DaysInMonth(date.year, date.month)
    ensures TtlSeconds(date) == (DaysInMonth(date.year, date.month) - date.day + 5) * DAY
    ensures var end := MonthStart(date.year, date.month + 1) * DAY;
            end + 4 * DAY <= second + TtlSeconds(date) < end + 5 * DAY
  {
    MonthLengths(date.year, date.month);
    var left := DaysInMonth(date.year, date.month) - date.day;
    assert 0 <= left <= 30;
    assert Sub32(DaysInMonth(date.year, date.month), date.day) == left;
    assert MonthStart(date.year, date.month + 1) == n + left + 1;
  }
}
