/** The Gregorian calendar as day numbers, after section 21.4.1 of ECMA-262: day 0 is 1 January 1970. */
module Calendar {
  datatype Civil = Civil(year: int, month: int, day: int)

  predicate IsLeap(y: int) { y % 4 == 0 && (y % 100 != 0 || y % 400 == 0) }

  function DaysInYear(y: int): int { if IsLeap(y) then 366 else 365 }

  function DaysInMonth(y: int, m: int): int {
    if m == 2 then (if IsLeap(y) then 29 else 28)
    else if m == 4 || m == 6 || m == 9 || m == 11 then 30
    else 31
  }

  predicate Valid(c: Civil) {
    1 <= c.month <= 12 && 1 <= c.day <= DaysInMonth(c.year, c.month)
  }

  /** The day number of 1 January. */
  function YearStart(y: int): int
    decreases if y < 1970 then 1970 - y else y - 1970
  {
    if y == 1970 then 0
    else if y > 1970 then YearStart(y - 1) + DaysInYear(y - 1)
    else YearStart(y + 1) - DaysInYear(y)
  }

  /** Days of the year before the month `m`; month 13 stands for the whole year. */
  function MonthStart(y: int, m: int): int
    requires 1 <= m <= 13
    decreases m
  {
    if m == 1 then 0 else MonthStart(y, m - 1) + DaysInMonth(y, m - 1)
  }

  function DayNumber(c: Civil): int
    requires 1 <= c.month <= 12
  {
    YearStart(c.year) + MonthStart(c.year, c.month) + c.day - 1
  }

  lemma Step4(y: int)
    ensures (y + 1 - 1969) / 4 == (y - 1969) / 4 + (if y % 4 == 0 then 1 else 0)
  {}

  lemma Step100(y: int)
    ensures (y + 1 - 1901) / 100 == (y - 1901) / 100 + (if y % 100 == 0 then 1 else 0)
  {}

  lemma Step400(y: int)
    ensures (y + 1 - 1601) / 400 == (y - 1601) / 400 + (if y % 400 == 0 then 1 else 0)
  {}

  lemma Multiples(y: int)
    ensures y % 100 == 0 ==> y % 4 == 0
    ensures y % 400 == 0 ==> y % 100 == 0
  {}

  function DayFromYear(y: int): int {
    365 * (y - 1970) + (y - 1969) / 4 - (y - 1901) / 100 + (y - 1601) / 400
  }

  lemma DayFromYearStep(y: int)
    ensures DayFromYear(y + 1) == DayFromYear(y) + DaysInYear(y)
  {
    Step4(y);
    Step100(y);
    Step400(y);
    Multiples(y);
  }

  /** Counting the days year by year, leap years included, agrees with the standard's closed form. */
  lemma {:induction false} YearStartIsDayFromYear(y: int)
    ensures YearStart(y) == DayFromYear(y)
    decreases if y < 1970 then 1970 - y else y - 1970
  {
    if y > 1970 {
      YearStartIsDayFromYear(y - 1);
      DayFromYearStep(y - 1);
    } else if y < 1970 {
      YearStartIsDayFromYear(y + 1);
      DayFromYearStep(y);
    }
  }

  lemma YearStartStep(y: int)
    ensures YearStart(y + 1) == YearStart(y) + DaysInYear(y)
  {}

  lemma {:induction false} YearStartGrows(y: int, z: int)
    requires y <= z
    ensures YearStart(z) >= YearStart(y) + 365 * (z - y)
    decreases z - y
  {
    if y < z {
      YearStartStep(z - 1);
      YearStartGrows(y, z - 1);
    }
  }

  lemma MonthStartOfYear(y: int)
    ensures MonthStart(y, 13) == DaysInYear(y)
  {
    assert MonthStart(y, 4) == 31 + DaysInMonth(y, 2) + 31;
    assert MonthStart(y, 7) == MonthStart(y, 4) + 91;
    assert MonthStart(y, 10) == MonthStart(y, 7) + 92;
    assert MonthStart(y, 13) == MonthStart(y, 10) + 92;
  }

  /** The first days of the months, as section 21.4.1 of ECMA-262 lists them. */
  const MONTH_STARTS: seq<int> := [0, 31, 59, 90, 120, 151, 181, 212, 243, 273, 304, 334, 365]

  lemma MonthsStartAsListed(y: int, m: int)
    requires 1 <= m <= 13
    ensures MonthStart(y, m) == MONTH_STARTS[m - 1] + (if m > 2 && IsLeap(y) then 1 else 0)
    decreases m
  {
    if m > 1 { MonthsStartAsListed(y, m - 1); }
  }

  lemma {:induction false} MonthStartGrows(y: int, m: int, k: int)
    requires 1 <= m <= k <= 13
    ensures MonthStart(y, k) >= MonthStart(y, m) + 28 * (k - m)
    decreases k - m
  {
    if m < k { MonthStartGrows(y, m, k - 1); }
  }

  // --- from day numbers back to dates ----------------------------------------------------------

  /** YearFromTime: the year that holds the day, found by stepping from the guess `y`. */
  function YearFrom(day: int, y: int): int
    decreases if day < YearStart(y) then YearStart(y) - day else day - YearStart(y)
  {
    YearStartStep(y - 1);
    YearStartStep(y);
    if day < YearStart(y) then
      // the year before may start more than the distance away, so it ends the search
      if YearStart(y - 1) <= day then y - 1 else YearFrom(day, y - 1)
    else if day >= YearStart(y + 1) then YearFrom(day, y + 1)
    else y
  }

  lemma {:induction false} YearFromHolds(day: int, y: int)
    ensures YearStart(YearFrom(day, y)) <= day < YearStart(YearFrom(day, y) + 1)
    decreases if day < YearStart(y) then YearStart(y) - day else day - YearStart(y)
  {
    YearStartStep(y - 1);
    YearStartStep(y);
    if day < YearStart(y) {
      if day < YearStart(y - 1) { YearFromHolds(day, y - 1); }
    } else if day >= YearStart(y + 1) {
      YearFromHolds(day, y + 1);
    }
  }

  function YearOf(day: int): int { YearFrom(day, 1970) }

  lemma YearIsUnique(day: int, y: int, z: int)
    requires YearStart(y) <= day < YearStart(y + 1) && YearStart(z) <= day < YearStart(z + 1)
    ensures y == z
  {
    if y < z { YearStartGrows(y + 1, z); }
    if z < y { YearStartGrows(z + 1, y); }
  }

  /** The month that holds the day `doy` (0-based) of the year, searched down from `m`. */
  function MonthFrom(y: int, doy: int, m: int): (month: int)
    requires 1 <= m <= 12 && 0 <= doy < MonthStart(y, m + 1)
    ensures 1 <= month <= m && MonthStart(y, month) <= doy < MonthStart(y, month + 1)
    decreases m
  {
    if MonthStart(y, m) <= doy then m else MonthFrom(y, doy, m - 1)
  }

  /** MonthFromTime and DateFromTime. */
  function CivilOf(day: int): (c: Civil)
    ensures Valid(c) && DayNumber(c) == day
  {
    YearFromHolds(day, 1970);
    var y := YearOf(day);
    YearStartStep(y);
    MonthStartOfYear(y);
    var m := MonthFrom(y, day - YearStart(y), 12);
    Civil(y, m, day - YearStart(y) - MonthStart(y, m) + 1)
  }

  lemma DayWithinYear(c: Civil)
    requires Valid(c)
    ensures YearStart(c.year) <= DayNumber(c) < YearStart(c.year + 1)
    ensures MonthStart(c.year, c.month) <= DayNumber(c) - YearStart(c.year) < MonthStart(c.year, c.month + 1)
  {
    YearStartStep(c.year);
    MonthStartOfYear(c.year);
    MonthStartGrows(c.year, 1, c.month);
    MonthStartGrows(c.year, c.month + 1, 13);
  }

  predicate Earlier(a: Civil, b: Civil) {
    || a.year < b.year
    || (a.year == b.year && a.month < b.month)
    || (a.year == b.year && a.month == b.month && a.day < b.day)
  }

  lemma EarlierIsLess(a: Civil, b: Civil)
    requires Valid(a) && Valid(b) && Earlier(a, b)
    ensures DayNumber(a) < DayNumber(b)
  {
    if a.year < b.year {
      DayWithinYear(a);
      DayWithinYear(b);
      YearStartGrows(a.year + 1, b.year);
    } else if a.month < b.month {
      DayWithinYear(a);
      DayWithinYear(b);
      MonthStartGrows(a.year, a.month + 1, b.month);
    }
  }

  /** Day numbers order dates by year, then month, then day. */
  lemma DayNumbersOrderDates(a: Civil, b: Civil)
    requires Valid(a) && Valid(b)
    ensures DayNumber(a) < DayNumber(b) <==> Earlier(a, b)
  {
    if Earlier(a, b) {
      EarlierIsLess(a, b);
    } else if a != b {
      EarlierIsLess(b, a);
    }
  }

  /** Dates and day numbers undo each other. */
  lemma CivilRoundTrips(c: Civil)
    requires Valid(c)
    ensures CivilOf(DayNumber(c)) == c
  {
    DayNumbersOrderDates(c, CivilOf(DayNumber(c)));
    DayNumbersOrderDates(CivilOf(DayNumber(c)), c);
  }

  /** MakeDay with a day of the month that may lie outside the month. */
  function MakeDay(year: int, month: int, date: int): int
    requires 1 <= month <= 12
  {
    DayNumber(Civil(year, month, 1)) + date - 1
  }
}
