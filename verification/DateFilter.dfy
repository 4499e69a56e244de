/** The admin screens' date filter: a mode and its parameters become a range of service dates. */
module DateFilter {
  import opened Options
  import opened Calendar
  import opened ServiceDates
  import Text

  datatype Bounds = Bounds(from: string, to: string)

  /** A 'YYYY-MM' month that the calendar has, in a year of four digits. */
  predicate MonthShaped(s: string) {
    && |s| == 7 && s[4] == '-' && DigitsAt(s, 0, 4) && DigitsAt(s, 5, 2)
    && 10 <= TwoAt(s, 0) && 1 <= TwoAt(s, 5) <= 12
  }

  function MonthYear(s: string): int
    requires MonthShaped(s)
  {
    100 * TwoAt(s, 0) + TwoAt(s, 2)
  }

  /** Day 0 of the next month: `new Date(Date.UTC(y, m, 0)).getUTCDate()`. */
  function LastDayOf(year: int, month: int): int
    requires 1 <= month <= 12
  {
    var y := if month == 12 then year + 1 else year;
    var m := if month == 12 then 1 else month + 1;
    CivilOf(MakeDay(y, m, 0)).day
  }

  lemma NextMonthStarts(year: int, month: int)
    requires 1 <= month <= 12
    ensures var y := if month == 12 then year + 1 else year;
            var m := if month == 12 then 1 else month + 1;
            MakeDay(y, m, 0) == DayNumber(Civil(year, month, DaysInMonth(year, month)))
  {
    if month == 12 {
      YearStartStep(year);
      MonthStartOfYear(year);
      assert MonthStart(year, 13) == MonthStart(year, 12) + DaysInMonth(year, 12);
    } else {
      assert MonthStart(year, month + 1) == MonthStart(year, month) + DaysInMonth(year, month);
    }
  }

  lemma LastDayIsMonthLength(year: int, month: int)
    requires 1 <= month <= 12
    ensures LastDayOf(year, month) == DaysInMonth(year, month)
  {
    hide MakeDay, DayNumber, CivilOf;
    NextMonthStarts(year, month);
    CivilRoundTrips(Civil(year, month, DaysInMonth(year, month)));
  }

  /** First and last day of a month. */
  function MonthBounds(month: string): Bounds
    requires MonthShaped(month)
  {
    LastDayIsMonthLength(MonthYear(month), TwoAt(month, 5));
    Bounds(month + "-01", month + "-" + Two(LastDayOf(MonthYear(month), TwoAt(month, 5))))
  }

  /** A bound that is blank does not limit. */
  predicate InBounds(s: string, b: Bounds) {
    (b.from == "" || Text.Compare(b.from, s) <= 0) && (b.to == "" || Text.Compare(s, b.to) <= 0)
  }

  lemma MonthDayReads(month: string, day: int)
    requires MonthShaped(month) && 1 <= day <= DaysInMonth(MonthYear(month), TwoAt(month, 5))
    ensures ParseDate(month + "-" + Two(day)) == Some(Civil(MonthYear(month), TwoAt(month, 5), day))
  {
    var s := month + "-" + Two(day);
    TwoReads(day);
    assert s[8..10] == Two(day) && TwoAt(s, 8) == TwoAt(s[8..10], 0);
    assert s[..7] == month && s[7] == '-';
    assert forall k :: 0 <= k < 7 ==> s[k] == month[k];
    assert s[8] == Two(day)[0] && s[9] == Two(day)[1];
    assert DateShaped(s);
  }

  /** The bounds of a month hold exactly the dates of that month, February in leap years included. */
  lemma MonthBoundsHoldTheMonth(month: string, date: string)
    requires MonthShaped(month) && ParseDate(date).Some?
    ensures InBounds(date, MonthBounds(month)) <==> date[..7] == month
  {
    hide DateText, ParseDate, TwoAt, LastDayOf, CivilOf;
    var y, m := MonthYear(month), TwoAt(month, 5);
    var c := ParseDate(date).value;
    LastDayIsMonthLength(y, m);
    var first, last := Civil(y, m, 1), Civil(y, m, DaysInMonth(y, m));
    OneReads();
    assert month + "-01" == month + "-" + "01";
    MonthDayReads(month, 1);
    MonthDayReads(month, DaysInMonth(y, m));
    DateTextWrites(month + "-01");
    DateTextWrites(month + "-" + Two(DaysInMonth(y, m)));
    DateTextWrites(date);
    TextOrderIsDateOrder(first, c);
    TextOrderIsDateOrder(c, last);
    DayNumbersOrderDates(first, c);
    DayNumbersOrderDates(c, last);
    MonthPrefix(date, month);
  }

  lemma OneReads()
    ensures Two(1) == "01"
  {}

  lemma MonthPrefix(date: string, month: string)
    requires MonthShaped(month) && ParseDate(date).Some?
    ensures date[..7] == month <==>
            ParseDate(date).value.year == MonthYear(month) && ParseDate(date).value.month == TwoAt(month, 5)
  {
    if ParseDate(date).value.year == MonthYear(month) && ParseDate(date).value.month == TwoAt(month, 5) {
      TwoInjective(date, month, 0);
      TwoInjective(date, month, 2);
      TwoInjective(date, month, 5);
    }
  }

  lemma TwoInjective(s: string, t: string, i: int)
    requires 0 <= i && i + 1 < |s| && i + 1 < |t| && DigitsAt(s, i, 2) && DigitsAt(t, i, 2)
    ensures TwoAt(s, i) == TwoAt(t, i) <==> s[i] == t[i] && s[i + 1] == t[i + 1]
    ensures 0 <= TwoAt(s, i) <= 99 && 0 <= TwoAt(t, i) <= 99
  {}

  // --- the modes -------------------------------------------------------------------------------

  datatype Mode = All | Today | Yesterday | Month | CustomMonth(month: string) | RangeOf(from: string, to: string)

  function MonthOf(date: string): string
    requires |date| == 10
  {
    date[..7]
  }

  lemma MonthOfDate(date: string)
    requires ParseDate(date).Some?
    ensures MonthShaped(MonthOf(date))
  {
    assert forall k :: 0 <= k < 7 ==> MonthOf(date)[k] == date[k];
  }

  /** resolveDateRange on `today`; a blank custom month means the current one. */
  function ResolveDateRange(mode: Mode, today: string): Bounds
    requires ParseDate(today).Some? && ShiftServiceDate(today, -1).Some?
    requires mode.CustomMonth? && mode.month != "" ==> MonthShaped(mode.month)
  {
    MonthOfDate(today);
    match mode
    case All => Bounds("", "")
    case Today => Bounds(today, today)
    case Yesterday => var day := ShiftServiceDate(today, -1).value; Bounds(day, day)
    case Month => MonthBounds(MonthOf(today))
    case CustomMonth(month) => MonthBounds(if month == "" then MonthOf(today) else month)
    case RangeOf(from, to) => Bounds(from, to)
  }

  lemma SameDay(date: string, day: string)
    requires ParseDate(date).Some? && day != ""
    ensures InBounds(date, Bounds(day, day)) <==> date == day
  {
    Text.CompareFlips(date, day);
  }

  /** The dates a mode is meant to show. */
  predicate Shows(mode: Mode, today: string, date: string)
    requires ParseDate(today).Some? && ParseDate(date).Some?
  {
    match mode
    case All => true
    case Today => date == today
    case Yesterday => DayOf(date) == DayOf(today) - 1
    case Month => MonthOf(date) == MonthOf(today)
    case CustomMonth(month) => MonthOf(date) == (if month == "" then MonthOf(today) else month)
    case RangeOf(from, to) => (from == "" || Text.Compare(from, date) <= 0) && (to == "" || Text.Compare(date, to) <= 0)
  }

  /** Each mode's range holds exactly the dates it is meant to show. */
  lemma ModesShow(mode: Mode, today: string, date: string)
    requires ParseDate(today).Some? && ShiftServiceDate(today, -1).Some? && ParseDate(date).Some?
    requires mode.CustomMonth? && mode.month != "" ==> MonthShaped(mode.month)
    ensures InBounds(date, ResolveDateRange(mode, today)) <==>
            Shows(mode, today, date)
  {
    hide ParseDate, DateText, ShiftServiceDate, MonthBounds, TwoAt, DayNumber, CivilOf;
    MonthOfDate(today);
    match mode
    case Today => SameDay(date, today);
    case Yesterday =>
      var day := ShiftServiceDate(today, -1).value;
      ShiftedDay(today, -1);
      DatesReadAsThemselves(today);
      SameNumberSameDate(date, day);
      SameDay(date, day);
    case Month => MonthBoundsHoldTheMonth(MonthOf(today), date);
    case CustomMonth(month) => MonthBoundsHoldTheMonth(if month == "" then MonthOf(today) else month, date);
    case _ =>
  }

  lemma SameNumberSameDate(date: string, day: string)
    requires ParseDate(date).Some? && ParseDate(day).Some?
    ensures DayOf(date) == DayOf(day) <==> date == day
    ensures day != ""
  {
    DateTextOfDay(date);
    DateTextOfDay(day);
  }
}
