/**
 Service dates and instants.  A service date is a 'YYYY-MM-DD' string in IST (section 5.6 of
 RFC 3339); an instant is a count of milliseconds since the epoch.
 */
module ServiceDates {
  import opened Options
  import opened Calendar
  import Text

  const DAY_MS := 86_400_000
  const MINUTE_MS := 60_000
  const IST_OFFSET := 19_800_000

  // --- digits ----------------------------------------------------------------------------------

  function Digit(n: int): (c: char)
    requires 0 <= n <= 9
    ensures Text.IsDigit(c) && c as int == 48 + n
  {
    (48 + n) as char
  }

  function Two(n: int): (s: string)
    requires 0 <= n <= 99
    ensures |s| == 2
  {
    [Digit(n / 10), Digit(n % 10)]
  }

  function Four(n: int): (s: string)
    requires 0 <= n <= 9999
    ensures |s| == 4
  {
    Two(n / 100) + Two(n % 100)
  }

  function Value(c: char): int { c as int - 48 }

  function TwoAt(s: string, i: int): int
    requires 0 <= i && i + 1 < |s|
  {
    10 * Value(s[i]) + Value(s[i + 1])
  }

  predicate DigitsAt(s: string, i: int, n: int)
    requires 0 <= i && i + n <= |s|
  {
    forall k :: i <= k < i + n ==> Text.IsDigit(s[k])
  }

  // --- date strings ----------------------------------------------------------------------------

  /** A date whose year the formatter writes with four digits. */
  predicate Writable(c: Civil) { Valid(c) && 1000 <= c.year <= 9999 }

  function DateText(c: Civil): (s: string)
    requires Writable(c)
    ensures |s| == 10
  {
    Four(c.year) + "-" + Two(c.month) + "-" + Two(c.day)
  }

  predicate DateShaped(s: string) {
    |s| == 10 && s[4] == '-' && s[7] == '-' && DigitsAt(s, 0, 4) && DigitsAt(s, 5, 2) && DigitsAt(s, 8, 2)
  }

  function CivilAt(s: string): Civil
    requires |s| == 10
  {
    Civil(100 * TwoAt(s, 0) + TwoAt(s, 2), TwoAt(s, 5), TwoAt(s, 8))
  }

  /** The date a string names, when it is well formed and the calendar has such a day. */
  function ParseDate(s: string): (c: Option<Civil>)
    ensures c.Some? ==> Writable(c.value) && |s| == 10
  {
    if DateShaped(s) && Writable(CivilAt(s)) then Some(CivilAt(s)) else None
  }

  /**
   The day a string is read as.  V8 takes days up to 31 in any month and rolls those that the month
   lacks over into the next, so '2026-02-30' is read as 2 March.
   */
  function DayRead(s: string): Option<int> {
    if DateShaped(s) && 1 <= CivilAt(s).month <= 12 && 1 <= CivilAt(s).day <= 31 then Some(DayNumber(CivilAt(s))) else None
  }

  function DayOf(s: string): int
    requires ParseDate(s).Some?
  {
    DayNumber(ParseDate(s).value)
  }

  /** What can be written: a day the calendar has, in a year of four digits. */
  lemma WritableExactly(c: Civil)
    ensures Writable(c) <==> Valid(c) && 1 <= c.year / 1000 <= 9
  {}

  /** What reads as a day: digits and dashes in their places, a month of the year, and a day up to 31,
      counted from the first of the month. */
  lemma DaysReadExactly(s: string)
    ensures DateShaped(s) ==>
              var y, m, d := 100 * TwoAt(s, 0) + TwoAt(s, 2), TwoAt(s, 5), TwoAt(s, 8);
              DayRead(s) == if 0 < m < 13 && 0 < d < 32 then Some(DayNumber(Civil(y, m, 1)) + d - 1) else None
    ensures DayRead(s).Some? ==> DateShaped(s)
  {}

  /** A date of the calendar is read as itself. */
  lemma DatesReadAsThemselves(s: string)
    requires ParseDate(s).Some?
    ensures DayRead(s) == Some(DayOf(s))
  {}

  lemma TwoReads(n: int)
    requires 0 <= n <= 99
    ensures Text.IsDigit(Two(n)[0]) && Text.IsDigit(Two(n)[1])
    ensures TwoAt(Two(n), 0) == n
  {}

  lemma TwoWrites(a: char, b: char)
    requires Text.IsDigit(a) && Text.IsDigit(b)
    ensures 0 <= 10 * Value(a) + Value(b) <= 99
    ensures Two(10 * Value(a) + Value(b)) == [a, b]
  {
    var n := 10 * Value(a) + Value(b);
    assert n / 10 == Value(a) && n % 10 == Value(b);
  }

  lemma DateTextReads(c: Civil)
    requires Writable(c)
    ensures ParseDate(DateText(c)) == Some(c)
  {
    var s := DateText(c);
    TwoReads(c.year / 100);
    TwoReads(c.year % 100);
    TwoReads(c.month);
    TwoReads(c.day);
    assert s[0..2] == Two(c.year / 100) && s[2..4] == Two(c.year % 100);
    assert s[5..7] == Two(c.month) && s[8..10] == Two(c.day);
    assert TwoAt(s, 0) == TwoAt(s[0..2], 0) && TwoAt(s, 2) == TwoAt(s[2..4], 0);
    assert TwoAt(s, 5) == TwoAt(s[5..7], 0) && TwoAt(s, 8) == TwoAt(s[8..10], 0);
  }

  lemma DateTextWrites(s: string)
    requires ParseDate(s).Some?
    ensures DateText(ParseDate(s).value) == s
  {
    var c := ParseDate(s).value;
    TwoWrites(s[0], s[1]);
    TwoWrites(s[2], s[3]);
    TwoWrites(s[5], s[6]);
    TwoWrites(s[8], s[9]);
    assert c.year / 100 == TwoAt(s, 0) && c.year % 100 == TwoAt(s, 2);
    assert s == [s[0], s[1]] + [s[2], s[3]] + "-" + [s[5], s[6]] + "-" + [s[8], s[9]];
  }

  /** Reading and writing a date undo each other. */
  lemma DatesRoundTrip(c: Civil, s: string)
    requires Writable(c)
    ensures ParseDate(s) == Some(c) <==> s == DateText(c)
  {
    DateTextReads(c);
    if ParseDate(s) == Some(c) { DateTextWrites(s); }
  }

  // --- text order ------------------------------------------------------------------------------

  lemma CompareTwo(a: int, b: int, x: string, y: string)
    requires 0 <= a <= 99 && 0 <= b <= 99
    ensures Text.Compare(Two(a) + x, Two(b) + y) == if a < b then -1 else if a > b then 1 else Text.Compare(x, y)
  {
    var s, t := Two(a) + x, Two(b) + y;
    assert s[1..] == [Digit(a % 10)] + x && t[1..] == [Digit(b % 10)] + y;
    assert s[1..][1..] == x && t[1..][1..] == y;
    assert a == 10 * (a / 10) + a % 10 && b == 10 * (b / 10) + b % 10;
  }

  lemma CompareDash(x: string, y: string)
    ensures Text.Compare("-" + x, "-" + y) == Text.Compare(x, y)
  {
    assert ("-" + x)[1..] == x && ("-" + y)[1..] == y;
  }

  lemma DateTextParts(c: Civil)
    requires Writable(c)
    ensures DateText(c) == Two(c.year / 100) + (Two(c.year % 100) + ("-" + (Two(c.month) + ("-" + (Two(c.day) + "")))))
  {}

  /** The text order of dates is their order in time (section 5.1 of RFC 3339). */
  lemma TextOrderIsDateOrder(a: Civil, b: Civil)
    requires Writable(a) && Writable(b)
    ensures Text.Compare(DateText(a), DateText(b)) < 0 <==> DayNumber(a) < DayNumber(b)
    ensures Text.Compare(DateText(a), DateText(b)) == 0 <==> a == b
  {
    DateTextParts(a);
    DateTextParts(b);
    var da, db := Two(a.day) + "", Two(b.day) + "";
    var ma, mb := Two(a.month) + ("-" + da), Two(b.month) + ("-" + db);
    var ya, yb := Two(a.year % 100) + ("-" + ma), Two(b.year % 100) + ("-" + mb);
    CompareTwo(a.day, b.day, "", "");
    CompareDash(da, db);
    CompareTwo(a.month, b.month, "-" + da, "-" + db);
    CompareDash(ma, mb);
    CompareTwo(a.year % 100, b.year % 100, "-" + ma, "-" + mb);
    CompareTwo(a.year / 100, b.year / 100, ya, yb);
    assert a.year == 100 * (a.year / 100) + a.year % 100 && b.year == 100 * (b.year / 100) + b.year % 100;
    DayNumbersOrderDates(a, b);
  }

  // --- instants --------------------------------------------------------------------------------

  /** The IST calendar day of an instant, as a day number. */
  function IstDay(t: int): int { (t + IST_OFFSET) / DAY_MS }

  /** 00:00 IST of a day, as an instant. */
  function IstMidnight(day: int): int { day * DAY_MS - IST_OFFSET }

  /** The instants whose IST date has a four-digit year. */
  predicate Writeable(day: int) { Writable(CivilOf(day)) }

  /** todayIST. */
  function TodayIST(now: int): string
    requires Writeable(IstDay(now))
  {
    DateText(CivilOf(IstDay(now)))
  }

  /** `new Date(s + 'T00:00:00+05:30')`; None is the invalid date. */
  function AtMidnightIST(s: string): Option<int> {
    var day := DayRead(s);
    if day.None? then None else Some(IstMidnight(day.value))
  }

  /** setUTCDate(getUTCDate() + n): the UTC date moves, the time within the UTC day stays. */
  function AddUTCDate(t: int, n: int): int {
    var c := CivilOf(t / DAY_MS);
    MakeDay(c.year, c.month, c.day + n) * DAY_MS + t % DAY_MS
  }

  /** shiftServiceDate; None when the date is invalid or the year of the result has not four digits. */
  function ShiftServiceDate(s: string, n: int): Option<string> {
    match AtMidnightIST(s)
    case None => None
    case Some(t) =>
      var shifted := AddUTCDate(t, n);
      if Writeable(IstDay(shifted)) then Some(TodayIST(shifted)) else None
  }

  lemma MidnightIsItsDay(day: int)
    ensures IstDay(IstMidnight(day)) == day
    ensures IstMidnight(day) / DAY_MS == day - 1
    ensures IstMidnight(day) % DAY_MS == DAY_MS - IST_OFFSET
  {}

  lemma AddUTCDateShifts(t: int, n: int)
    ensures AddUTCDate(t, n) == t + n * DAY_MS
  {
    var c := CivilOf(t / DAY_MS);
    assert MakeDay(c.year, c.month, c.day + n) == t / DAY_MS + n;
  }

  lemma ShiftedMidnight(day: int, n: int)
    ensures IstDay(AddUTCDate(IstMidnight(day), n)) == day + n
  {
    AddUTCDateShifts(IstMidnight(day), n);
    MidnightIsItsDay(day + n);
    assert IstMidnight(day) + n * DAY_MS == IstMidnight(day + n);
  }

  /**
   Shifting a date by n days gives the date n days on, through the UTC calendar and back, month
   ends and leap days included.
   */
  lemma ShiftAddsDays(s: string, n: int)
    requires DayRead(s).Some?
    ensures var day := DayRead(s).value + n;
            ShiftServiceDate(s, n) == if Writeable(day) then Some(DateText(CivilOf(day))) else None
  {
    hide AddUTCDate, CivilOf, DateText, DayNumber, DayRead, IstMidnight, IstDay;
    ShiftedMidnight(DayRead(s).value, n);
  }

  lemma DateTextOfDay(s: string)
    requires ParseDate(s).Some?
    ensures Writeable(DayNumber(ParseDate(s).value))
    ensures DateText(CivilOf(DayNumber(ParseDate(s).value))) == s
  {
    CivilRoundTrips(ParseDate(s).value);
    DateTextWrites(s);
  }

  lemma ShiftedDay(s: string, n: int)
    requires ShiftServiceDate(s, n).Some?
    ensures DayRead(s).Some? && ParseDate(ShiftServiceDate(s, n).value).Some?
    ensures DayOf(ShiftServiceDate(s, n).value) == DayRead(s).value + n
    ensures DayRead(ShiftServiceDate(s, n).value) == Some(DayRead(s).value + n)
  {
    hide AddUTCDate, DateText, CivilOf, DayRead;
    assert AtMidnightIST(s).Some?;
    ShiftAddsDays(s, n);
    DateTextReads(CivilOf(DayRead(s).value + n));
    DatesReadAsThemselves(ShiftServiceDate(s, n).value);
  }

  /** Shifts add up. */
  lemma ShiftsAdd(s: string, m: int, n: int)
    requires ShiftServiceDate(s, m).Some?
    ensures ShiftServiceDate(ShiftServiceDate(s, m).value, n) == ShiftServiceDate(s, m + n)
  {
    hide ShiftServiceDate, DateText, CivilOf, DayNumber, ParseDate, DayRead;
    var t := ShiftServiceDate(s, m).value;
    ShiftedDay(s, m);
    ShiftAddsDays(t, n);
    ShiftAddsDays(s, m + n);
  }

  /** A shift back undoes a shift exactly when the date it began from is one of the calendar. */
  lemma ShiftBackUndoesExactly(s: string, n: int)
    requires ShiftServiceDate(s, n).Some?
    ensures ShiftServiceDate(ShiftServiceDate(s, n).value, -n) == Some(s) <==> ParseDate(s).Some?
  {
    hide ShiftServiceDate, DateText, CivilOf, DayNumber, ParseDate, DayRead;
    ShiftsAdd(s, n, -n);
    ShiftedDay(s, n);
    ShiftAddsDays(s, 0);
    var day := DayRead(s).value;
    if ParseDate(s).Some? {
      DateTextOfDay(s);
      DatesReadAsThemselves(s);
    } else if Writeable(day) {
      DateTextReads(CivilOf(day));
    }
  }

  // --- days as ranges of instants --------------------------------------------------------------

  datatype Range = Range(from: int, to: int)

  predicate Within(t: int, r: Range) { r.from <= t < r.to }

  /** istDayRange (riderRecords.ts). */
  function IstDayRange(date: string): Option<Range> {
    if !DateShaped(date) then None
    else
      var from := AtMidnightIST(date);
      if from.None? then None else Some(Range(from.value, from.value + 24 * 60 * 60 * 1000))
  }

  /** istDaysToRange (activity.ts); None where the source would make an invalid date. */
  function IstDaysToRange(from: string, to: string): Option<Range> {
    var start := AtMidnightIST(from);
    var next := ShiftServiceDate(to, 1);
    if start.None? || next.None? then None
    else
      var end := AtMidnightIST(next.value);
      if end.None? then None else Some(Range(start.value, end.value))
  }

  lemma RangeOfDays(from: string, to: string)
    requires DayRead(from).Some? && DayRead(to).Some? && Writeable(DayRead(to).value + 1)
    ensures IstDaysToRange(from, to) == Some(Range(IstMidnight(DayRead(from).value), IstMidnight(DayRead(to).value + 1)))
  {
    hide AddUTCDate, DateText, CivilOf, DayRead, ShiftServiceDate, IstMidnight;
    ShiftAddsDays(to, 1);
    DateTextReads(CivilOf(DayRead(to).value + 1));
    DatesReadAsThemselves(DateText(CivilOf(DayRead(to).value + 1)));
  }

  /** The two ways of naming one day's instants agree. */
  lemma DayRangesAgree(date: string)
    requires DayRead(date).Some? && Writeable(DayRead(date).value + 1)
    ensures IstDayRange(date) == IstDaysToRange(date, date)
  {
    hide ShiftServiceDate, CivilOf, DateText, DayNumber, IstMidnight;
    RangeOfDays(date, date);
    NextMidnight(DayRead(date).value);
  }

  lemma NextMidnight(day: int)
    ensures IstMidnight(day + 1) == IstMidnight(day) + 24 * 60 * 60 * 1000
  {}

  /** An instant lies in the range from one day to another exactly when its IST day lies between the days read. */
  lemma RangeHoldsDaysRead(from: string, to: string, t: int)
    requires DayRead(from).Some? && DayRead(to).Some? && Writeable(DayRead(to).value + 1)
    ensures IstDaysToRange(from, to).Some?
    ensures Within(t, IstDaysToRange(from, to).value) <==> DayRead(from).value <= IstDay(t) <= DayRead(to).value
  {
    hide IstDaysToRange, DayRead, CivilOf, IstMidnight, IstDay;
    RangeOfDays(from, to);
    DayOfInstant(t, DayRead(from).value);
    DayOfInstant(t, DayRead(to).value + 1);
  }

  lemma TextOrderOfDays(date: string, t: int)
    requires ParseDate(date).Some? && Writeable(IstDay(t))
    ensures Text.Compare(date, TodayIST(t)) <= 0 <==> DayOf(date) <= IstDay(t)
    ensures Text.Compare(TodayIST(t), date) <= 0 <==> IstDay(t) <= DayOf(date)
  {
    hide DateText, ParseDate, CivilOf, DayNumber, IstDay;
    var a, c := ParseDate(date).value, CivilOf(IstDay(t));
    DateTextWrites(date);
    TextOrderIsDateOrder(a, c);
    TextOrderIsDateOrder(c, a);
    Text.CompareFlips(date, TodayIST(t));
  }

  /** For dates of the calendar: exactly when its IST date lies between them, as text. */
  lemma RangeHoldsItsDays(from: string, to: string, t: int)
    requires ParseDate(from).Some? && ParseDate(to).Some? && Writeable(IstDay(t)) && Writeable(DayOf(to) + 1)
    ensures IstDaysToRange(from, to).Some?
    ensures Within(t, IstDaysToRange(from, to).value) <==>
            Text.Compare(from, TodayIST(t)) <= 0 && Text.Compare(TodayIST(t), to) <= 0
  {
    hide IstDaysToRange, ParseDate, DayRead, TodayIST, CivilOf, DayNumber, IstDay;
    DatesReadAsThemselves(from);
    DatesReadAsThemselves(to);
    RangeHoldsDaysRead(from, to, t);
    TextOrderOfDays(from, t);
    TextOrderOfDays(to, t);
  }

  lemma DayOfInstant(t: int, day: int)
    ensures IstMidnight(day) <= t <==> day <= IstDay(t)
  {}

  /** Each instant lies in exactly one day's range: the one todayIST names. */
  lemma DaysTileTime(date: string, t: int)
    requires ParseDate(date).Some? && Writeable(DayOf(date) + 1) && Writeable(IstDay(t))
    ensures IstDayRange(date).Some?
    ensures Within(t, IstDayRange(date).value) <==> TodayIST(t) == date
  {
    hide IstDayRange, IstDaysToRange, ParseDate, DayRead, TodayIST, CivilOf, DayNumber, IstDay;
    DatesReadAsThemselves(date);
    DayRangesAgree(date);
    RangeHoldsItsDays(date, date, t);
    Text.CompareFlips(date, TodayIST(t));
  }

  // --- datetime-local fields -------------------------------------------------------------------

  /** utcToIstLocal on a valid instant. */
  function UtcToIstLocal(t: int): (s: string)
    requires Writeable(IstDay(t))
    ensures |s| == 16
  {
    var minutes := (t + IST_OFFSET) % DAY_MS / MINUTE_MS;
    TodayIST(t) + "T" + Two(minutes / 60) + ":" + Two(minutes % 60)
  }

  predicate TimeShaped(s: string) {
    |s| == 16 && s[10] == 'T' && s[13] == ':' && DigitsAt(s, 11, 2) && DigitsAt(s, 14, 2)
  }

  /** istLocalToUtc on a 16-character value; None is the invalid date.  24:00 is the end of the day. */
  function IstLocalToUtc(s: string): Option<int> {
    if !TimeShaped(s) then None
    else
      var day, h, m := DayRead(s[..10]), TwoAt(s, 11), TwoAt(s, 14);
      if day.None? || m > 59 || h > 24 || (h == 24 && m != 0) then None
      else Some(IstMidnight(day.value) + (60 * h + m) * MINUTE_MS)
  }

  /** Which values are instants: a day that reads as one, and a time from 00:00 to 24:00, the midnight after. */
  lemma LocalTimesExactly(s: string)
    requires TimeShaped(s)
    ensures IstLocalToUtc(s).Some? <==>
            DayRead(s[..10]).Some? && TwoAt(s, 14) < 60 && (TwoAt(s, 11) < 24 || s[11..] == "24:00")
    ensures IstLocalToUtc(s).Some? && s[11..] == "24:00" ==> IstLocalToUtc(s).value == IstMidnight(DayRead(s[..10]).value + 1)
  {
    hide DayRead;
    assert |"24:00"| == 5 && s[11..] == [s[11], s[12], s[13], s[14], s[15]];
    assert "24:00" == ['2', '4', ':', '0', '0'];
  }

  lemma LocalParts(t: int)
    requires Writeable(IstDay(t))
    ensures var s := UtcToIstLocal(t);
            var minutes := (t + IST_OFFSET) % DAY_MS / MINUTE_MS;
            && TimeShaped(s) && s[..10] == TodayIST(t)
            && TwoAt(s, 11) == minutes / 60 && TwoAt(s, 14) == minutes % 60
  {
    var s := UtcToIstLocal(t);
    var minutes := (t + IST_OFFSET) % DAY_MS / MINUTE_MS;
    TwoReads(minutes / 60);
    TwoReads(minutes % 60);
    assert s[11..13] == Two(minutes / 60) && s[14..16] == Two(minutes % 60);
    assert TwoAt(s, 11) == TwoAt(s[11..13], 0) && TwoAt(s, 14) == TwoAt(s[14..16], 0);
  }

  /** An instant shown in a datetime-local field and read back loses only what lies below the minute. */
  lemma LocalReadsBack(t: int)
    requires Writeable(IstDay(t))
    ensures IstLocalToUtc(UtcToIstLocal(t)) == Some(t - t % MINUTE_MS)
  {
    hide UtcToIstLocal, IstLocalToUtc, CivilOf, IstMidnight, IstDay;
    LocalReads(t);
    MinuteParts(t + IST_OFFSET);
    MinuteFloorIst(t);
  }

  /** What istLocalToUtc makes of the parts that utcToIstLocal wrote. */
  lemma LocalReads(t: int)
    requires Writeable(IstDay(t))
    ensures var minutes := (t + IST_OFFSET) % DAY_MS / MINUTE_MS;
            IstLocalToUtc(UtcToIstLocal(t)) ==
            Some(IstMidnight(IstDay(t)) + (60 * (minutes / 60) + minutes % 60) * MINUTE_MS)
  {
    hide UtcToIstLocal, TodayIST, DateText, CivilOf, ParseDate, DayRead, TwoAt, IstMidnight, IstDay, DayNumber;
    LocalParts(t);
    TodayReads(t);
    MinuteParts(t + IST_OFFSET);
  }

  lemma MinuteFloorIst(t: int)
    ensures IstMidnight(IstDay(t)) + (t + IST_OFFSET) % DAY_MS / MINUTE_MS * MINUTE_MS == t - t % MINUTE_MS
  {
    MinuteFloor(t + IST_OFFSET);
    OffsetIsWholeMinutes(t);
  }

  lemma OffsetIsWholeMinutes(t: int)
    ensures (t + IST_OFFSET) % MINUTE_MS == t % MINUTE_MS
  {}

  lemma TodayReads(t: int)
    requires Writeable(IstDay(t))
    ensures ParseDate(TodayIST(t)).Some? && DayOf(TodayIST(t)) == IstDay(t) && DayRead(TodayIST(t)) == Some(IstDay(t))
  {
    hide DateText, ParseDate, DayRead, DayNumber;
    DateTextReads(CivilOf(IstDay(t)));
    DatesReadAsThemselves(TodayIST(t));
  }

  lemma MinuteParts(u: int)
    ensures var minutes := u % DAY_MS / MINUTE_MS;
            0 <= minutes / 60 <= 23 && 0 <= minutes % 60 <= 59 && 60 * (minutes / 60) + minutes % 60 == minutes
  {}

  lemma MinuteFloor(u: int)
    ensures u / DAY_MS * DAY_MS + u % DAY_MS / MINUTE_MS * MINUTE_MS == u - u % MINUTE_MS
  {
    var r := u % DAY_MS;
    assert u == u / DAY_MS * DAY_MS + r;
    assert r / MINUTE_MS * MINUTE_MS == r - r % MINUTE_MS;
    assert u % MINUTE_MS == r % MINUTE_MS by {
      assert u == (u / DAY_MS * 1440) * MINUTE_MS + r;
    }
  }

  lemma LocalShowsBack(s: string)
    requires IstLocalToUtc(s).Some? && TwoAt(s, 11) != 24 && ParseDate(s[..10]).Some?
    ensures Writeable(IstDay(IstLocalToUtc(s).value)) && UtcToIstLocal(IstLocalToUtc(s).value) == s
  {
    hide UtcToIstLocal, DateText, CivilOf, ParseDate, DayRead, DayNumber, IstMidnight, IstDay, Two;
    var date, h, m := ParseDate(s[..10]).value, TwoAt(s, 11), TwoAt(s, 14);
    DatesReadAsThemselves(s[..10]);
    TwoWrites(s[11], s[12]);
    TwoWrites(s[14], s[15]);
    DateTextWrites(s[..10]);
    CivilRoundTrips(date);
    ClockParts(DayNumber(date), h, m);
    ShowsParts(IstLocalToUtc(s).value, date, h, m);
    assert s == s[..10] + "T" + [s[11], s[12]] + ":" + [s[14], s[15]];
  }

  lemma OtherShowsAnother(s: string)
    requires IstLocalToUtc(s).Some? && (TwoAt(s, 11) == 24 || ParseDate(s[..10]).None?)
    requires Writeable(IstDay(IstLocalToUtc(s).value))
    ensures UtcToIstLocal(IstLocalToUtc(s).value) != s
  {
    hide UtcToIstLocal, IstLocalToUtc, DateText, CivilOf, ParseDate, DayRead, DayNumber;
    LocalParts(IstLocalToUtc(s).value);
    TodayReads(IstLocalToUtc(s).value);
  }

  /**
   A field's value turned into an instant shows as the same value again exactly when the calendar
   has its day, and it does not write midnight as 24:00, the end of the day before.
   */
  lemma LocalShowsBackExactly(s: string)
    requires IstLocalToUtc(s).Some? && Writeable(IstDay(IstLocalToUtc(s).value))
    ensures UtcToIstLocal(IstLocalToUtc(s).value) == s <==> TwoAt(s, 11) != 24 && ParseDate(s[..10]).Some?
  {
    hide UtcToIstLocal, DateText, CivilOf, ParseDate, DayRead, DayNumber, IstMidnight, IstDay, Two;
    if TwoAt(s, 11) == 24 || ParseDate(s[..10]).None? { OtherShowsAnother(s); } else { LocalShowsBack(s); }
  }

  lemma ClockParts(day: int, h: int, m: int)
    requires 0 <= h <= 23 && 0 <= m <= 59
    ensures var t := IstMidnight(day) + (60 * h + m) * MINUTE_MS;
            IstDay(t) == day && (t + IST_OFFSET) % DAY_MS / MINUTE_MS == 60 * h + m
  {
    var ms := (60 * h + m) * MINUTE_MS;
    assert 0 <= ms < DAY_MS;
    assert IstMidnight(day) + ms + IST_OFFSET == day * DAY_MS + ms;
  }

  lemma ShowsParts(t: int, date: Civil, h: int, m: int)
    requires Writable(date) && CivilOf(IstDay(t)) == date
    requires 0 <= h <= 23 && 0 <= m <= 59 && (t + IST_OFFSET) % DAY_MS / MINUTE_MS == 60 * h + m
    ensures UtcToIstLocal(t) == DateText(date) + "T" + Two(h) + ":" + Two(m)
  {
    assert (60 * h + m) / 60 == h && (60 * h + m) % 60 == m;
  }
}
