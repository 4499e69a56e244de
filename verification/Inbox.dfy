/** The admin inbox's filters: read off the URL, written back to it, and turned into a query. */
module Inbox {
  import opened Options
  import opened ServiceDates
  import Calendar
  import Text

  datatype Reason = ParseFailed | UnknownOutlet | MissingField

  function ReasonText(r: Reason): string {
    match r case ParseFailed => "PARSE_FAILED" case UnknownOutlet => "UNKNOWN_OUTLET" case MissingField => "MISSING_FIELD"
  }

  function ReadReason(s: string): Option<Reason> {
    if s == "PARSE_FAILED" then Some(ParseFailed)
    else if s == "UNKNOWN_OUTLET" then Some(UnknownOutlet)
    else if s == "MISSING_FIELD" then Some(MissingField)
    else None
  }

  datatype InboxFilter = InboxFilter(
    resolved: bool,
    reason: Option<Reason>,
    source: Option<string>,
    sender: Option<string>,
    q: string,
    from: Option<string>,
    to: Option<string>)

  /** The parameters the filter looks at. */
  datatype Key = Show | Query | ReasonKey | Source | Sender | From | To

  type Params = map<Key, string>

  const Q_MAX := 200

  function Get(p: Params, key: Key): string { if key in p then Text.Trim(p[key]) else "" }

  function NonBlank(s: string): Option<string> { if s == "" then None else Some(s) }

  function ReadDay(s: string): Option<string> { if DateShaped(s) then Some(s) else None }

  function Cut(s: string): string { if |s| <= Q_MAX then s else s[..Q_MAX] }

  function ReadInboxFilter(p: Params): InboxFilter {
    var from, to := ReadDay(Get(p, From)), ReadDay(Get(p, To));
    var swap := from.Some? && to.Some? && Text.Compare(to.value, from.value) < 0;
    InboxFilter(
      Get(p, Show) == "resolved",
      ReadReason(Get(p, ReasonKey)),
      NonBlank(Get(p, Source)),
      NonBlank(Text.Lower(Get(p, Sender))),
      Cut(Get(p, Query)),
      if swap then to else from,
      if swap then from else to)
  }

  /** `if (value) u.set(key, value)`. */
  function SetGiven(p: Params, key: Key, value: Option<string>): Params {
    if value.Some? && value.value != "" then p[key := value.value] else p
  }

  /** inboxFilterParams: what is not at its default. */
  function InboxFilterParams(f: InboxFilter): Params {
    var u: Params := if f.resolved then map[Show := "resolved"] else map[];
    var u := SetGiven(u, Query, Some(f.q));
    var u := SetGiven(u, ReasonKey, if f.reason.Some? then Some(ReasonText(f.reason.value)) else None);
    var u := SetGiven(u, Source, f.source);
    var u := SetGiven(u, Sender, f.sender);
    var u := SetGiven(u, From, f.from);
    SetGiven(u, To, f.to)
  }

  // --- reading what was printed ----------------------------------------------------------------

  function Reads(value: Option<string>): string { if Given(value) then Text.Trim(value.value) else "" }

  lemma GetSet(p: Params, at: Key, value: Option<string>, key: Key)
    ensures Get(SetGiven(p, at, value), key) == if key == at && Given(value) then Reads(value) else Get(p, key)
    ensures !Given(value) ==> Reads(value) == ""
  {}

  /** What a filter prints under a key. */
  function ValueAt(f: InboxFilter, key: Key): Option<string> {
    match key
    case Show => if f.resolved then Some("resolved") else None
    case Query => Some(f.q)
    case ReasonKey => if f.reason.Some? then Some(ReasonText(f.reason.value)) else None
    case Source => f.source
    case Sender => f.sender
    case From => f.from
    case To => f.to
  }

  lemma PrintedValue(f: InboxFilter, key: Key)
    ensures Get(InboxFilterParams(f), key) == Reads(ValueAt(f, key))
  {
    hide SetGiven, Get, Reads, ReasonText;
    var u0: Params := if f.resolved then map[Show := "resolved"] else map[];
    var u1 := SetGiven(u0, Query, ValueAt(f, Query));
    var u2 := SetGiven(u1, ReasonKey, ValueAt(f, ReasonKey));
    var u3 := SetGiven(u2, Source, f.source);
    var u4 := SetGiven(u3, Sender, f.sender);
    var u5 := SetGiven(u4, From, f.from);
    GetStart(f, key);
    GetSet(u0, Query, ValueAt(f, Query), key);
    GetSet(u1, ReasonKey, ValueAt(f, ReasonKey), key);
    GetSet(u2, Source, f.source, key);
    GetSet(u3, Sender, f.sender, key);
    GetSet(u4, From, f.from, key);
    GetSet(u5, To, f.to, key);
  }

  lemma GetStart(f: InboxFilter, key: Key)
    ensures var u0: Params := if f.resolved then map[Show := "resolved"] else map[];
            Get(u0, key) == if key == Show then Reads(ValueAt(f, Show)) else ""
  {}

  /** A filter as readInboxFilter leaves it, but for the cut of `q`. */
  ghost predicate Read(f: InboxFilter) {
    && (f.source.Some? ==> f.source.value != "" && Text.Trimmed(f.source.value))
    && (f.sender.Some? ==> f.sender.value != "" && Text.Trimmed(f.sender.value) && Text.Lower(f.sender.value) == f.sender.value)
    && |f.q| <= Q_MAX && (f.q == "" || !Text.IsSpace(f.q[0]))
    && (f.from.Some? ==> DateShaped(f.from.value))
    && (f.to.Some? ==> DateShaped(f.to.value))
    && (f.from.Some? && f.to.Some? ==> Text.Compare(f.to.value, f.from.value) >= 0)
  }

  lemma LowerKeeps(s: string)
    ensures Text.Trimmed(s) ==> Text.Trimmed(Text.Lower(s))
    ensures Text.Lower(Text.Lower(s)) == Text.Lower(s)
    ensures |Text.Lower(s)| == |s|
  {}

  lemma ReadGivesRead(p: Params)
    ensures Read(ReadInboxFilter(p))
  {
    Text.TrimTrims(if Source in p then p[Source] else "");
    Text.TrimTrims(if Sender in p then p[Sender] else "");
    Text.TrimTrims(if Query in p then p[Query] else "");
    LowerKeeps(Get(p, Sender));
    var from, to := ReadDay(Get(p, From)), ReadDay(Get(p, To));
    if from.Some? && to.Some? { Text.CompareFlips(from.value, to.value); }
  }

  lemma DayIsTrimmed(s: string)
    requires DateShaped(s)
    ensures Text.Trim(s) == s && s != ""
  {
    assert Text.IsDigit(s[0]) && Text.IsDigit(s[9]);
    Text.TrimFixed(s);
  }

  lemma ReasonReads(r: Option<Reason>)
    ensures ReadReason(Reads(if r.Some? then Some(ReasonText(r.value)) else None)) == r
  {
    Text.TrimFixed("PARSE_FAILED");
    Text.TrimFixed("UNKNOWN_OUTLET");
    Text.TrimFixed("MISSING_FIELD");
  }

  lemma TextReads(v: Option<string>)
    requires v.Some? ==> v.value != "" && Text.Trimmed(v.value)
    ensures NonBlank(Reads(v)) == v
  {
    if v.Some? { Text.TrimFixed(v.value); }
  }

  lemma DayReads(v: Option<string>)
    requires v.Some? ==> DateShaped(v.value)
    ensures ReadDay(Reads(v)) == v
  {
    if v.Some? { DayIsTrimmed(v.value); }
  }

  lemma FlagReads(resolved: bool)
    ensures (Reads(if resolved then Some("resolved") else None) == "resolved") == resolved
  {
    Text.TrimFixed("resolved");
  }

  lemma QueryReads(q: string)
    ensures Reads(Some(q)) == Text.Trim(q)
  {}

  lemma SenderReads(v: Option<string>)
    requires v.Some? ==> v.value != "" && Text.Trimmed(v.value) && Text.Lower(v.value) == v.value
    ensures NonBlank(Text.Lower(Reads(v))) == v
  {
    if v.Some? { Text.TrimFixed(v.value); }
  }

  /** Reading a printed filter changes nothing but white space at the end of `q`. */
  lemma ReadPrinted(f: InboxFilter)
    requires Read(f)
    ensures ReadInboxFilter(InboxFilterParams(f)) == f.(q := Text.Trim(f.q))
  {
    hide InboxFilterParams, Reads, Get, ReadReason, NonBlank, ReadDay, DateShaped;
    PrintedValue(f, Show);
    PrintedValue(f, Query);
    PrintedValue(f, ReasonKey);
    PrintedValue(f, Source);
    PrintedValue(f, Sender);
    PrintedValue(f, From);
    PrintedValue(f, To);
    FlagReads(f.resolved);
    QueryReads(f.q);
    ReasonReads(f.reason);
    TextReads(f.source);
    SenderReads(f.sender);
    DayReads(f.from);
    DayReads(f.to);
    Text.TrimShortens(f.q);
  }

  /**
   For any raw input, the filter on the screen survives the trip through the URL exactly when
   cutting `q` to length did not leave it ending in white space.
   */
  lemma RoundTripsExactly(p: Params)
    ensures var f := ReadInboxFilter(p);
            ReadInboxFilter(InboxFilterParams(f)) == f <==>
            !(|Get(p, Query)| > Q_MAX && Text.IsSpace(Get(p, Query)[Q_MAX - 1]))
  {
    hide InboxFilterParams;
    var f := ReadInboxFilter(p);
    ReadGivesRead(p);
    ReadPrinted(f);
    Text.TrimTrims(if Query in p then p[Query] else "");
    if |Get(p, Query)| > Q_MAX && Text.IsSpace(Get(p, Query)[Q_MAX - 1]) {
      Text.TrimTrims(f.q);
      assert f.q[|f.q| - 1] == Get(p, Query)[Q_MAX - 1];
    } else {
      Text.TrimFixed(f.q);
    }
  }

  /** After one trip nothing changes any more, whatever the input. */
  lemma SecondTripIsIdentity(p: Params)
    ensures var f := ReadInboxFilter(InboxFilterParams(ReadInboxFilter(p)));
            ReadInboxFilter(InboxFilterParams(f)) == f
  {
    hide InboxFilterParams, ReadInboxFilter;
    ReadGivesRead(p);
    ReadPrinted(ReadInboxFilter(p));
    ReadGivesRead(InboxFilterParams(ReadInboxFilter(p)));
    var f := ReadInboxFilter(InboxFilterParams(ReadInboxFilter(p)));
    ReadPrinted(f);
    Text.TrimTrims(ReadInboxFilter(p).q);
    Text.TrimFixed(f.q);
  }

  // --- the days a filter selects ---------------------------------------------------------------

  datatype Created = Created(gte: Option<int>, lt: Option<int>)

  /** Each of the filter's days, if any, reads as a day. */
  predicate DaysValid(f: InboxFilter) {
    && (f.from.Some? ==> DayRead(f.from.value).Some? && Writeable(DayRead(f.from.value).value + 1))
    && (f.to.Some? ==> DayRead(f.to.value).Some? && Writeable(DayRead(f.to.value).value + 1))
  }

  /** inboxQuery's bounds on `createdAt`; a missing end borrows the other one and is then dropped. */
  function CreatedBounds(f: InboxFilter): Created
    requires DaysValid(f)
  {
    if f.from.None? && f.to.None? then Created(None, None)
    else
      var first := if f.from.Some? then f.from.value else f.to.value;
      var last := if f.to.Some? then f.to.value else f.from.value;
      var range := IstDaysToRange(first, last);
      if range.None? then Created(None, None)
      else Created(if f.from.Some? then Some(range.value.from) else None, if f.to.Some? then Some(range.value.to) else None)
  }

  predicate CreatedMatches(t: int, c: Created) {
    (c.gte.Some? ==> t >= c.gte.value) && (c.lt.Some? ==> t < c.lt.value)
  }

  /** An email is listed exactly when its IST day lies between the filter's days, both included. */
  lemma FilterSelectsDaysRead(f: InboxFilter, t: int)
    requires DaysValid(f)
    ensures CreatedMatches(t, CreatedBounds(f)) <==>
            && (f.from.Some? ==> DayRead(f.from.value).value <= IstDay(t))
            && (f.to.Some? ==> IstDay(t) <= DayRead(f.to.value).value)
  {
    hide IstDay, DayRead, IstDaysToRange, IstMidnight, Calendar.CivilOf;
    if f.from.Some? || f.to.Some? {
      var first := if f.from.Some? then f.from.value else f.to.value;
      var last := if f.to.Some? then f.to.value else f.from.value;
      RangeOfDays(first, last);
      DayOfInstant(t, DayRead(first).value);
      DayOfInstant(t, DayRead(last).value + 1);
    }
  }

  /** For days of the calendar: exactly when its IST date lies between them, as text. */
  lemma FilterSelectsItsDays(f: InboxFilter, t: int)
    requires DaysValid(f) && Writeable(IstDay(t))
    requires (f.from.Some? ==> ParseDate(f.from.value).Some?) && (f.to.Some? ==> ParseDate(f.to.value).Some?)
    ensures CreatedMatches(t, CreatedBounds(f)) <==>
            && (f.from.Some? ==> Text.Compare(f.from.value, TodayIST(t)) <= 0)
            && (f.to.Some? ==> Text.Compare(TodayIST(t), f.to.value) <= 0)
  {
    hide TodayIST, IstDay, ParseDate, DayRead, CreatedBounds, Calendar.CivilOf, Calendar.DayNumber;
    FilterSelectsDaysRead(f, t);
    if f.from.Some? {
      DatesReadAsThemselves(f.from.value);
      TextOrderOfDays(f.from.value, t);
    }
    if f.to.Some? {
      DatesReadAsThemselves(f.to.value);
      TextOrderOfDays(f.to.value, t);
    }
  }
}
