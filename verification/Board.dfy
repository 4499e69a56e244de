/** What "today" means on the operational boards, as the clock moves. */
module Board {
  import opened Options
  import opened Calendar
  import opened ServiceDates
  import opened OrderStatus
  import Text

  datatype Order = Order(serviceDate: string, status: Status, scheduledArrival: Option<int>)

  /** The database filters the boards are built from, and which orders match them. */
  datatype Filter =
    | ServiceDateIs(date: string)
    | ServiceDateAfter(date: string)
    | StatusIn(statuses: seq<Status>)
    | ArrivalFrom(time: int)
    | And(left: Filter, right: Filter)
    | Or(left: Filter, right: Filter)
    | Nor(filter: Filter)

  predicate Matches(o: Order, f: Filter) {
    match f
    case ServiceDateIs(date) => o.serviceDate == date
    case ServiceDateAfter(date) => Text.Compare(o.serviceDate, date) > 0
    case StatusIn(statuses) => o.status in statuses
    case ArrivalFrom(time) => o.scheduledArrival.Some? && o.scheduledArrival.value >= time
    case And(left, right) => Matches(o, left) && Matches(o, right)
    case Or(left, right) => Matches(o, left) || Matches(o, right)
    case Nor(filter) => !Matches(o, filter)
  }

  const HOUR_MS := 3_600_000
  const ROLLOVER_HOUR_IST := 6
  const ROLLOVER_ARRIVAL_GRACE_HOURS := 4

  const LIVE_STATUSES: seq<Status> := [Received, Accepted, KotPrinted, Prepared, Dispatched]

  const ORDER_STATUSES: seq<Status> :=
    [Enquiry, Quoted, Received, Accepted, KotPrinted, Prepared, Dispatched, Delivered, Failed, Cancelled, Lost,
     Misdelivery, MissedDelivery, Refunded, RatingOrder]

  function IstHour(now: int): int { (now + IST_OFFSET) % DAY_MS / HOUR_MS }

  predicate InRollover(now: int) { IstHour(now) < ROLLOVER_HOUR_IST }

  function RolloverCutoff(now: int): int { now - ROLLOVER_ARRIVAL_GRACE_HOURS * HOUR_MS }

  /** The clock reads a date that can be written, and so can the day before. */
  predicate Clock(now: int) { Writeable(IstDay(now)) && Writeable(IstDay(now) - 1) }

  lemma YesterdayIsADate(now: int)
    requires Clock(now)
    ensures ShiftServiceDate(TodayIST(now), -1) == Some(DateText(CivilOf(IstDay(now) - 1)))
  {
    hide ShiftServiceDate, TodayIST, DateText, CivilOf, DayNumber, ParseDate;
    TodayReads(now);
    ShiftAddsDays(TodayIST(now), -1);
  }

  function Yesterday(now: int): (date: string)
    requires Clock(now)
    ensures date == DateText(CivilOf(IstDay(now) - 1))
  {
    hide ShiftServiceDate, TodayIST, DateText, CivilOf, DayNumber, ParseDate;
    YesterdayIsADate(now);
    ShiftServiceDate(TodayIST(now), -1).value
  }

  function OpenOnly(statuses: seq<Status>): (open: seq<Status>)
    ensures forall s :: s in open <==> s in statuses && s in LIVE_STATUSES
  {
    if statuses == [] then []
    else
      assert statuses == [statuses[0]] + statuses[1..];
      (if statuses[0] in LIVE_STATUSES then [statuses[0]] else []) + OpenOnly(statuses[1..])
  }

  function CarriedOver(now: int, statuses: seq<Status>): Option<Filter>
    requires Clock(now)
  {
    var open := OpenOnly(statuses);
    if !InRollover(now) || open == [] then None
    else Some(And(ServiceDateIs(Yesterday(now)), And(StatusIn(open), ArrivalFrom(RolloverCutoff(now)))))
  }

  function TodayBoardFilter(now: int, statuses: seq<Status>): Filter
    requires Clock(now)
  {
    var own := And(ServiceDateIs(TodayIST(now)), StatusIn(statuses));
    var carried := CarriedOver(now, statuses);
    if carried.Some? then Or(own, carried.value) else own
  }

  function YesterdayBoardFilter(now: int, statuses: seq<Status>): Filter
    requires Clock(now)
  {
    var own := And(ServiceDateIs(Yesterday(now)), StatusIn(statuses));
    var carried := CarriedOver(now, LIVE_STATUSES);
    if carried.Some? then And(own, Nor(carried.value)) else own
  }

  /** findUpcomingRuns: booked for a later date. */
  function UpcomingBoardFilter(now: int, statuses: seq<Status>): Filter
    requires Clock(now)
  {
    And(ServiceDateAfter(TodayIST(now)), StatusIn(statuses))
  }

  function LiveServiceDates(now: int): seq<string>
    requires Clock(now)
  {
    if InRollover(now) then [TodayIST(now), Yesterday(now)] else [TodayIST(now)]
  }

  // --- the boards by day number ----------------------------------------------------------------

  predicate Dated(o: Order) { ParseDate(o.serviceDate).Some? }

  /** In the hours after midnight, and booked to arrive no more than the grace period ago. */
  predicate StillDue(now: int, o: Order) {
    && now < IstMidnight(IstDay(now)) + 6 * 60 * 60 * 1000
    && o.scheduledArrival.Some? && o.scheduledArrival.value >= now - 4 * 60 * 60 * 1000
  }

  /** The window is the six hours after midnight in IST. */
  lemma RolloverIsTheSmallHours(now: int)
    ensures InRollover(now) <==> now < IstMidnight(IstDay(now)) + 6 * 60 * 60 * 1000
    ensures RolloverCutoff(now) == now - 4 * 60 * 60 * 1000
  {
    var u := now + IST_OFFSET;
    assert u == u / DAY_MS * DAY_MS + u % DAY_MS;
  }

  lemma DateIsDay(date: string, day: int)
    requires ParseDate(date).Some? && Writeable(day)
    ensures date == DateText(CivilOf(day)) <==> DayOf(date) == day
    ensures Text.Compare(date, DateText(CivilOf(day))) > 0 <==> DayOf(date) > day
  {
    hide DateText, ParseDate, CivilOf, DayNumber;
    var c := ParseDate(date).value;
    DateTextOfDay(date);
    DateTextWrites(date);
    DateTextReads(CivilOf(day));
    TextOrderIsDateOrder(CivilOf(day), c);
    Text.CompareFlips(date, DateText(CivilOf(day)));
  }

  lemma CarriedMatches(now: int, statuses: seq<Status>, o: Order)
    requires Clock(now) && Dated(o)
    ensures var carried := CarriedOver(now, statuses);
            (carried.Some? && Matches(o, carried.value)) <==>
            && o.status in statuses && o.status in LIVE_STATUSES
            && DayOf(o.serviceDate) == IstDay(now) - 1 && StillDue(now, o)
  {
    hide DateText, ParseDate, CivilOf, DayNumber, IstHour, InRollover, RolloverCutoff;
    RolloverIsTheSmallHours(now);
    DateIsDay(o.serviceDate, IstDay(now) - 1);
    var open := OpenOnly(statuses);
    assert o.status in open <==> o.status in statuses && o.status in LIVE_STATUSES;
    var inner := And(StatusIn(open), ArrivalFrom(RolloverCutoff(now)));
    assert Matches(o, inner) <==> Matches(o, StatusIn(open)) && Matches(o, ArrivalFrom(RolloverCutoff(now)));
  }

  lemma TodayMatches(now: int, statuses: seq<Status>, o: Order)
    requires Clock(now) && Dated(o)
    ensures Matches(o, TodayBoardFilter(now, statuses)) <==>
            && o.status in statuses
            && (DayOf(o.serviceDate) == IstDay(now)
                || (DayOf(o.serviceDate) == IstDay(now) - 1 && o.status in LIVE_STATUSES && StillDue(now, o)))
  {
    hide DateText, ParseDate, CivilOf, DayNumber, IstHour, CarriedOver;
    DateIsDay(o.serviceDate, IstDay(now));
    CarriedMatches(now, statuses, o);
    var own := And(ServiceDateIs(TodayIST(now)), StatusIn(statuses));
    assert Matches(o, own) <==> o.serviceDate == TodayIST(now) && o.status in statuses;
  }

  lemma YesterdayMatches(now: int, statuses: seq<Status>, o: Order)
    requires Clock(now) && Dated(o)
    ensures Matches(o, YesterdayBoardFilter(now, statuses)) <==>
            && o.status in statuses
            && DayOf(o.serviceDate) == IstDay(now) - 1
            && !(o.status in LIVE_STATUSES && StillDue(now, o))
  {
    hide DateText, ParseDate, CivilOf, DayNumber, IstHour, CarriedOver;
    DateIsDay(o.serviceDate, IstDay(now) - 1);
    CarriedMatches(now, LIVE_STATUSES, o);
    var own := And(ServiceDateIs(Yesterday(now)), StatusIn(statuses));
    assert Matches(o, own) <==> o.serviceDate == Yesterday(now) && o.status in statuses;
  }

  lemma UpcomingMatches(now: int, statuses: seq<Status>, o: Order)
    requires Clock(now) && Dated(o)
    ensures Matches(o, UpcomingBoardFilter(now, statuses)) <==> o.status in statuses && DayOf(o.serviceDate) > IstDay(now)
  {
    hide DateText, ParseDate, CivilOf, DayNumber;
    DateIsDay(o.serviceDate, IstDay(now));
  }

  // --- what the boards promise -----------------------------------------------------------------

  /** Whatever statuses are asked for, no order is on two boards. */
  lemma NeverOnTwoBoards(now: int, o: Order, a: seq<Status>, b: seq<Status>, c: seq<Status>)
    requires Clock(now) && Dated(o)
    ensures !(Matches(o, TodayBoardFilter(now, a)) && Matches(o, YesterdayBoardFilter(now, b)))
    ensures !(Matches(o, UpcomingBoardFilter(now, c)) && Matches(o, TodayBoardFilter(now, a)))
    ensures !(Matches(o, UpcomingBoardFilter(now, c)) && Matches(o, YesterdayBoardFilter(now, b)))
  {
    TodayMatches(now, a, o);
    YesterdayMatches(now, b, o);
    UpcomingMatches(now, c, o);
  }

  /** Every order of today or yesterday, in any status, is on one of the two boards that show all statuses. */
  lemma RecentOrdersAreOnABoard(now: int, o: Order)
    requires Clock(now) && Dated(o)
    ensures Matches(o, TodayBoardFilter(now, ORDER_STATUSES)) || Matches(o, YesterdayBoardFilter(now, ORDER_STATUSES))
       <==> IstDay(now) - 1 <= DayOf(o.serviceDate) <= IstDay(now)
  {
    TodayMatches(now, ORDER_STATUSES, o);
    YesterdayMatches(now, ORDER_STATUSES, o);
    EveryStatusIsListed(o.status);
  }

  /** The statuses the boards call live are those of the shared pipeline. */
  lemma LiveIsThePipeline(s: Status)
    ensures s in LIVE_STATUSES <==> Pipeline(s)
  {}

  lemma EveryStatusIsListed(s: Status)
    ensures s in ORDER_STATUSES
  {
    var i := match s
      case Enquiry => 0 case Quoted => 1 case Received => 2 case Accepted => 3 case KotPrinted => 4
      case Prepared => 5 case Dispatched => 6 case Delivered => 7 case Failed => 8 case Cancelled => 9
      case Lost => 10 case Misdelivery => 11 case MissedDelivery => 12 case Refunded => 13 case RatingOrder => 14;
    assert ORDER_STATUSES[i] == s;
  }

  /** What is live today was booked for one of the live service dates. */
  lemma TodayIsAmongLiveDates(now: int, statuses: seq<Status>, o: Order)
    requires Clock(now) && Dated(o) && Matches(o, TodayBoardFilter(now, statuses))
    ensures o.serviceDate in LiveServiceDates(now)
  {
    hide DateText, CivilOf, DayNumber, IstHour, ParseDate;
    TodayMatches(now, statuses, o);
    DateIsDay(o.serviceDate, IstDay(now));
    DateIsDay(o.serviceDate, IstDay(now) - 1);
  }

  /** And each of the live service dates can have an order on Today. */
  lemma LiveDatesExactly(now: int, date: string)
    requires Clock(now) && ParseDate(date).Some?
    ensures date in LiveServiceDates(now) <==>
            exists o: Order :: o.serviceDate == date && Matches(o, TodayBoardFilter(now, LIVE_STATUSES))
  {
    hide DateText, CivilOf, DayNumber, IstHour, ParseDate, TodayBoardFilter, InRollover;
    if date in LiveServiceDates(now) {
      RolloverIsTheSmallHours(now);
      DateIsDay(date, IstDay(now));
      DateIsDay(date, IstDay(now) - 1);
      var o := Order(date, Received, Some(now));
      assert Received in LIVE_STATUSES by { LiveIsThePipeline(Received); }
      TodayMatches(now, LIVE_STATUSES, o);
    }
    if o: Order :| o.serviceDate == date && Matches(o, TodayBoardFilter(now, LIVE_STATUSES)) {
      TodayIsAmongLiveDates(now, LIVE_STATUSES, o);
    }
  }

  datatype Stage = Upcoming | OnToday | OnYesterday | Nowhere

  function Position(s: Stage): nat { match s case Upcoming => 0 case OnToday => 1 case OnYesterday => 2 case Nowhere => 3 }

  /** The board that shows an open order, each board read with its own default statuses. */
  function StageOf(now: int, o: Order): Stage
    requires Clock(now)
  {
    if Matches(o, UpcomingBoardFilter(now, LIVE_STATUSES)) then Upcoming
    else if Matches(o, TodayBoardFilter(now, LIVE_STATUSES)) then OnToday
    else if Matches(o, YesterdayBoardFilter(now, ORDER_STATUSES)) then OnYesterday
    else Nowhere
  }

  lemma StageByDay(now: int, o: Order)
    requires Clock(now) && Dated(o) && o.status in LIVE_STATUSES
    ensures var ahead := DayOf(o.serviceDate) - IstDay(now);
            StageOf(now, o) ==
              if ahead > 0 then Upcoming
              else if ahead == 0 then OnToday
              else if ahead == -1 then (if StillDue(now, o) then OnToday else OnYesterday)
              else Nowhere
  {
    UpcomingMatches(now, LIVE_STATUSES, o);
    TodayMatches(now, LIVE_STATUSES, o);
    YesterdayMatches(now, ORDER_STATUSES, o);
    EveryStatusIsListed(o.status);
  }

  lemma TimeOfDay(t: int, u: int)
    requires t <= u
    ensures IstDay(t) <= IstDay(u)
    ensures IstDay(t) == IstDay(u) ==> IstHour(t) <= IstHour(u)
  {
    var a, b := t + IST_OFFSET, u + IST_OFFSET;
    assert a == a / DAY_MS * DAY_MS + a % DAY_MS && b == b / DAY_MS * DAY_MS + b % DAY_MS;
  }

  /**
   As the clock advances, an open order goes Upcoming, Today, Yesterday, nowhere: it never moves
   back, neither at midnight nor at the end of the rollover window nor as its train slips past.
   */
  lemma OrdersNeverMoveBack(t: int, u: int, o: Order)
    requires Clock(t) && Clock(u) && t <= u && Dated(o) && o.status in LIVE_STATUSES
    ensures Position(StageOf(t, o)) <= Position(StageOf(u, o))
  {
    hide StageOf, ParseDate, CivilOf, DateText, DayNumber, IstDay, IstHour;
    StageByDay(t, o);
    StageByDay(u, o);
    TimeOfDay(t, u);
  }
}
