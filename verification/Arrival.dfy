/** Which arrival an order record shows, and which booking a train is looked up against. */
module Arrival {
  import opened Options
  import opened Sorting
  import opened ServiceDates
  import Calendar
  import OrderStatus

  const MOVED_AFTER_MINUTES := 5
  const SAME_TRAIN_WITHIN_MS := 6 * 3_600_000
  const GONE_AFTER_MS := 12 * 3_600_000

  // --- the record ------------------------------------------------------------------------------

  datatype Kind = Expected | Arrived | Booked | Delivered
  datatype Certainty = Fact | Estimate | Unverified | Context
  datatype Direction = Later | Earlier

  datatype Record = Record(
    kind: Kind,
    time: Option<int>,
    certainty: Certainty,
    booked: Option<int>,
    minutesVsBooked: Option<int>,
    direction: Option<Direction>,
    checkedMinutesAgo: Option<int>,
    pastDue: bool)

  /** An order's status is one of the fixed ones, or (None) a text an admin typed. */
  datatype Order = Order(
    status: Option<OrderStatus.Status>,
    scheduledArrival: Option<int>,
    bookedArrival: Option<int>,
    deliveredAt: Option<int>)

  datatype Timing = Timing(arrived: bool, live: bool, stale: bool, effectiveArrival: Option<int>, ageMinutes: Option<int>)

  predicate Open(o: Order) { o.status.Some? && !OrderStatus.IsTerminal(o.status.value) }

  /** Math.round of a number of milliseconds in minutes: halves round up. */
  function RoundMinutes(ms: int): int { (ms + MINUTE_MS / 2) / MINUTE_MS }

  function Abs(n: int): int { if n < 0 then -n else n }

  function WithDeviation(r: Record): Record {
    if r.time.None? || r.booked.None? then r.(minutesVsBooked := None, direction := None)
    else
      var minutes := RoundMinutes(r.time.value - r.booked.value);
      r.(minutesVsBooked := Some(minutes),
         direction := if Abs(minutes) < MOVED_AFTER_MINUTES then None else if minutes > 0 then Some(Later) else Some(Earlier))
  }

  function ArrivalRecord(o: Order, timing: Option<Timing>, now: int): Record {
    var scheduled := o.scheduledArrival;
    var booked := if o.bookedArrival.Some? then o.bookedArrival else scheduled;
    if o.status == Some(OrderStatus.Delivered) && o.deliveredAt.Some? then
      WithDeviation(Record(Delivered, o.deliveredAt, Fact, booked, None, None, None, false))
    else if !Open(o) then
      Record(Booked, scheduled, Context, booked, None, None, None, false)
    else if timing.Some? && timing.value.arrived && timing.value.effectiveArrival.Some? then
      WithDeviation(Record(Arrived, timing.value.effectiveArrival, Fact, booked, None, None, timing.value.ageMinutes, false))
    else if timing.Some? && timing.value.live && !timing.value.stale && timing.value.effectiveArrival.Some? then
      WithDeviation(Record(Expected, timing.value.effectiveArrival, Estimate, booked, None, None, timing.value.ageMinutes,
                           timing.value.effectiveArrival.value < now))
    else
      Record(Booked, scheduled, Unverified, booked, None, None,
             if timing.Some? then timing.value.ageMinutes else None, false)
  }

  /** Once an order is closed its record depends on no live reading and no clock. */
  lemma ClosedRecordIsFrozen(o: Order, a: Option<Timing>, b: Option<Timing>, t: int, u: int)
    ensures !Open(o) ==> ArrivalRecord(o, a, t) == ArrivalRecord(o, b, u)
    ensures ArrivalRecord(o, a, t).kind.Expected? || ArrivalRecord(o, a, t).kind.Arrived? ==> Open(o)
  {}

  predicate HasArrived(timing: Option<Timing>) {
    timing.Some? && timing.value.arrived && timing.value.effectiveArrival.Some?
  }

  predicate HasEstimate(timing: Option<Timing>) {
    timing.Some? && timing.value.live && !timing.value.stale && timing.value.effectiveArrival.Some?
  }

  /**
   One rule per phase.  A delivered order shows when it was delivered, as a fact; any other closed one
   the booked time, as context.  An open one shows the railway's arrival, as a fact, once the train has
   come; else a fresh reading, as an estimate, which may be past due; else the booked time, unverified.
   */
  lemma RecordFollowsThePhase(o: Order, timing: Option<Timing>, now: int)
    ensures var r := ArrivalRecord(o, timing, now);
            && (r.kind.Delivered? <==> o.status == Some(OrderStatus.Delivered) && o.deliveredAt.Some?)
            && (r.kind.Arrived? <==> Open(o) && HasArrived(timing))
            && (r.kind.Expected? <==> Open(o) && !HasArrived(timing) && HasEstimate(timing))
            && r.time == (match r.kind
                          case Delivered => o.deliveredAt
                          case Booked => o.scheduledArrival
                          case _ => timing.value.effectiveArrival)
            && r.certainty == (match r.kind
                               case Delivered | Arrived => Fact
                               case Expected => Estimate
                               case Booked => if Open(o) then Unverified else Context)
            && (r.pastDue <==> r.kind.Expected? && r.time.value < now)
            && r.checkedMinutesAgo == (if Open(o) && timing.Some? then timing.value.ageMinutes else None)
            && (r.minutesVsBooked.Some? <==> !r.kind.Booked? && r.time.Some? && r.booked.Some?)
  {}

  /** A reschedule moves the time that is shown, and never the booking it is measured against. */
  lemma RescheduleKeepsTheBooking(o: Order, moved: int, timing: Option<Timing>, now: int)
    ensures var booking := if o.bookedArrival.Some? then o.bookedArrival else o.scheduledArrival;
            var after := ArrivalRecord(o.(scheduledArrival := Some(moved), bookedArrival := booking), timing, now);
            && ArrivalRecord(o, timing, now).booked == booking
            && (booking.Some? ==>
                  && after.booked == booking
                  && (after.kind.Booked? ==> after.time == Some(moved))
                  && (!after.kind.Booked? ==> after == ArrivalRecord(o, timing, now)))
  {}

  /** A move counts from four and a half minutes: at exactly that, later counts and earlier does not. */
  lemma MoveShowsExactly(o: Order, timing: Option<Timing>, now: int)
    ensures var r := ArrivalRecord(o, timing, now);
            r.minutesVsBooked.Some? ==>
              var moved := r.time.value - r.booked.value;
              && r.time.Some? && r.booked.Some?
              && (r.direction == Some(Later) <==> moved >= 270_000)
              && (r.direction == Some(Earlier) <==> moved < -270_000)
  {}

  // --- moving a booking onto the railway's day -------------------------------------------------

  predicate Datable(t: int) { Writeable(IstDay(t)) }

  function RescheduledArrival(booked: Option<int>, timetable: Option<int>): Option<int>
    requires booked.Some? ==> Datable(booked.value)
    requires timetable.Some? ==> Datable(timetable.value)
  {
    if booked.None? || timetable.None? then None
    else if Abs(timetable.value - booked.value) >= SAME_TRAIN_WITHIN_MS then None
    else if TodayIST(booked.value) == TodayIST(timetable.value) then None
    else timetable
  }

  lemma SameDateSameDay(t: int, u: int)
    requires Datable(t) && Datable(u)
    ensures TodayIST(t) == TodayIST(u) <==> IstDay(t) == IstDay(u)
  {
    hide DateText, Calendar.CivilOf;
    TodayReads(t);
    TodayReads(u);
  }

  /**
   A booking is moved exactly when the railway has the train within six hours but on another day;
   it then lands on the adjacent day, and moving it again does nothing.
   */
  lemma ReschedulingMovesOneDay(booked: int, timetable: int)
    requires Datable(booked) && Datable(timetable)
    ensures var moved := RescheduledArrival(Some(booked), Some(timetable));
            && (moved.Some? <==> Abs(timetable - booked) < SAME_TRAIN_WITHIN_MS && IstDay(timetable) != IstDay(booked))
            && (moved.Some? ==>
                  && moved == Some(timetable)
                  && (IstDay(timetable) == IstDay(booked) + 1 || IstDay(timetable) == IstDay(booked) - 1)
                  && RescheduledArrival(moved, Some(timetable)) == None)
  {
    hide TodayIST, IstDay, DateText, Calendar.CivilOf;
    SameDateSameDay(booked, timetable);
    if Abs(timetable - booked) < SAME_TRAIN_WITHIN_MS { DaysApart(booked, timetable); }
  }

  lemma DaysApart(t: int, u: int)
    requires Abs(u - t) < SAME_TRAIN_WITHIN_MS
    ensures IstDay(t) - 1 <= IstDay(u) <= IstDay(t) + 1
  {
    var a, b := t + IST_OFFSET, u + IST_OFFSET;
    assert a == a / DAY_MS * DAY_MS + a % DAY_MS && b == b / DAY_MS * DAY_MS + b % DAY_MS;
  }

  // --- the booking a run is looked up against --------------------------------------------------

  function Known(bookings: seq<Option<int>>): seq<int> {
    if bookings == [] then []
    else (if bookings[0].Some? then [bookings[0].value] else []) + Known(bookings[1..])
  }

  /** `find`: the first not long gone. */
  function FirstNotGone(sorted: seq<int>, now: int): Option<int> {
    if sorted == [] then None
    else if sorted[0] >= now - GONE_AFTER_MS then Some(sorted[0])
    else FirstNotGone(sorted[1..], now)
  }

  function RunBooking(bookings: seq<Option<int>>, now: int): Option<int> {
    var known := SortBy(Known(bookings), ByTime);
    var found := FirstNotGone(known, now);
    if found.Some? then found else if known == [] then None else Some(known[0])
  }

  lemma {:induction false} KnownMembers(bookings: seq<Option<int>>, t: int)
    ensures t in Known(bookings) <==> Some(t) in bookings
    decreases |bookings|
  {
    if bookings != [] {
      KnownMembers(bookings[1..], t);
      assert bookings == [bookings[0]] + bookings[1..];
    }
  }

  lemma {:induction false} FirstNotGoneIsLeast(sorted: seq<int>, now: int)
    requires SortedBy(sorted, ByTime)
    ensures match FirstNotGone(sorted, now)
            case None => forall t :: t in sorted ==> t < now - GONE_AFTER_MS
            case Some(b) => b in sorted && b >= now - GONE_AFTER_MS
                            && forall t :: t in sorted && t >= now - GONE_AFTER_MS ==> b <= t
    decreases |sorted|
  {
    if sorted != [] {
      assert sorted == [sorted[0]] + sorted[1..];
      assert forall i :: 0 < i < |sorted| ==> ByTime(sorted[0], sorted[i]) <= 0;
      FirstNotGoneIsLeast(sorted[1..], now);
    }
  }

  predicate Gone(t: int, now: int) { t < now - GONE_AFTER_MS }

  /** `b` is the earliest booking not long gone, or the earliest of all when every one is. */
  ghost predicate IsRunBooking(bookings: seq<Option<int>>, now: int, b: int) {
    && Some(b) in bookings
    && (forall t :: Some(t) in bookings && Gone(t, now) == Gone(b, now) ==> b <= t)
    && (Gone(b, now) ==> forall t :: Some(t) in bookings ==> Gone(t, now))
  }

  lemma RunBookingIsEarliest(bookings: seq<Option<int>>, now: int)
    ensures match RunBooking(bookings, now)
            case None => forall t :: Some(t) !in bookings
            case Some(b) => IsRunBooking(bookings, now, b)
  {
    var known := Known(bookings);
    var sorted := SortBy(known, ByTime);
    SortPermutes(known, ByTime);
    SortSorts(known, ByTime);
    FirstNotGoneIsLeast(sorted, now);
    forall t
      ensures t in sorted <==> Some(t) in bookings
    {
      KnownMembers(bookings, t);
    }
    forall t | t in sorted
      ensures sorted[0] <= t
    {
      var i :| 0 <= i < |sorted| && sorted[i] == t;
      if i > 0 { assert ByTime(sorted[0], sorted[i]) <= 0; }
    }
    if RunBooking(bookings, now).Some? {
      assert RunBooking(bookings, now).value in sorted;
    }
  }

  /** The answer depends on which bookings there are, not on their order or how often each occurs. */
  lemma RunBookingIgnoresOrder(a: seq<Option<int>>, b: seq<Option<int>>, now: int)
    requires forall t :: t in a <==> t in b
    ensures RunBooking(a, now) == RunBooking(b, now)
  {
    RunBookingIsEarliest(a, now);
    RunBookingIsEarliest(b, now);
    var x, y := RunBooking(a, now), RunBooking(b, now);
    if x.Some? { assert Some(x.value) in b; }
    if y.Some? { assert Some(y.value) in a; }
  }
}
