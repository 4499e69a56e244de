/** The order state machine: which status may follow which, and who may make the step. */
module OrderStatus {
  datatype Role = Admin | StoreManager | DeliveryAgent | Telecaller

  datatype Status =
    | Enquiry
    | Quoted
    | Received
    | Accepted
    | KotPrinted
    | Prepared
    | Dispatched
    | Delivered
    | Failed
    | Cancelled
    | Lost
    | Misdelivery
    | MissedDelivery
    | Refunded
    | RatingOrder

  /** TRANSITIONS: the roles that may take an order from one status to the next; none when the table has no such entry. */
  function Transitions(from: Status, to: Status): set<Role> {
    match from
    case Enquiry =>
      (match to
       case Quoted => {Admin}
       case Lost => {Admin}
       case Misdelivery | MissedDelivery | Refunded => {Telecaller}
       case _ => {})
    case Quoted =>
      (match to
       case Received => {Admin}
       case Lost => {Admin}
       case Misdelivery | MissedDelivery | Refunded => {Telecaller}
       case _ => {})
    case Received =>
      (match to
       case Accepted => {Admin, StoreManager}
       case Cancelled => {Admin, Telecaller}
       case Misdelivery | MissedDelivery | Refunded => {Telecaller}
       case _ => {})
    case Accepted =>
      (match to
       case KotPrinted => {Admin, StoreManager}
       case Cancelled => {Admin, Telecaller}
       case Misdelivery | MissedDelivery | Refunded => {Telecaller}
       case _ => {})
    case KotPrinted =>
      (match to
       case Prepared => {Admin, StoreManager}
       case Cancelled => {Admin, Telecaller}
       case Misdelivery | MissedDelivery | Refunded => {Telecaller}
       case _ => {})
    case Prepared =>
      (match to
       case Dispatched => {DeliveryAgent, StoreManager, Admin}
       case Delivered | Failed => {Telecaller}
       case Cancelled => {Admin, Telecaller}
       case Misdelivery | MissedDelivery | Refunded => {Telecaller}
       case _ => {})
    case Dispatched =>
      (match to
       case Delivered | Failed => {DeliveryAgent, Telecaller}
       case Cancelled => {Admin, Telecaller}
       case Prepared => {DeliveryAgent}
       case Misdelivery | MissedDelivery | Refunded => {Telecaller}
       case _ => {})
    case _ => {}
  }

  predicate IsTerminal(s: Status) {
    s in [Delivered, Failed, Cancelled, Lost, Misdelivery, MissedDelivery, Refunded, RatingOrder]
  }

  predicate IsTransitionAllowed(from: Status, to: Status, role: Role) {
    role in Transitions(from, to)
  }

  predicate CanRequestCancellation(role: Role, s: Status) {
    role == StoreManager && IsTransitionAllowed(s, Cancelled, Telecaller)
  }

  predicate CanDecideCancellation(role: Role) { role == Telecaller || role == Admin }

  // --- the return to origin (rto.ts) -----------------------------------------------------------

  predicate OpensReturn(from: Status, to: Status) {
    from == Dispatched && to in [Cancelled, Failed, MissedDelivery]
  }

  // --- the table, edge by edge -----------------------------------------------------------------

  /** The edges of the table as one relation. */
  predicate Edge(from: Status, to: Status, role: Role) {
    match to
    case Quoted => from == Enquiry && role == Admin
    case Lost => (from == Enquiry || from == Quoted) && role == Admin
    case Received => from == Quoted && role == Admin
    case Accepted => from == Received && (role == Admin || role == StoreManager)
    case KotPrinted => from == Accepted && (role == Admin || role == StoreManager)
    case Prepared => (from == KotPrinted && (role == Admin || role == StoreManager)) || (from == Dispatched && role == DeliveryAgent)
    case Dispatched => from == Prepared && role != Telecaller
    case Delivered | Failed => (from == Prepared && role == Telecaller) || (from == Dispatched && (role == DeliveryAgent || role == Telecaller))
    case Cancelled => Pipeline(from) && (role == Admin || role == Telecaller)
    case Misdelivery | MissedDelivery | Refunded => !IsTerminal(from) && role == Telecaller
    case Enquiry | RatingOrder => false
  }

  /** The shared pipeline, from which an order can be cancelled. */
  predicate Pipeline(s: Status) { s in [Received, Accepted, KotPrinted, Prepared, Dispatched] }

  lemma AllowedIsEdge(from: Status, to: Status, role: Role)
    ensures IsTransitionAllowed(from, to, role) <==> Edge(from, to, role)
  {}

  // --- runs ------------------------------------------------------------------------------------

  datatype Move = Move(to: Status, role: Role)

  /** Every move is allowed from where the one before it ended. */
  predicate Legal(from: Status, moves: seq<Move>)
    decreases |moves|
  {
    moves != [] ==> IsTransitionAllowed(from, moves[0].to, moves[0].role) && Legal(moves[0].to, moves[1..])
  }

  function Last(from: Status, moves: seq<Move>): Status {
    if moves == [] then from else moves[|moves| - 1].to
  }

  /** Where the order stood before the move `i`. */
  function Before(from: Status, moves: seq<Move>, i: nat): Status
    requires i < |moves|
  {
    if i == 0 then from else moves[i - 1].to
  }

  lemma {:induction false} LegalAt(from: Status, moves: seq<Move>, i: nat)
    requires Legal(from, moves) && i < |moves|
    ensures Edge(Before(from, moves, i), moves[i].to, moves[i].role)
    decreases |moves|
  {
    if i == 0 {
      AllowedIsEdge(from, moves[0].to, moves[0].role);
    } else {
      LegalAt(moves[0].to, moves[1..], i - 1);
    }
  }

  lemma LegalEdges(from: Status, moves: seq<Move>)
    requires Legal(from, moves)
    ensures forall i :: 0 <= i < |moves| ==> Edge(Before(from, moves, i), moves[i].to, moves[i].role)
  {
    forall i | 0 <= i < |moves|
      ensures Edge(Before(from, moves, i), moves[i].to, moves[i].role)
    {
      LegalAt(from, moves, i);
    }
  }

  /** No step leaves a terminal status, and none enters the head of the bulk pipeline or the decoy flag. */
  lemma TerminalIsTheEnd(from: Status, moves: seq<Move>, i: nat)
    requires Legal(from, moves) && i < |moves|
    ensures !IsTerminal(Before(from, moves, i))
    ensures moves[i].to != RatingOrder && moves[i].to != Enquiry
    ensures IsTerminal(moves[i].to) ==> i == |moves| - 1
  {
    LegalAt(from, moves, i);
    if i + 1 < |moves| { LegalAt(from, moves, i + 1); }
  }

  // --- delivered orders ------------------------------------------------------------------------

  /** The status after the move `i` of a delivered order, the last one apart. */
  function OnTheWay(i: nat): Status {
    if i == 0 then Accepted else if i == 1 then KotPrinted else if i % 2 == 0 then Prepared else Dispatched
  }

  lemma {:induction false} FollowsTheWay(moves: seq<Move>, i: nat)
    requires Legal(Received, moves) && i + 1 < |moves|
    ensures moves[i].to == OnTheWay(i)
    decreases i
  {
    TerminalIsTheEnd(Received, moves, i);
    LegalAt(Received, moves, i);
    if i > 0 { FollowsTheWay(moves, i - 1); }
  }

  /**
   Every run from RECEIVED to DELIVERED, however many put-backs it has, is accepted, printed and
   prepared first, then goes back and forth between the rider and the counter until it ends; and
   the role that closed it is never the one that accepted it.
   */
  lemma {:induction false} DeliveredRunsKeepThePipeline(moves: seq<Move>)
    requires Legal(Received, moves) && Last(Received, moves) == Delivered
    ensures |moves| >= 4
    ensures forall i: nat :: i + 1 < |moves| ==> moves[i].to == OnTheWay(i)
    ensures moves[0].role != moves[|moves| - 1].role
  {
    forall i: nat | i + 1 < |moves|
      ensures moves[i].to == OnTheWay(i)
    {
      FollowsTheWay(moves, i);
    }
    LegalAt(Received, moves, |moves| - 1);
    LegalAt(Received, moves, 0);
  }

  // --- how long a run can be -------------------------------------------------------------------

  /** How far down the pipeline a status is; the put-back is the one step that lowers it. */
  function Rank(s: Status): nat {
    match s
    case Enquiry => 0
    case Quoted => 1
    case Received => 2
    case Accepted => 3
    case KotPrinted => 4
    case Prepared => 5
    case Dispatched => 6
    case _ => 7
  }

  predicate IsPutBack(from: Status, to: Status) { from == Dispatched && to == Prepared }

  function PutBacks(from: Status, moves: seq<Move>): nat
    decreases |moves|
  {
    if moves == [] then 0
    else (if IsPutBack(from, moves[0].to) then 1 else 0) + PutBacks(moves[0].to, moves[1..])
  }

  lemma EdgeRaisesRank(from: Status, to: Status, role: Role)
    requires IsTransitionAllowed(from, to, role)
    ensures if IsPutBack(from, to) then Rank(to) == Rank(from) - 1 else Rank(to) > Rank(from)
  {}

  /** A run with k put-backs has at most 2k steps more than the pipeline has left. */
  lemma {:induction false} RunLengthBound(from: Status, moves: seq<Move>)
    requires Legal(from, moves)
    ensures |moves| <= Rank(Last(from, moves)) - Rank(from) + 2 * PutBacks(from, moves)
    ensures |moves| <= 7 + 2 * PutBacks(from, moves)
    decreases |moves|
  {
    if moves != [] {
      EdgeRaisesRank(from, moves[0].to, moves[0].role);
      RunLengthBound(moves[0].to, moves[1..]);
    }
  }

  function BackAndForth(k: nat): seq<Move> {
    if k == 0 then [Move(Dispatched, DeliveryAgent), Move(Delivered, DeliveryAgent)]
    else [Move(Dispatched, DeliveryAgent), Move(Prepared, DeliveryAgent)] + BackAndForth(k - 1)
  }

  lemma {:induction false} BackAndForthIsLegal(k: nat)
    ensures Legal(Prepared, BackAndForth(k)) && PutBacks(Prepared, BackAndForth(k)) == k && |BackAndForth(k)| == 2 + 2 * k
    decreases k
  {
    var moves := BackAndForth(k);
    if k == 0 {
      assert moves[1..] == [Move(Delivered, DeliveryAgent)];
      assert moves[1..][1..] == [];
      assert PutBacks(Dispatched, moves[1..]) == 0;
    } else {
      BackAndForthIsLegal(k - 1);
      assert moves[1..] == [Move(Prepared, DeliveryAgent)] + BackAndForth(k - 1);
      assert moves[1..][1..] == BackAndForth(k - 1);
    }
  }

  lemma {:induction false} Prepend(from: Status, move: Move, moves: seq<Move>)
    requires IsTransitionAllowed(from, move.to, move.role) && Legal(move.to, moves)
    ensures Legal(from, [move] + moves)
    ensures PutBacks(from, [move] + moves) == (if IsPutBack(from, move.to) then 1 else 0) + PutBacks(move.to, moves)
  {
    assert ([move] + moves)[1..] == moves;
  }

  /** The bound is met: for every number of put-backs some bulk order takes the full length. */
  lemma {:induction false} RunLengthBoundIsMet(k: nat) returns (moves: seq<Move>)
    ensures Legal(Enquiry, moves) && PutBacks(Enquiry, moves) == k && |moves| == 7 + 2 * k
  {
    BackAndForthIsLegal(k);
    moves := BackAndForth(k);
    Prepend(KotPrinted, Move(Prepared, StoreManager), moves);
    moves := [Move(Prepared, StoreManager)] + moves;
    Prepend(Accepted, Move(KotPrinted, StoreManager), moves);
    moves := [Move(KotPrinted, StoreManager)] + moves;
    Prepend(Received, Move(Accepted, StoreManager), moves);
    moves := [Move(Accepted, StoreManager)] + moves;
    Prepend(Quoted, Move(Received, Admin), moves);
    moves := [Move(Received, Admin)] + moves;
    Prepend(Enquiry, Move(Quoted, Admin), moves);
    moves := [Move(Quoted, Admin)] + moves;
  }

  // --- cancellation requests and returns -------------------------------------------------------

  lemma {:induction false} PipelineRunsStay(from: Status, moves: seq<Move>)
    requires Legal(from, moves) && Pipeline(from)
    ensures Pipeline(Last(from, moves)) || IsTerminal(Last(from, moves))
    decreases |moves|
  {
    if moves != [] {
      AllowedIsEdge(from, moves[0].to, moves[0].role);
      if IsTerminal(moves[0].to) {
        TerminalIsTheEnd(from, moves, 0);
      } else {
        PipelineRunsStay(moves[0].to, moves[1..]);
      }
    }
  }

  /**
   A cancellation request stays answerable: wherever the order has got to since it was asked for,
   short of an end, every role that may decide it may also cancel.
   */
  lemma {:induction false} RequestStaysAnswerable(from: Status, asker: Role, moves: seq<Move>, decider: Role)
    requires CanRequestCancellation(asker, from) && Legal(from, moves)
    ensures IsTransitionAllowed(Last(from, moves), Cancelled, decider) <==>
            CanDecideCancellation(decider) && !IsTerminal(Last(from, moves))
  {
    AllowedIsEdge(from, Cancelled, Telecaller);
    PipelineRunsStay(from, moves);
    AllowedIsEdge(Last(from, moves), Cancelled, decider);
  }

  /** Only a store manager asks, and only along the shared pipeline. */
  lemma AskingExactly(asker: Role, s: Status)
    ensures CanRequestCancellation(asker, s) <==> asker == StoreManager && Pipeline(s)
  {
    AllowedIsEdge(s, Cancelled, Telecaller);
  }

  /** A step that ends an order in the rider's hands opens a return unless the food has reached somebody
      or been paid back. */
  lemma ReturnOpensExactly(from: Status, to: Status, role: Role)
    requires IsTransitionAllowed(from, to, role)
    ensures OpensReturn(from, to) <==>
            from == Dispatched && IsTerminal(to) && to != Delivered && to != Misdelivery && to != Refunded
  {
    AllowedIsEdge(from, to, role);
  }

  /** A run opens at most one return: only its last step can, and only from the rider's hands. */
  lemma {:induction false} ReturnOpensOnlyAtTheEnd(from: Status, moves: seq<Move>, i: nat)
    requires Legal(from, moves) && i < |moves|
    ensures OpensReturn(Before(from, moves, i), moves[i].to) ==>
              i == |moves| - 1 && IsTerminal(Last(from, moves)) && (i == 0 || moves[i - 1].to == Dispatched)
  {
    TerminalIsTheEnd(from, moves, i);
  }
}
