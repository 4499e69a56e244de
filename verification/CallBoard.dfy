/** Runs by when the train will really arrive, and the sections the call board shows them in. */
module CallBoard {
  import opened Options
  import opened Sorting
  import Runs

  /** Still arriving, already arrived, unknown. */
  function UrgencyRank(a: Option<int>, now: int): int {
    if a.None? then 2 else if a.value <= now then 1 else 0
  }

  function CompareUrgency(a: Option<int>, b: Option<int>, now: int): int {
    var ra, rb := UrgencyRank(a, now), UrgencyRank(b, now);
    if ra != rb then ra - rb
    else if ra == 2 then 0
    else if ra == 0 then Runs.ByArrival(a, b)
    else Runs.ByArrival(b, a)
  }

  function ByUrgency<T>(arrival: T -> Option<int>, now: int): (T, T) -> int {
    (a: T, b: T) => CompareUrgency(arrival(a), arrival(b), now)
  }

  /** sortRunsByUrgency. */
  function SortRunsByUrgency<T>(runs: seq<T>, arrival: T -> Option<int>, now: int): seq<T> {
    SortBy(runs, ByUrgency(arrival, now))
  }

  datatype Bucket = Arrived | Hour | Soon | Later | Unknown

  const MINUTE := 60_000

  function ArrivalBucket(a: Option<int>, now: int): Bucket {
    if a.None? then Unknown
    else if a.value - now <= 0 then Arrived
    else if a.value - now <= 60 * MINUTE then Hour
    else if a.value - now <= 180 * MINUTE then Soon
    else Later
  }

  /** The sections from top to bottom. */
  const BUCKET_ORDER: seq<Bucket> := [Hour, Soon, Later, Arrived, Unknown]

  function Place(b: Bucket): (i: nat)
    ensures i < |BUCKET_ORDER| && BUCKET_ORDER[i] == b
  {
    match b case Hour => 0 case Soon => 1 case Later => 2 case Arrived => 3 case Unknown => 4
  }

  /** Each section holds what its heading says: within the hour, in one to three hours, later, already there. */
  lemma SectionsHoldWhatTheySay(a: Option<int>, now: int)
    ensures ArrivalBucket(a, now) == Unknown <==> a.None?
    ensures a.Some? ==>
              var hours := 60 * 60 * 1000;
              && (ArrivalBucket(a, now) == Arrived <==> a.value <= now)
              && (ArrivalBucket(a, now) == Hour <==> now < a.value <= now + hours)
              && (ArrivalBucket(a, now) == Soon <==> now + hours < a.value <= now + 3 * hours)
              && (ArrivalBucket(a, now) == Later <==> now + 3 * hours < a.value)
  {}

  lemma ByUrgencyIsWeakOrder<T(!new)>(arrival: T -> Option<int>, now: int)
    ensures WeakOrder(ByUrgency(arrival, now))
  {
    var cmp := ByUrgency(arrival, now);
    forall a, b
      ensures cmp(a, b) < 0 <==> cmp(b, a) > 0
    {}
    forall a, b, c | cmp(a, b) <= 0 && cmp(b, c) <= 0
      ensures cmp(a, c) <= 0
    {}
  }

  /** A run that may stand before another sits in the same section or one further up. */
  lemma UrgencyRespectsSections(a: Option<int>, b: Option<int>, now: int)
    requires CompareUrgency(a, b, now) <= 0
    ensures Place(ArrivalBucket(a, now)) <= Place(ArrivalBucket(b, now))
  {}

  /**
   The order sortRunsByUrgency yields is the display order of the sections: no run stands above one
   of an earlier section.
   */
  lemma SortedRunsFollowSections<T(!new)>(runs: seq<T>, arrival: T -> Option<int>, now: int, i: nat, j: nat)
    requires i < j < |runs|
    ensures var sorted := SortRunsByUrgency(runs, arrival, now);
            |sorted| == |runs| && multiset(sorted) == multiset(runs) &&
            Place(ArrivalBucket(arrival(sorted[i]), now)) <= Place(ArrivalBucket(arrival(sorted[j]), now))
  {
    var cmp := ByUrgency(arrival, now);
    var sorted := SortRunsByUrgency(runs, arrival, now);
    ByUrgencyIsWeakOrder(arrival, now);
    SortPermutes(runs, cmp);
    SortSorts(runs, cmp);
    assert cmp(sorted[i], sorted[j]) <= 0;
    UrgencyRespectsSections(arrival(sorted[i]), arrival(sorted[j]), now);
  }

  /** So every section is one unbroken stretch of the list. */
  lemma SectionsAreContiguous<T(!new)>(runs: seq<T>, arrival: T -> Option<int>, now: int, i: nat, j: nat, k: nat)
    requires i < j < k < |runs|
    ensures var sorted := SortRunsByUrgency(runs, arrival, now);
            |sorted| == |runs| &&
            (ArrivalBucket(arrival(sorted[i]), now) == ArrivalBucket(arrival(sorted[k]), now) ==>
               ArrivalBucket(arrival(sorted[j]), now) == ArrivalBucket(arrival(sorted[i]), now))
  {
    SortedRunsFollowSections(runs, arrival, now, i, j);
    SortedRunsFollowSections(runs, arrival, now, j, k);
  }

  /**
   Trains still to come stand above all others, soonest first; below them those that have come,
   latest first; unknown arrivals stand last.
   */
  lemma SectionsReadOutwardFromNow<T(!new)>(runs: seq<T>, arrival: T -> Option<int>, now: int, i: nat, j: nat)
    requires i < j < |runs|
    ensures var sorted := SortRunsByUrgency(runs, arrival, now);
            |sorted| == |runs| &&
            var a, b := arrival(sorted[i]), arrival(sorted[j]);
            && (a.None? ==> b.None?)
            && (b.Some? && b.value > now ==> now < a.value <= b.value)
            && (a.Some? && a.value <= now ==> b.None? || b.value <= a.value)
  {
    var cmp := ByUrgency(arrival, now);
    var sorted := SortRunsByUrgency(runs, arrival, now);
    ByUrgencyIsWeakOrder(arrival, now);
    SortPermutes(runs, cmp);
    SortSorts(runs, cmp);
    assert cmp(sorted[i], sorted[j]) <= 0;
  }
}
