/** The rider app's stored write queue, and one flush of it against an adversarial network. */
module MutationQueue {
  import opened Options
  import Places

  datatype Kind = DispatchRun | DispatchOrder | ReturnOrder | DeliverOrder | FailOrder | CorrectOrder

  datatype Mutation = Mutation(clientId: string, kind: Kind, payload: string)

  datatype ItemResult = ItemResult(clientId: string, applied: bool, retryable: Option<bool>, error: Option<string>)

  /** How one request ends: the server's answers, no signal, or an error status. */
  datatype Reply = Answered(results: seq<ItemResult>) | NoSignal | Refused(status: int)

  /** One request: its reply, and what the rider queued while it was out. */
  datatype Exchange = Exchange(reply: Reply, arrivals: seq<Mutation>)

  datatype Rejected = Rejected(clientId: string, kind: Kind, error: string)

  datatype FlushResult = FlushResult(synced: nat, failed: nat, remaining: nat, offline: bool, rejected: seq<Rejected>)

  datatype Outcome = Returned(result: FlushResult) | Threw(status: int)

  const MAX_BATCH := 100

  // --- what the answers settle -----------------------------------------------------------------

  /** The server has settled this one: it is dropped from the queue. */
  predicate Settles(r: ItemResult) { r.applied || r.retryable == Some(false) }

  /** Settled against the rider, who has to hear about it. */
  predicate Rejects(r: ItemResult) { !r.applied && r.retryable == Some(false) }

  function SettledIds(results: seq<ItemResult>): set<string> {
    set r | r in results && Settles(r) :: r.clientId
  }

  function AppliedIds(results: seq<ItemResult>): set<string> {
    set r | r in results && r.applied :: r.clientId
  }

  function CountApplied(results: seq<ItemResult>): nat {
    if results == [] then 0
    else CountApplied(results[..|results| - 1]) + (if results[|results| - 1].applied then 1 else 0)
  }

  function KindOf(queue: seq<Mutation>, clientId: string): Kind {
    if queue == [] then DispatchOrder
    else if queue[|queue| - 1].clientId == clientId then queue[|queue| - 1].kind
    else KindOf(queue[..|queue| - 1], clientId)
  }

  function Report(queue: seq<Mutation>, r: ItemResult): Rejected {
    Rejected(r.clientId, KindOf(queue, r.clientId), if r.error.Some? then r.error.value else "Refused")
  }

  function Reports(queue: seq<Mutation>, results: seq<ItemResult>): seq<Rejected> {
    if results == [] then []
    else
      Reports(queue, results[..|results| - 1])
      + (if Rejects(results[|results| - 1]) then [Report(queue, results[|results| - 1])] else [])
  }

  /** The queue without the ids in `drop`, in order. */
  function Keep(items: seq<Mutation>, drop: set<string>): seq<Mutation> {
    if items == [] then []
    else
      Keep(items[..|items| - 1], drop)
      + (if items[|items| - 1].clientId in drop then [] else [items[|items| - 1]])
  }

  // --- the rounds of one flush -----------------------------------------------------------------

  function BatchCount(queue: seq<Mutation>): nat { (|queue| + MAX_BATCH - 1) / MAX_BATCH }

  function Min(a: int, b: int): int { if a <= b then a else b }

  function Batch(queue: seq<Mutation>, k: nat): seq<Mutation>
    requires k < BatchCount(queue)
  {
    queue[k * MAX_BATCH..Min((k + 1) * MAX_BATCH, |queue|)]
  }

  /** The first `k` requests were all answered. */
  predicate AllAnswered(net: nat -> Exchange, k: nat) {
    forall i: nat :: i < k ==> net(i).reply.Answered?
  }

  /** The stored queue after the first `k` answers have been worked through. */
  function Stored(stored: seq<Mutation>, net: nat -> Exchange, k: nat): seq<Mutation>
    requires AllAnswered(net, k)
  {
    if k == 0 then stored
    else Keep(Stored(stored, net, k - 1) + net(k - 1).arrivals, SettledIds(net(k - 1).reply.results))
  }

  /** Every answer of the first `k` rounds, in order. */
  function Answers(net: nat -> Exchange, k: nat): seq<ItemResult>
    requires AllAnswered(net, k)
  {
    if k == 0 then [] else Answers(net, k - 1) + net(k - 1).reply.results
  }

  function Arrivals(net: nat -> Exchange, k: nat): seq<Mutation> {
    if k == 0 then [] else Arrivals(net, k - 1) + net(k - 1).arrivals
  }

  /** What a flush returns when it ends after `k` answered rounds. */
  function Summary(queue: seq<Mutation>, net: nat -> Exchange, k: nat, remaining: nat, offline: bool): FlushResult
    requires AllAnswered(net, k)
  {
    var answers := Answers(net, k);
    CountAppliedAtMost(answers);
    FlushResult(CountApplied(answers), |answers| - CountApplied(answers), remaining, offline, Reports(queue, answers))
  }

  /**
   A flush of `queue` that ended after `rounds` answers, with `left` stored: every batch was answered,
   or the next request was not, and then what was queued while it was out is still there.
   */
  predicate FlushEnds(queue: seq<Mutation>, net: nat -> Exchange, rounds: nat, left: seq<Mutation>, outcome: Outcome) {
    && rounds <= BatchCount(queue) && AllAnswered(net, rounds)
    && (if rounds == BatchCount(queue) then
          && left == Stored(queue, net, rounds)
          && outcome == Returned(Summary(queue, net, rounds, |left|, false))
        else
          && left == Stored(queue, net, rounds) + net(rounds).arrivals
          && (match net(rounds).reply
              case Answered(_) => false
              case NoSignal => outcome == Returned(Summary(queue, net, rounds, |left|, true))
              case Refused(status) => outcome == Threw(status)))
  }

  lemma {:induction false} CountAppliedAtMost(results: seq<ItemResult>)
    ensures CountApplied(results) <= |results|
    decreases |results|
  {
    if results != [] { CountAppliedAtMost(results[..|results| - 1]); }
  }

  lemma {:induction false} CountAppliedAppend(a: seq<ItemResult>, b: seq<ItemResult>)
    ensures CountApplied(a + b) == CountApplied(a) + CountApplied(b)
    decreases |b|
  {
    if b == [] {
      assert a + b == a;
    } else {
      assert (a + b)[..|a + b| - 1] == a + b[..|b| - 1];
      CountAppliedAppend(a, b[..|b| - 1]);
    }
  }

  lemma {:induction false} ReportsAppend(queue: seq<Mutation>, a: seq<ItemResult>, b: seq<ItemResult>)
    ensures Reports(queue, a + b) == Reports(queue, a) + Reports(queue, b)
    decreases |b|
  {
    if b == [] {
      assert a + b == a;
    } else {
      assert (a + b)[..|a + b| - 1] == a + b[..|b| - 1];
      ReportsAppend(queue, a, b[..|b| - 1]);
    }
  }

  lemma NothingAnswered(queue: seq<Mutation>, net: nat -> Exchange)
    ensures Stored(queue, net, 0) == queue && Answers(net, 0) == []
    ensures CountApplied([]) == 0 && Reports(queue, []) == []
  {}

  lemma OneMoreAnswered(queue: seq<Mutation>, net: nat -> Exchange, k: nat)
    requires AllAnswered(net, k) && net(k).reply.Answered?
    ensures AllAnswered(net, k + 1)
    ensures var results := net(k).reply.results;
            && Stored(queue, net, k + 1) == Keep(Stored(queue, net, k) + net(k).arrivals, SettledIds(results))
            && |Answers(net, k + 1)| == |Answers(net, k)| + |results|
            && CountApplied(Answers(net, k + 1)) == CountApplied(Answers(net, k)) + CountApplied(results)
            && Reports(queue, Answers(net, k + 1)) == Reports(queue, Answers(net, k)) + Reports(queue, results)
  {
    CountAppliedAppend(Answers(net, k), net(k).reply.results);
    ReportsAppend(queue, Answers(net, k), net(k).reply.results);
  }

  // --- storage.ts and api.ts -------------------------------------------------------------------

  /** The requests a flush makes: the batches in order, the one that ended it included. */
  ghost predicate SendsBatches(queue: seq<Mutation>, rounds: nat, sent: seq<seq<Mutation>>) {
    && rounds <= BatchCount(queue)
    && |sent| == (if rounds == BatchCount(queue) then rounds else rounds + 1)
    && forall j: nat :: j < |sent| ==> sent[j] == Batch(queue, j)
  }

  class Store {
    /** The value under the queue's key. */
    var items: seq<Mutation>

    constructor ()
      ensures items == []
    {
      items := [];
    }

    method Enqueue(m: Mutation)
      modifies this
      ensures items == old(items) + [m]
    {
      var q := items;
      q := q + [m];
      items := q;
    }

    method RemoveFromQueue(clientIds: seq<string>)
      modifies this
      ensures items == Keep(old(items), set id | id in clientIds)
    {
      if |clientIds| == 0 {
        KeepAll(items);
        assert (set id | id in clientIds) == {};
        return;
      }
      var drop := set id | id in clientIds;
      items := Keep(items, drop);
    }

    /**
     Send the queue as it is now, batch by batch; drop after each answer what it settled.  Ends at
     the first request that is not answered.
     */
    method FlushQueue(net: nat -> Exchange) returns (outcome: Outcome, ghost rounds: nat, ghost sent: seq<seq<Mutation>>)
      modifies this
      ensures FlushEnds(old(items), net, rounds, items, outcome)
      ensures SendsBatches(old(items), rounds, sent)
    {
      hide Stored, Answers, Reports, CountApplied, Keep;
      var queue := items;
      sent := [];
      NothingAnswered(queue, net);
      if |queue| == 0 {
        return Returned(FlushResult(0, 0, 0, false, [])), 0, [];
      }
      var synced, failed: nat, rejected := 0, 0, [];
      var i, k := 0, 0;
      while i < |queue|
        invariant i == k * MAX_BATCH && k <= BatchCount(queue)
        invariant AllAnswered(net, k)
        invariant |sent| == k && forall j: nat :: j < k ==> sent[j] == Batch(queue, j)
        invariant items == Stored(queue, net, k)
        invariant synced == CountApplied(Answers(net, k)) && synced + failed == |Answers(net, k)|
        invariant rejected == Reports(queue, Answers(net, k))
      {
        assert k < BatchCount(queue);
        var batch := queue[i..Min(i + MAX_BATCH, |queue|)];
        sent := sent + [batch];
        var exchange := net(k);
        items := items + exchange.arrivals;
        match exchange.reply {
          case NoSignal =>
            return Returned(FlushResult(synced, failed, |items|, true, rejected)), k, sent;
          case Refused(status) =>
            return Threw(status), k, sent;
          case Answered(results) =>
            var settled := SettledList(results);
            RemoveFromQueue(settled);
            OneMoreAnswered(queue, net, k);
            CountAppliedAtMost(results);
            synced := synced + CountApplied(results);
            failed := failed + (|results| - CountApplied(results));
            var news := NewlyRejected(queue, results);
            rejected := rejected + news;
        }
        i, k := i + MAX_BATCH, k + 1;
      }
      outcome := Returned(FlushResult(synced, failed, |items|, false, rejected));
      rounds := k;
    }

    /** One mutation joins the queue, and the whole queue is flushed. */
    method QueueAndFlush(m: Mutation, net: nat -> Exchange)
      returns (outcome: Outcome, ghost rounds: nat, ghost sent: seq<seq<Mutation>>)
      modifies this
      ensures FlushEnds(old(items) + [m], net, rounds, items, outcome)
      ensures SendsBatches(old(items) + [m], rounds, sent)
    {
      Enqueue(m);
      outcome, rounds, sent := FlushQueue(net);
    }

    /** Several mutations join the queue one by one, and one flush follows. */
    method QueueManyAndFlush(ms: seq<Mutation>, net: nat -> Exchange)
      returns (outcome: Outcome, ghost rounds: nat, ghost sent: seq<seq<Mutation>>)
      modifies this
      ensures FlushEnds(old(items) + ms, net, rounds, items, outcome)
      ensures SendsBatches(old(items) + ms, rounds, sent)
    {
      for i := 0 to |ms|
        invariant items == old(items) + ms[..i]
      {
        Enqueue(ms[i]);
      }
      assert ms[..|ms|] == ms;
      outcome, rounds, sent := FlushQueue(net);
    }
  }

  /** The ids of the settled answers. */
  function SettledList(results: seq<ItemResult>): (ids: seq<string>)
    ensures (set id | id in ids) == SettledIds(results)
  {
    if results == [] then []
    else
      var last := results[|results| - 1];
      var rest := SettledList(results[..|results| - 1]);
      assert results == results[..|results| - 1] + [last];
      assert SettledIds(results) == SettledIds(results[..|results| - 1]) + (if Settles(last) then {last.clientId} else {}) by {
        assert forall r :: r in results <==> r in results[..|results| - 1] || r == last;
      }
      rest + (if Settles(last) then [last.clientId] else [])
  }

  /** The refusals among one request's answers. */
  method NewlyRejected(queue: seq<Mutation>, results: seq<ItemResult>) returns (rejected: seq<Rejected>)
    ensures rejected == Reports(queue, results)
  {
    rejected := [];
    for j := 0 to |results|
      invariant rejected == Reports(queue, results[..j])
    {
      var r := results[j];
      assert results[..j + 1][..j] == results[..j];
      if !r.applied && r.retryable == Some(false) {
        rejected := rejected + [Report(queue, r)];
      }
    }
    assert results[..|results|] == results;
  }

  lemma {:induction false} KeepAll(items: seq<Mutation>)
    ensures Keep(items, {}) == items
    decreases |items|
  {
    if items != [] {
      KeepAll(items[..|items| - 1]);
    }
  }

  // --- what a flush amounts to -----------------------------------------------------------------

  function Joined(queue: seq<Mutation>, k: nat): seq<Mutation>
    requires k <= BatchCount(queue)
  {
    if k == 0 then [] else Joined(queue, k - 1) + Batch(queue, k - 1)
  }

  lemma {:induction false} JoinedIsPrefix(queue: seq<Mutation>, k: nat)
    requires k <= BatchCount(queue)
    ensures Joined(queue, k) == queue[..Min(k * MAX_BATCH, |queue|)]
  {
    if k != 0 {
      JoinedIsPrefix(queue, k - 1);
    }
  }

  /** The batches cover the queue in order, with no gap and no overlap, each within the server's cap. */
  lemma BatchesCoverQueue(queue: seq<Mutation>)
    ensures Joined(queue, BatchCount(queue)) == queue
    ensures forall k: nat :: k < BatchCount(queue) ==> 0 < |Batch(queue, k)| <= MAX_BATCH
    ensures forall k: nat :: k + 1 < BatchCount(queue) ==> |Batch(queue, k)| == MAX_BATCH
  {
    JoinedIsPrefix(queue, BatchCount(queue));
  }

  function Flattened(sent: seq<seq<Mutation>>): seq<Mutation> {
    if sent == [] then [] else Flattened(sent[..|sent| - 1]) + sent[|sent| - 1]
  }

  lemma {:induction false} SentIsJoined(queue: seq<Mutation>, sent: seq<seq<Mutation>>)
    requires |sent| <= BatchCount(queue) && forall j: nat :: j < |sent| ==> sent[j] == Batch(queue, j)
    ensures Flattened(sent) == Joined(queue, |sent|)
    decreases |sent|
  {
    if sent != [] { SentIsJoined(queue, sent[..|sent| - 1]); }
  }

  /** A flush sends the front of the queue in order, each mutation once: all of it unless a request was not answered. */
  lemma RequestsCoverQueue(queue: seq<Mutation>, rounds: nat, sent: seq<seq<Mutation>>)
    requires SendsBatches(queue, rounds, sent)
    ensures Flattened(sent) <= queue
    ensures rounds == BatchCount(queue) ==> Flattened(sent) == queue
    ensures forall b :: b in sent ==> 0 < |b| <= MAX_BATCH
  {
    SentIsJoined(queue, sent);
    JoinedIsPrefix(queue, |sent|);
    BatchesCoverQueue(queue);
  }

  lemma {:induction false} KeepAppend(a: seq<Mutation>, b: seq<Mutation>, drop: set<string>)
    ensures Keep(a + b, drop) == Keep(a, drop) + Keep(b, drop)
    decreases |b|
  {
    if b == [] {
      assert a + b == a;
    } else {
      assert (a + b)[..|a + b| - 1] == a + b[..|b| - 1];
      KeepAppend(a, b[..|b| - 1], drop);
    }
  }

  ghost function KeptAt(items: seq<Mutation>, drop: set<string>): nat -> bool {
    (p: nat) => p < |items| && items[p].clientId !in drop
  }

  lemma KeptAtInit(items: seq<Mutation>, drop: set<string>)
    requires items != []
    ensures forall p: nat :: p < |items| - 1 ==> KeptAt(items[..|items| - 1], drop)(p) == KeptAt(items, drop)(p)
    ensures KeptAt(items, drop)(|items| - 1) <==> items[|items| - 1].clientId !in drop
  {}

  /** Keep holds the mutations whose ids are not dropped, each as often as it was there and in order. */
  lemma {:induction false} KeepHoldsTheRest(items: seq<Mutation>, drop: set<string>) returns (at: seq<nat>)
    ensures Places.Lists(at, |items|, KeptAt(items, drop)) && Places.Picks(Keep(items, drop), items, at)
    decreases |items|
  {
    at := [];
    if items != [] {
      hide KeptAt, Places.Lists, Places.Picks;
      var n := |items| - 1;
      at := KeepHoldsTheRest(items[..n], drop);
      KeptAtInit(items, drop);
      Places.FilterOneMore(Keep(items[..n], drop), items, at, KeptAt(items[..n], drop), KeptAt(items, drop));
      assert Keep(items[..n], drop) + [] == Keep(items[..n], drop);
      at := if items[n].clientId in drop then at else at + [n];
    }
  }

  lemma {:induction false} KeepTwice(a: seq<Mutation>, d: set<string>, e: set<string>)
    ensures Keep(Keep(a, d), e) == Keep(a, d + e)
    decreases |a|
  {
    if a != [] {
      KeepTwice(a[..|a| - 1], d, e);
      KeepAppend(Keep(a[..|a| - 1], d), if a[|a| - 1].clientId in d then [] else [a[|a| - 1]], e);
    }
  }

  lemma {:induction false} KeepUntouched(a: seq<Mutation>, d: set<string>)
    requires forall m :: m in a ==> m.clientId !in d
    ensures Keep(a, d) == a
    decreases |a|
  {
    if a != [] {
      KeepUntouched(a[..|a| - 1], d);
    }
  }

  lemma SettledIdsAppend(a: seq<ItemResult>, b: seq<ItemResult>)
    ensures SettledIds(a + b) == SettledIds(a) + SettledIds(b)
  {}

  lemma {:induction false} StoredIsKept(queue: seq<Mutation>, net: nat -> Exchange, k: nat)
    requires AllAnswered(net, k)
    requires forall m :: m in Arrivals(net, k) ==> m.clientId !in SettledIds(Answers(net, k))
    ensures Stored(queue, net, k) == Keep(queue, SettledIds(Answers(net, k))) + Arrivals(net, k)
  {
    if k == 0 {
      KeepAll(queue);
      assert SettledIds([]) == {};
    } else {
      var earlier, now := SettledIds(Answers(net, k - 1)), SettledIds(net(k - 1).reply.results);
      var before, all := Arrivals(net, k - 1), Arrivals(net, k);
      SettledIdsAppend(Answers(net, k - 1), net(k - 1).reply.results);
      assert SettledIds(Answers(net, k)) == earlier + now;
      assert forall m :: m in before ==> m in all;
      StoredIsKept(queue, net, k - 1);
      StoredRound(queue, before, net(k - 1).arrivals, earlier, now);
    }
  }

  lemma StoredRound(queue: seq<Mutation>, before: seq<Mutation>, arrivals: seq<Mutation>, earlier: set<string>, now: set<string>)
    requires forall m :: m in before + arrivals ==> m.clientId !in now
    ensures Keep(Keep(queue, earlier) + before + arrivals, now) == Keep(queue, earlier + now) + (before + arrivals)
  {
    hide Keep;
    assert Keep(queue, earlier) + before + arrivals == Keep(queue, earlier) + (before + arrivals);
    KeepAppend(Keep(queue, earlier), before + arrivals, now);
    KeepTwice(queue, earlier, now);
    KeepUntouched(before + arrivals, now);
  }

  function ReportedIds(rejected: seq<Rejected>): set<string> {
    set r | r in rejected :: r.clientId
  }

  function RejectedIds(results: seq<ItemResult>): set<string> {
    set r | r in results && Rejects(r) :: r.clientId
  }

  lemma {:induction false} ReportsNameTheRejected(queue: seq<Mutation>, results: seq<ItemResult>)
    ensures ReportedIds(Reports(queue, results)) == RejectedIds(results)
    decreases |results|
  {
    if results != [] {
      var last, rest := results[|results| - 1], results[..|results| - 1];
      ReportsNameTheRejected(queue, rest);
      var news := if Rejects(last) then [Report(queue, last)] else [];
      assert results == rest + [last] && Reports(queue, results) == Reports(queue, rest) + news;
      RejectedIdsAppend(rest, last);
      ReportedIdsAppend(Reports(queue, rest), news);
    }
  }

  lemma RejectedIdsAppend(rest: seq<ItemResult>, last: ItemResult)
    ensures RejectedIds(rest + [last]) == RejectedIds(rest) + (if Rejects(last) then {last.clientId} else {})
  {
    assert forall r :: r in rest + [last] <==> r in rest || r == last;
  }

  lemma ReportedIdsAppend(a: seq<Rejected>, b: seq<Rejected>)
    ensures ReportedIds(a + b) == ReportedIds(a) + ReportedIds(b)
  {}

  /** The kind of the mutation queued last under an id; DispatchOrder for an id that was never queued. */
  lemma {:induction false} KindIsOfTheLast(queue: seq<Mutation>, clientId: string)
    ensures (forall m :: m in queue ==> m.clientId != clientId) ==> KindOf(queue, clientId) == DispatchOrder
    ensures forall p: nat :: p < |queue| && queue[p].clientId == clientId
                             && (forall q: nat :: p < q < |queue| ==> queue[q].clientId != clientId) ==>
              KindOf(queue, clientId) == queue[p].kind
    decreases |queue|
  {
    if queue != [] {
      var init := queue[..|queue| - 1];
      assert queue == init + [queue[|queue| - 1]];
      KindIsOfTheLast(init, clientId);
      if queue[|queue| - 1].clientId != clientId {
        forall p: nat | p < |queue| && queue[p].clientId == clientId
                        && (forall q: nat :: p < q < |queue| ==> queue[q].clientId != clientId)
          ensures KindOf(queue, clientId) == queue[p].kind
        {
          assert init[p].clientId == clientId && forall q: nat :: p < q < |init| ==> init[q] == queue[q];
        }
      }
    }
  }

  ghost function RefusedAt(results: seq<ItemResult>): nat -> bool {
    (p: nat) => p < |results| && !results[p].applied && results[p].retryable == Some(false)
  }

  lemma RefusedAtInit(results: seq<ItemResult>)
    requires results != []
    ensures forall p: nat :: p < |results| - 1 ==> RefusedAt(results[..|results| - 1])(p) == RefusedAt(results)(p)
    ensures RefusedAt(results)(|results| - 1) <==>
            !results[|results| - 1].applied && results[|results| - 1].retryable == Some(false)
  {}

  /** What the rider hears of one refusal: the kind queued under its id, and the server's reason. */
  predicate Tells(report: Rejected, queue: seq<Mutation>, r: ItemResult) {
    && report.clientId == r.clientId && report.kind == KindOf(queue, r.clientId)
    && (r.error.Some? ==> report.error == r.error.value) && (r.error.None? ==> report.error == "Refused")
  }

  /** The rider hears of each refusal once, in order: `refused` are those answers. */
  lemma {:induction false} ReportsTellTheRefusals(queue: seq<Mutation>, results: seq<ItemResult>)
    returns (at: seq<nat>, refused: seq<ItemResult>)
    ensures Places.Lists(at, |results|, RefusedAt(results)) && Places.Picks(refused, results, at)
    ensures |Reports(queue, results)| == |refused|
    ensures forall i :: 0 <= i < |refused| ==> Tells(Reports(queue, results)[i], queue, refused[i])
    decreases |results|
  {
    at, refused := [], [];
    if results != [] {
      hide KindOf, RefusedAt, Places.Lists, Places.Picks;
      var n := |results| - 1;
      at, refused := ReportsTellTheRefusals(queue, results[..n]);
      RefusedAtInit(results);
      Places.FilterOneMore(refused, results, at, RefusedAt(results[..n]), RefusedAt(results));
      if !results[n].applied && results[n].retryable == Some(false) {
        at, refused := at + [n], refused + [results[n]];
      }
    }
  }

  /** The ids that the rider is told were refused. */
  function Heard(outcome: Outcome): set<string> {
    if outcome.Returned? then ReportedIds(outcome.result.rejected) else {}
  }

  /** The requests whose exchange took place: the answered ones, and the one that ended the flush, if any. */
  function Exchanges(queue: seq<Mutation>, rounds: nat): nat {
    if rounds == BatchCount(queue) then rounds else rounds + 1
  }

  /**
   However a flush ends, what is left is the queue without what the answers settled, in order, ahead
   of all that was queued meanwhile.
   */
  lemma FlushLeaves(queue: seq<Mutation>, net: nat -> Exchange, k: nat, left: seq<Mutation>, outcome: Outcome)
    requires FlushEnds(queue, net, k, left, outcome)
    requires forall m :: m in Arrivals(net, k) ==> m.clientId !in SettledIds(Answers(net, k))
    ensures left == Keep(queue, SettledIds(Answers(net, k))) + Arrivals(net, Exchanges(queue, k))
  {
    hide Keep, SettledIds, Answers;
    StoredIsKept(queue, net, k);
    if k < BatchCount(queue) {
      var kept := Keep(queue, SettledIds(Answers(net, k)));
      assert kept + Arrivals(net, k) + net(k).arrivals == kept + (Arrivals(net, k) + net(k).arrivals);
    }
  }

  /**
   Whenever a flush returns, offline midway included: the rest of the queue keeps its order ahead of
   what was queued meanwhile, what was dropped is exactly the applied plus the reported, and the
   counts add up.
   */
  lemma ReturnAccountsForEveryDrop(queue: seq<Mutation>, net: nat -> Exchange, k: nat, left: seq<Mutation>, outcome: Outcome)
    requires FlushEnds(queue, net, k, left, outcome) && outcome.Returned?
    requires forall m :: m in Arrivals(net, k) ==> m.clientId !in SettledIds(Answers(net, k))
    ensures var result := outcome.result;
            && left == Keep(queue, AppliedIds(Answers(net, k)) + Heard(outcome))
                       + Arrivals(net, if result.offline then k + 1 else k)
            && result.remaining == |left|
            && result.synced == HowMany(Answers(net, k), true)
            && result.rejected == Reports(queue, Answers(net, k))
            && result.failed == HowMany(Answers(net, k), false)
            && (result.offline <==> k < BatchCount(queue))
  {
    FlushLeaves(queue, net, k, left, outcome);
    var answers := Answers(net, k);
    CountAppliedCounts(answers);
    ReportsNameTheRejected(queue, answers);
    assert SettledIds(answers) == AppliedIds(answers) + RejectedIds(answers);
  }

  /** How many answers say so: that the mutation was applied, or that it was not. */
  ghost function HowMany(results: seq<ItemResult>, applied: bool): nat {
    |Places.Where(|results|, (p: nat) => p < |results| && results[p].applied == applied)|
  }

  lemma {:induction false} CountAppliedCounts(results: seq<ItemResult>)
    ensures CountApplied(results) == HowMany(results, true)
    ensures |results| - CountApplied(results) == HowMany(results, false)
    decreases |results|
  {
    if results != [] {
      CountAppliedCounts(results[..|results| - 1]);
      HowManyOneMore(results, true);
      HowManyOneMore(results, false);
    }
  }

  lemma HowManyOneMore(results: seq<ItemResult>, applied: bool)
    requires results != []
    ensures HowMany(results, applied) ==
            HowMany(results[..|results| - 1], applied) + (if results[|results| - 1].applied == applied then 1 else 0)
  {
    var n := |results| - 1;
    var init := results[..n];
    var holds := (p: nat) => p < |results| && results[p].applied == applied;
    Places.WhereOneMore(n, holds);
    Places.WhereAgrees(n, (p: nat) => p < |init| && init[p].applied == applied, holds);
  }

  /** Every id a flush dropped was applied, or the rider hears that it was refused. */
  ghost predicate Accounted(net: nat -> Exchange, k: nat, outcome: Outcome)
    requires AllAnswered(net, k)
  {
    SettledIds(Answers(net, k)) <= AppliedIds(Answers(net, k)) + Heard(outcome)
  }

  /** A network that refuses the first mutation in the first batch and fails the second request. */
  function RefuseThenFail(queue: seq<Mutation>): nat -> Exchange
    requires queue != []
  {
    (i: nat) => Exchange(if i == 0 then Answered([ItemResult(queue[0].clientId, false, Some(false), None)]) else Refused(500), [])
  }

  lemma LongQueueMayHideRefusal(queue: seq<Mutation>) returns (net: nat -> Exchange, left: seq<Mutation>)
    requires |queue| > MAX_BATCH
    ensures FlushEnds(queue, net, 1, left, Threw(500)) && !Accounted(net, 1, Threw(500))
  {
    net := RefuseThenFail(queue);
    left := Stored(queue, net, 1) + net(1).arrivals;
    var refused := ItemResult(queue[0].clientId, false, Some(false), None);
    assert Answers(net, 1) == Answers(net, 0) + [refused] == [refused];
    assert refused.clientId in SettledIds(Answers(net, 1));
  }

  /**
   An error status in a later batch is thrown past the reports of the earlier ones.  A flush that
   throws has accounted for all it dropped, whatever the network does, exactly when the queue fits
   into one batch.
   */
  lemma ThrowAccountsExactly(queue: seq<Mutation>)
    ensures |queue| <= MAX_BATCH <==>
            forall net, k, left, status :: FlushEnds(queue, net, k, left, Threw(status)) ==>
              AllAnswered(net, k) && Accounted(net, k, Threw(status))
  {
    if |queue| <= MAX_BATCH {
      forall net, k, left, status | FlushEnds(queue, net, k, left, Threw(status))
        ensures AllAnswered(net, k) && Accounted(net, k, Threw(status))
      {
        assert k == 0;
      }
    } else {
      var net, left := LongQueueMayHideRefusal(queue);
      assert FlushEnds(queue, net, 1, left, Threw(500));
    }
  }
}
