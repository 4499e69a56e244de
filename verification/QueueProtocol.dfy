/**
 The offline write queue as a protocol: one phone, a network that may lose, delay or repeat
 anything, and a server that may answer each item in any way.

 Mutations are named by the order in which they were stored.  `enqueue` and `removeFromQueue` are
 the two steps they are in the source, a load and a write; `stale` records that a write was based
 on a load that something else had overtaken.  Requests stay in the network for good, so the server
 may take one late, twice or never.
 */
module QueueProtocol {
  import MutationQueue

  const MAX_BATCH := MutationQueue.MAX_BATCH

  datatype Verdict = Apply | Refuse | Retry

  datatype Stage =
    | Sending
    | Waiting(request: nat)
    | Dropping(drop: set<nat>)
    | Writing(drop: set<nat>, loaded: seq<nat>)

  /** One flushQueue: what it loaded, the batch it has got to, and where it is with it. */
  datatype Flush = Flush(snapshot: seq<nat>, at: nat, stage: Stage)

  /** The server working through a request it received. */
  datatype Job = Job(request: nat, cursor: nat, settled: set<nat>)

  datatype World = World(
    stored: seq<nat>,
    count: nat,
    enqueues: map<nat, seq<nat>>,
    flushes: map<nat, Flush>,
    requests: seq<seq<nat>>,
    jobs: seq<Job>,
    effects: seq<nat>,
    refused: set<nat>,
    stale: bool)

  datatype Action =
    | LoadForEnqueue(id: nat)
    | WriteEnqueue(id: nat)
    | StartFlush(id: nat)
    | Send(id: nat)
    | Arrive(request: nat)
    | Serve(job: nat, verdict: Verdict)
    | Receive(id: nat, job: nat)
    | LoadForRemove(id: nat)
    | WriteRemove(id: nat)
      // no signal, or an error status: the flush ends where it is
    | GiveUp(id: nat)
    | ProcessDeath

  function Without(s: seq<nat>, drop: set<nat>): seq<nat> {
    if s == [] then []
    else Without(s[..|s| - 1], drop) + (if s[|s| - 1] in drop then [] else [s[|s| - 1]])
  }

  function NextAt(f: Flush): nat {
    if f.at + MAX_BATCH < |f.snapshot| then f.at + MAX_BATCH else |f.snapshot|
  }

  function Batch(f: Flush): seq<nat>
    requires f.at <= |f.snapshot|
  {
    f.snapshot[f.at..NextAt(f)]
  }

  /** On to the next batch, or done. */
  function Advance(w: World, id: nat, f: Flush): World {
    if NextAt(f) < |f.snapshot| then w.(flushes := w.flushes[id := Flush(f.snapshot, NextAt(f), Sending)])
    else w.(flushes := w.flushes - {id})
  }

  /** The server's answer to one item: an effect it already had is reported as such. */
  function ServeItem(w: World, j: nat, m: nat, verdict: Verdict): World
    requires j < |w.jobs|
  {
    var job := w.jobs[j].(cursor := w.jobs[j].cursor + 1);
    var settled := w.(jobs := w.jobs[j := job.(settled := job.settled + {m})]);
    if m in w.effects then settled
    else
      match verdict
      case Apply => settled.(effects := w.effects + [m])
      case Refuse => settled.(refused := w.refused + {m})
      case Retry => w.(jobs := w.jobs[j := job])
  }

  function Step(w: World, a: Action): World {
    match a
    case LoadForEnqueue(id) =>
      if id in w.enqueues then w else w.(enqueues := w.enqueues[id := w.stored])
    case WriteEnqueue(id) =>
      if id !in w.enqueues then w
      else w.(stored := w.enqueues[id] + [w.count], count := w.count + 1,
              stale := w.stale || w.enqueues[id] != w.stored, enqueues := w.enqueues - {id})
    case StartFlush(id) =>
      if id in w.flushes || w.stored == [] then w
      else w.(flushes := w.flushes[id := Flush(w.stored, 0, Sending)])
    case Send(id) =>
      if id in w.flushes && w.flushes[id].stage.Sending? && w.flushes[id].at <= |w.flushes[id].snapshot| then
        w.(requests := w.requests + [Batch(w.flushes[id])],
           flushes := w.flushes[id := w.flushes[id].(stage := Waiting(|w.requests|))])
      else w
    case Arrive(request) =>
      if request < |w.requests| then w.(jobs := w.jobs + [Job(request, 0, {})]) else w
    case Serve(j, verdict) =>
      if j < |w.jobs| && w.jobs[j].request < |w.requests| && w.jobs[j].cursor < |w.requests[w.jobs[j].request]|
      then ServeItem(w, j, w.requests[w.jobs[j].request][w.jobs[j].cursor], verdict)
      else w
    case Receive(id, j) =>
      if id in w.flushes && j < |w.jobs| && w.flushes[id].stage == Waiting(w.jobs[j].request)
         && w.jobs[j].request < |w.requests| && w.jobs[j].cursor == |w.requests[w.jobs[j].request]|
      then
        if w.jobs[j].settled == {} then Advance(w, id, w.flushes[id])
        else w.(flushes := w.flushes[id := w.flushes[id].(stage := Dropping(w.jobs[j].settled))])
      else w
    case LoadForRemove(id) =>
      if id in w.flushes && w.flushes[id].stage.Dropping?
      then w.(flushes := w.flushes[id := w.flushes[id].(stage := Writing(w.flushes[id].stage.drop, w.stored))])
      else w
    case WriteRemove(id) =>
      if id in w.flushes && w.flushes[id].stage.Writing? then
        var s := w.flushes[id].stage;
        Advance(w.(stored := Without(s.loaded, s.drop), stale := w.stale || s.loaded != w.stored), id, w.flushes[id])
      else w
    case GiveUp(id) =>
      if id in w.flushes && w.flushes[id].stage.Waiting? then w.(flushes := w.flushes - {id}) else w
    case ProcessDeath => w.(enqueues := map[], flushes := map[])
  }

  function Run(w: World, actions: seq<Action>): World
    decreases |actions|
  {
    if actions == [] then w else Run(Step(w, actions[0]), actions[1..])
  }

  const EMPTY := World([], 0, map[], map[], [], [], [], {}, false)

  lemma {:induction false} RunAppend(w: World, first: seq<Action>, second: seq<Action>)
    ensures Run(w, first + second) == Run(Run(w, first), second)
    decreases |first|
  {
    hide Step;
    if first == [] {
      assert first + second == second;
    } else {
      assert (first + second)[1..] == first[1..] + second;
      RunAppend(Step(w, first[0]), first[1..], second);
    }
  }

  /** One more step at the end of a run. */
  lemma Extend(w: World, actions: seq<Action>, v: World, a: Action) returns (longer: seq<Action>)
    requires Run(w, actions) == v
    ensures longer == actions + [a] && Run(w, longer) == Step(v, a)
  {
    hide Step;
    longer := actions + [a];
    RunAppend(w, actions, [a]);
    assert [a][1..] == [];
    assert Run(v, [a]) == Run(Step(v, a), []);
  }

  // --- what every step keeps -------------------------------------------------------------------

  predicate Increasing(s: seq<nat>, below: nat) {
    && (forall i, j :: 0 <= i < j < |s| ==> s[i] < s[j])
    && (forall i :: 0 <= i < |s| ==> s[i] < below)
  }

  lemma {:induction false} WithoutKeeps(s: seq<nat>, drop: set<nat>, below: nat)
    requires Increasing(s, below)
    ensures Increasing(Without(s, drop), below)
    ensures forall m :: m in Without(s, drop) <==> m in s && m !in drop
    decreases |s|
  {
    if s != [] {
      var init, last := s[..|s| - 1], s[|s| - 1];
      assert s == init + [last];
      WithoutKeeps(init, drop, below);
      WithoutKeeps(init, drop, last);
    }
  }

  /** The server has given its final word on this one. */
  predicate Final(w: World, m: nat) { m in w.effects || m in w.refused }

  ghost predicate FlushOk(w: World, f: Flush) {
    && Increasing(f.snapshot, w.count) && f.at <= |f.snapshot|
    && (match f.stage
        case Sending => true
        case Waiting(request) => request < |w.requests| && w.requests[request] == Batch(f)
        case Dropping(drop) => forall m :: m in drop ==> Final(w, m)
        case Writing(drop, loaded) => Increasing(loaded, w.count) && forall m :: m in drop ==> Final(w, m))
  }

  ghost predicate JobOk(w: World, job: Job) {
    && job.request < |w.requests| && job.cursor <= |w.requests[job.request]|
    && (forall m :: m in job.settled ==> Final(w, m))
  }

  /** Nothing that was ever queued is lost: it is still stored, or the server settled it. */
  ghost predicate Covered(w: World) {
    forall m: nat :: m < w.count ==> m in w.stored || Final(w, m)
  }

  /** No effect happens twice, and the server answers only what was queued. */
  ghost predicate AtMostOnce(w: World) {
    && (forall i, j :: 0 <= i < j < |w.effects| ==> w.effects[i] != w.effects[j])
    && (forall m :: m in w.effects ==> m < w.count)
    && (forall m :: m in w.refused ==> m < w.count)
  }

  ghost predicate Inv(w: World) {
    && Increasing(w.stored, w.count)
    && (forall id :: id in w.enqueues ==> Increasing(w.enqueues[id], w.count))
    && (forall id :: id in w.flushes ==> FlushOk(w, w.flushes[id]))
    && (forall r :: 0 <= r < |w.requests| ==> Increasing(w.requests[r], w.count))
    && (forall j :: 0 <= j < |w.jobs| ==> JobOk(w, w.jobs[j]))
    && AtMostOnce(w)
    && (!w.stale ==> Covered(w))
  }

  /** Final words, requests and the count only grow. */
  ghost predicate Grows(w: World, v: World) {
    && w.count <= v.count
    && |w.requests| <= |v.requests| && (forall r :: 0 <= r < |w.requests| ==> v.requests[r] == w.requests[r])
    && (forall m :: Final(w, m) ==> Final(v, m))
  }

  lemma FlushOkGrows(w: World, v: World, f: Flush)
    requires FlushOk(w, f) && Grows(w, v)
    ensures FlushOk(v, f)
  {}

  lemma JobOkGrows(w: World, v: World, job: Job)
    requires JobOk(w, job) && Grows(w, v)
    ensures JobOk(v, job)
  {}

  /** The flushes other than the one a step moves, and the jobs, stay well formed. */
  lemma OthersOk(w: World, v: World, id: nat)
    requires Inv(w) && Grows(w, v) && v.jobs == w.jobs
    requires forall i :: i in v.flushes && i != id ==> i in w.flushes && v.flushes[i] == w.flushes[i]
    requires id in v.flushes ==> FlushOk(v, v.flushes[id])
    ensures forall i :: i in v.flushes ==> FlushOk(v, v.flushes[i])
    ensures forall i :: 0 <= i < |v.jobs| ==> JobOk(v, v.jobs[i])
  {
    forall i | i in v.flushes
      ensures FlushOk(v, v.flushes[i])
    {
      if i != id { FlushOkGrows(w, v, w.flushes[i]); }
    }
    forall i | 0 <= i < |v.jobs|
      ensures JobOk(v, v.jobs[i])
    {
      JobOkGrows(w, v, w.jobs[i]);
    }
  }

  lemma IncreasingBelow(s: seq<nat>, below: nat, above: nat)
    requires Increasing(s, below) && below <= above
    ensures Increasing(s, above)
  {}

  /** Nothing changes at the server, and only the flush `id` moves. */
  lemma InvClient(w: World, v: World, id: nat)
    requires Inv(w) && Grows(w, v)
    requires v.jobs == w.jobs && v.effects == w.effects && v.refused == w.refused
    requires forall i :: i in v.flushes && i != id ==> i in w.flushes && v.flushes[i] == w.flushes[i]
    requires id in v.flushes ==> FlushOk(v, v.flushes[id])
    requires Increasing(v.stored, v.count)
    requires forall i :: i in v.enqueues ==> Increasing(v.enqueues[i], v.count)
    requires forall r :: |w.requests| <= r < |v.requests| ==> Increasing(v.requests[r], v.count)
    requires !v.stale ==> Covered(v)
    ensures Inv(v)
  {
    hide Increasing, FlushOk, JobOk;
    OthersOk(w, v, id);
    forall r | 0 <= r < |v.requests|
      ensures Increasing(v.requests[r], v.count)
    {
      if r < |w.requests| { IncreasingBelow(w.requests[r], w.count, v.count); }
    }
  }

  lemma InvLoad(w: World, a: Action)
    requires Inv(w) && (a.LoadForEnqueue? || a.ProcessDeath?)
    ensures Inv(Step(w, a))
  {
    hide Increasing, FlushOk, JobOk;
    var v := Step(w, a);
    InvClient(w, v, 0) by {
      if 0 in v.flushes { FlushOkGrows(w, v, w.flushes[0]); }
    }
  }

  lemma InvWriteEnqueue(w: World, id: nat)
    requires Inv(w)
    ensures Inv(Step(w, WriteEnqueue(id)))
  {
    hide FlushOk, JobOk, Inv;
    var v := Step(w, WriteEnqueue(id));
    if id in w.enqueues {
      InvParts(w);
      IncreasingAppend(w.enqueues[id], w.count);
      forall i | i in v.enqueues
        ensures Increasing(v.enqueues[i], v.count)
      {
        IncreasingBelow(w.enqueues[i], w.count, v.count);
      }
      if 0 in v.flushes { FlushOkGrows(w, v, w.flushes[0]); }
      assert !v.stale ==> Covered(v) by {
        if !v.stale { assert v.stored == w.stored + [w.count]; }
      }
      hide Increasing, Covered;
      InvClient(w, v, 0);
    }
  }

  lemma InvParts(w: World)
    requires Inv(w)
    ensures forall i :: i in w.enqueues ==> Increasing(w.enqueues[i], w.count)
    ensures forall i :: i in w.flushes ==> FlushOk(w, w.flushes[i])
    ensures !w.stale ==> Covered(w)
    ensures Increasing(w.stored, w.count)
  {}

  lemma IncreasingAppend(s: seq<nat>, m: nat)
    requires Increasing(s, m)
    ensures Increasing(s + [m], m + 1)
  {}

  lemma IncreasingSlice(s: seq<nat>, below: nat, i: nat, j: nat)
    requires Increasing(s, below) && i <= j <= |s|
    ensures Increasing(s[i..j], below)
  {}

  lemma InvFlush(w: World, a: Action)
    requires Inv(w) && (a.StartFlush? || a.GiveUp? || a.LoadForRemove?)
    ensures Inv(Step(w, a))
  {
    hide Increasing, JobOk;
    if a.id in w.flushes { assert FlushOk(w, w.flushes[a.id]); }
    InvClient(w, Step(w, a), a.id);
  }

  lemma InvSend(w: World, id: nat)
    requires Inv(w)
    ensures Inv(Step(w, Send(id)))
  {
    hide Increasing, JobOk;
    var v := Step(w, Send(id));
    if v != w {
      var f := w.flushes[id];
      assert FlushOk(w, f);
      IncreasingSlice(f.snapshot, w.count, f.at, NextAt(f));
      FlushOkGrows(w, v, f);
      InvClient(w, v, id);
    }
  }

  lemma InvArrive(w: World, request: nat)
    requires Inv(w)
    ensures Inv(Step(w, Arrive(request)))
  {
    var v := Step(w, Arrive(request));
    if request < |w.requests| {
      forall i | i in v.flushes
        ensures FlushOk(v, v.flushes[i])
      {
        FlushOkGrows(w, v, w.flushes[i]);
      }
      forall i | 0 <= i < |v.jobs|
        ensures JobOk(v, v.jobs[i])
      {
        if i < |w.jobs| { JobOkGrows(w, v, w.jobs[i]); }
      }
    }
  }

  lemma ServedItem(w: World, j: nat, m: nat, verdict: Verdict)
    requires j < |w.jobs| && JobOk(w, w.jobs[j]) && AtMostOnce(w) && m < w.count
    requires w.jobs[j].cursor < |w.requests[w.jobs[j].request]|
    ensures var v := ServeItem(w, j, m, verdict);
            && Grows(w, v) && AtMostOnce(v) && JobOk(v, v.jobs[j])
            && |v.jobs| == |w.jobs| && (forall i :: 0 <= i < |w.jobs| && i != j ==> v.jobs[i] == w.jobs[i])
            && v == w.(jobs := v.jobs, effects := v.effects, refused := v.refused)
  {}

  lemma InvServe(w: World, j: nat, verdict: Verdict)
    requires Inv(w)
    ensures Inv(Step(w, Serve(j, verdict)))
  {
    hide ServeItem, Increasing, FlushOk, AtMostOnce;
    var v := Step(w, Serve(j, verdict));
    if v != w {
      assert JobOk(w, w.jobs[j]);
      var request := w.jobs[j].request;
      IncreasingIsBelow(w.requests[request], w.count);
      ServedItem(w, j, w.requests[request][w.jobs[j].cursor], verdict);
      forall i | i in v.flushes
        ensures FlushOk(v, v.flushes[i])
      {
        FlushOkGrows(w, v, w.flushes[i]);
      }
      forall i | 0 <= i < |v.jobs|
        ensures JobOk(v, v.jobs[i])
      {
        if i != j { JobOkGrows(w, v, w.jobs[i]); }
      }
    }
  }

  lemma IncreasingIsBelow(s: seq<nat>, below: nat)
    requires Increasing(s, below)
    ensures forall i :: 0 <= i < |s| ==> s[i] < below
  {}

  lemma InvAdvance(w: World, v: World, id: nat)
    requires Inv(w) && Grows(w, v) && id in w.flushes
    requires v.flushes == Advance(w, id, w.flushes[id]).flushes && v.jobs == w.jobs
    ensures forall i :: i in v.flushes ==> FlushOk(v, v.flushes[i])
    ensures id in v.flushes ==> FlushOk(v, v.flushes[id])
  {
    FlushOkGrows(w, v, w.flushes[id]);
    OthersOk(w, v, id);
  }

  lemma InvReceive(w: World, id: nat, j: nat)
    requires Inv(w)
    ensures Inv(Step(w, Receive(id, j)))
  {
    var v := Step(w, Receive(id, j));
    if v != w {
      assert JobOk(w, w.jobs[j]) && FlushOk(w, w.flushes[id]);
      if w.jobs[j].settled == {} { InvAdvance(w, v, id); }
      InvClient(w, v, id);
    }
  }

  lemma InvWriteRemove(w: World, id: nat)
    requires Inv(w)
    ensures Inv(Step(w, WriteRemove(id)))
  {
    var v := Step(w, WriteRemove(id));
    if id in w.flushes && w.flushes[id].stage.Writing? {
      var s := w.flushes[id].stage;
      assert FlushOk(w, w.flushes[id]);
      WithoutKeeps(s.loaded, s.drop, w.count);
      InvAdvance(w, v, id);
      InvClient(w, v, id);
    }
  }

  lemma InvStep(w: World, a: Action)
    requires Inv(w)
    ensures Inv(Step(w, a))
  {
    match a
    case Send(id) => InvSend(w, id);
    case Arrive(request) => InvArrive(w, request);
    case Serve(j, verdict) => InvServe(w, j, verdict);
    case Receive(id, j) => InvReceive(w, id, j);
    case WriteRemove(id) => InvWriteRemove(w, id);
    case StartFlush(_) => InvFlush(w, a);
    case GiveUp(_) => InvFlush(w, a);
    case LoadForRemove(_) => InvFlush(w, a);
    case WriteEnqueue(id) => InvWriteEnqueue(w, id);
    case _ => InvLoad(w, a);
  }

  lemma {:induction false} InvRun(w: World, actions: seq<Action>)
    requires Inv(w)
    ensures Inv(Run(w, actions))
    decreases |actions|
  {
    hide Inv, Step;
    if actions != [] {
      InvStep(w, actions[0]);
      InvRun(Step(w, actions[0]), actions[1..]);
    }
  }

  /**
   Over every interleaving of enqueues, overlapping flushes, lost and repeated requests and lost
   answers: as long as no write was stale, every mutation ever queued is still stored or has the
   server's final answer.  Each takes effect at most once, stale writes or not.
   */
  lemma NothingLostNothingDoubled(actions: seq<Action>)
    ensures var w := Run(EMPTY, actions);
            && (!w.stale ==> Covered(w))
            && AtMostOnce(w)
            && Increasing(w.stored, w.count)
  {
    InvRun(EMPTY, actions);
  }

  // --- effects happen in queue order -----------------------------------------------------------

  /** Whatever was queued before an item of `s` is final, or goes before it in `s`. */
  ghost predicate Ready(w: World, s: seq<nat>) {
    forall k :: 0 <= k < |s| ==> Reached(w, s[..k], s[k])
  }

  ghost predicate Reached(w: World, front: seq<nat>, m: nat) {
    forall k: nat :: k < m ==> Final(w, k) || k in front
  }

  lemma ReadyGrows(w: World, v: World, s: seq<nat>)
    requires Ready(w, s) && forall m :: Final(w, m) ==> Final(v, m)
    ensures Ready(v, s)
  {
    forall k | 0 <= k < |s|
      ensures Reached(v, s[..k], s[k])
    {
      assert Reached(w, s[..k], s[k]);
    }
  }

  ghost predicate BatchDone(w: World, f: Flush)
    requires f.at <= |f.snapshot|
  {
    forall k :: f.at <= k < NextAt(f) ==> Final(w, f.snapshot[k])
  }

  ghost predicate FlushReady(w: World, f: Flush) {
    && f.at <= |f.snapshot| && Ready(w, f.snapshot[f.at..])
    && (f.stage.Dropping? || f.stage.Writing? ==> BatchDone(w, f))
  }

  ghost predicate JobReady(w: World, job: Job) {
    && job.request < |w.requests| && job.cursor <= |w.requests[job.request]|
    && forall k :: 0 <= k < job.cursor ==> Final(w, w.requests[job.request][k])
  }

  ghost predicate InOrder(s: seq<nat>) {
    forall i, j :: 0 <= i < j < |s| ==> s[i] < s[j]
  }

  ghost predicate Fifo(w: World) {
    && InOrder(w.effects)
    && (forall m :: m in w.effects ==> Reached(w, [], m))
    && (forall r :: 0 <= r < |w.requests| ==> Ready(w, w.requests[r]))
    && (forall j :: 0 <= j < |w.jobs| ==> JobReady(w, w.jobs[j]))
    && (forall id :: id in w.flushes ==> FlushReady(w, w.flushes[id]))
  }

  lemma FlushReadyGrows(w: World, v: World, f: Flush)
    requires FlushReady(w, f) && Grows(w, v)
    ensures FlushReady(v, f)
  {
    ReadyGrows(w, v, f.snapshot[f.at..]);
  }

  lemma EffectsReachedGrow(w: World, v: World)
    requires (forall m :: m in w.effects ==> Reached(w, [], m)) && forall m :: Final(w, m) ==> Final(v, m)
    ensures forall m :: m in w.effects ==> Reached(v, [], m)
  {
    forall m | m in w.effects
      ensures Reached(v, [], m)
    {
      assert Reached(w, [], m);
    }
  }

  /** The rest of a list is ready once a front part of it is final. */
  lemma ReadyRest(w: World, s: seq<nat>, n: nat)
    requires n <= |s| && Ready(w, s) && forall k :: 0 <= k < n ==> Final(w, s[k])
    ensures Ready(w, s[n..])
  {
    forall k | 0 <= k < |s[n..]|
      ensures Reached(w, s[n..][..k], s[n..][k])
    {
      assert Reached(w, s[..n + k], s[n + k]);
      forall m: nat | m < s[n + k] && !Final(w, m)
        ensures m in s[n..][..k]
      {
        var i :| 0 <= i < n + k && s[i] == m;
        assert s[n..][..k][i - n] == m;
      }
    }
  }

  /** A flush that has worked through its batch goes on with a ready rest. */
  lemma AdvanceReady(w: World, v: World, id: nat, f: Flush)
    requires FlushReady(w, f) && Grows(w, v) && BatchDone(w, f)
    requires v.flushes == Advance(w, id, f).flushes
    ensures id in v.flushes ==> FlushReady(v, v.flushes[id])
  {
    if id in v.flushes {
      var g := v.flushes[id];
      var rest := f.snapshot[f.at..];
      forall k | 0 <= k < MAX_BATCH
        ensures Final(w, rest[k])
      {
        assert rest[k] == f.snapshot[f.at + k];
      }
      ReadyRest(w, rest, MAX_BATCH);
      assert rest[MAX_BATCH..] == g.snapshot[g.at..];
      FlushReadyGrows(w, v, g);
    }
  }

  /** Nothing changes at the server, and only the flush `id` moves. */
  lemma FifoClient(w: World, v: World, id: nat)
    requires Inv(w) && Fifo(w) && Grows(w, v)
    requires v.jobs == w.jobs && v.effects == w.effects && v.refused == w.refused && v.requests == w.requests
    requires forall i :: i in v.flushes && i != id ==> i in w.flushes && v.flushes[i] == w.flushes[i]
    requires id in v.flushes ==> FlushReady(v, v.flushes[id])
    ensures Fifo(v)
  {
    EffectsReachedGrow(w, v);
    forall i | i in v.flushes
      ensures FlushReady(v, v.flushes[i])
    {
      if i != id { FlushReadyGrows(w, v, w.flushes[i]); }
    }
    forall r | 0 <= r < |v.requests|
      ensures Ready(v, v.requests[r])
    {
      ReadyGrows(w, v, w.requests[r]);
    }
    forall j | 0 <= j < |v.jobs|
      ensures JobReady(v, v.jobs[j])
    {
      assert JobReady(w, w.jobs[j]);
    }
  }

  /** A queue that covers everything not final is ready as it stands. */
  lemma StoredIsReady(w: World)
    requires Inv(w) && !w.stale
    ensures Ready(w, w.stored)
  {
    forall k | 0 <= k < |w.stored|
      ensures Reached(w, w.stored[..k], w.stored[k])
    {
      forall m: nat | m < w.stored[k] && !Final(w, m)
        ensures m in w.stored[..k]
      {
        var i :| 0 <= i < |w.stored| && w.stored[i] == m;
        assert w.stored[..k][i] == m;
      }
    }
  }

  lemma FifoStartFlush(w: World, id: nat)
    requires Inv(w) && !w.stale && Fifo(w)
    ensures Fifo(Step(w, StartFlush(id)))
  {
    var v := Step(w, StartFlush(id));
    if v != w {
      StoredIsReady(w);
      assert w.stored[0..] == w.stored;
      FifoClient(w, v, id);
    }
  }

  lemma FifoEnqueue(w: World, a: Action)
    requires Inv(w) && Fifo(w) && (a.LoadForEnqueue? || a.WriteEnqueue? || a.ProcessDeath? || a.GiveUp?)
    ensures Fifo(Step(w, a))
  {
    var v := Step(w, a);
    if 0 in v.flushes { FlushReadyGrows(w, v, w.flushes[0]); }
    FifoClient(w, v, 0);
  }

  lemma FifoLoadForRemove(w: World, id: nat)
    requires Inv(w) && Fifo(w)
    ensures Fifo(Step(w, LoadForRemove(id)))
  {
    hide Increasing, Ready, JobOk, JobReady, InOrder;
    if id in w.flushes {
      var v, f := Step(w, LoadForRemove(id)), w.flushes[id];
      assert FlushReady(w, f);
      ReadyGrows(w, v, f.snapshot[f.at..]);
      FifoClient(w, v, id);
    }
  }

  lemma FifoWriteRemove(w: World, id: nat)
    requires Inv(w) && Fifo(w)
    ensures Fifo(Step(w, WriteRemove(id)))
  {
    hide Increasing, Ready, JobOk, JobReady, InOrder;
    var v := Step(w, WriteRemove(id));
    if id in w.flushes && w.flushes[id].stage.Writing? {
      assert FlushReady(w, w.flushes[id]);
      AdvanceReady(w, v, id, w.flushes[id]);
      FifoClient(w, v, id);
    }
  }

  lemma FifoReceive(w: World, id: nat, j: nat)
    requires Inv(w) && Fifo(w)
    ensures Fifo(Step(w, Receive(id, j)))
  {
    hide Increasing, Ready, JobOk, InOrder;
    var v := Step(w, Receive(id, j));
    if v != w {
      var f := w.flushes[id];
      assert FlushOk(w, f) && FlushReady(w, f) && JobReady(w, w.jobs[j]);
      forall k | f.at <= k < NextAt(f)
        ensures Final(w, f.snapshot[k])
      {
        assert Batch(f)[k - f.at] == f.snapshot[k];
      }
      if w.jobs[j].settled == {} {
        AdvanceReady(w, v, id, f);
      } else {
        ReadyGrows(w, v, f.snapshot[f.at..]);
        assert FlushReady(v, v.flushes[id]);
      }
      FifoClient(w, v, id);
    }
  }

  /** The front of a ready list is ready. */
  lemma ReadyFront(w: World, s: seq<nat>, n: nat)
    requires n <= |s| && Ready(w, s)
    ensures Ready(w, s[..n])
  {
    forall k | 0 <= k < n
      ensures Reached(w, s[..n][..k], s[..n][k])
    {
      assert Reached(w, s[..k], s[k]);
      assert s[..n][..k] == s[..k];
    }
  }

  lemma FifoSend(w: World, id: nat)
    requires Inv(w) && Fifo(w)
    ensures Fifo(Step(w, Send(id)))
  {
    hide Increasing, Ready, InOrder;
    var v := Step(w, Send(id));
    if v != w {
      var f := w.flushes[id];
      assert FlushReady(w, f);
      EffectsReachedGrow(w, v);
      ReadyFront(w, f.snapshot[f.at..], NextAt(f) - f.at);
      assert f.snapshot[f.at..][..NextAt(f) - f.at] == Batch(f);
      forall r | 0 <= r < |v.requests|
        ensures Ready(v, v.requests[r])
      {
        ReadyGrows(w, v, if r < |w.requests| then w.requests[r] else Batch(f));
      }
      forall j | 0 <= j < |v.jobs|
        ensures JobReady(v, v.jobs[j])
      {
        assert JobReady(w, w.jobs[j]);
      }
      forall i | i in v.flushes
        ensures FlushReady(v, v.flushes[i])
      {
        FlushReadyGrows(w, v, w.flushes[i]);
      }
    }
  }

  lemma FifoArrive(w: World, request: nat)
    requires Inv(w) && Fifo(w)
    ensures Fifo(Step(w, Arrive(request)))
  {
    var v := Step(w, Arrive(request));
    EffectsReachedGrow(w, v);
    forall j | 0 <= j < |v.jobs|
      ensures JobReady(v, v.jobs[j])
    {
      if j < |w.jobs| { assert JobReady(w, w.jobs[j]); }
    }
    forall r | 0 <= r < |v.requests|
      ensures Ready(v, v.requests[r])
    {
      ReadyGrows(w, v, w.requests[r]);
    }
    forall i | i in v.flushes
      ensures FlushReady(v, v.flushes[i])
    {
      FlushReadyGrows(w, v, w.flushes[i]);
    }
  }

  predicate Serving(w: World, j: nat) {
    && j < |w.jobs| && w.jobs[j].request < |w.requests|
    && w.jobs[j].cursor < |w.requests[w.jobs[j].request]|
  }

  function Item(w: World, j: nat): nat
    requires Serving(w, j)
  {
    w.requests[w.jobs[j].request][w.jobs[j].cursor]
  }

  /** The server settles what it is asked, and a refusal is for good. */
  predicate Steady(w: World, a: Action) {
    a.Serve? && Serving(w, a.job) && Item(w, a.job) !in w.effects ==>
      && a.verdict != Retry
      && (Item(w, a.job) in w.refused ==> a.verdict == Refuse)
  }

  /** A new effect comes after every earlier one. */
  lemma EffectIsLast(w: World, j: nat)
    requires Inv(w) && Fifo(w) && Serving(w, j) && !Final(w, Item(w, j))
    ensures forall m :: m in w.effects ==> m < Item(w, j)
    ensures forall k: nat :: k < Item(w, j) ==> Final(w, k)
  {
    var job := w.jobs[j];
    var s := w.requests[job.request];
    assert JobReady(w, job) && Ready(w, s) && Reached(w, s[..job.cursor], Item(w, j));
    forall k: nat | k < Item(w, j)
      ensures Final(w, k)
    {
      if k in s[..job.cursor] {
        var i :| 0 <= i < job.cursor && s[i] == k;
      }
    }
  }

  lemma FifoServe(w: World, j: nat, verdict: Verdict)
    requires Inv(w) && Fifo(w) && Steady(w, Serve(j, verdict))
    ensures Fifo(Step(w, Serve(j, verdict)))
  {
    var v := Step(w, Serve(j, verdict));
    if Serving(w, j) {
      var m := Item(w, j);
      if !Final(w, m) { EffectIsLast(w, j); }
      assert forall k :: Final(w, k) ==> Final(v, k);
      assert Final(v, m);
      FifoServed(w, v, j);
    }
  }

  lemma FifoServed(w: World, v: World, j: nat)
    requires Inv(w) && Fifo(w) && Serving(w, j) && Grows(w, v) && Final(v, Item(w, j))
    requires v.requests == w.requests && v.flushes == w.flushes && |v.jobs| == |w.jobs|
    requires v.jobs[j].request == w.jobs[j].request && v.jobs[j].cursor == w.jobs[j].cursor + 1
    requires forall i :: 0 <= i < |w.jobs| && i != j ==> v.jobs[i] == w.jobs[i]
    requires v.effects == w.effects
      || (v.effects == w.effects + [Item(w, j)]
          && (forall m :: m in w.effects ==> m < Item(w, j))
          && (forall k: nat :: k < Item(w, j) ==> Final(w, k)))
    ensures Fifo(v)
  {
    EffectsReachedGrow(w, v);
    forall i, k | 0 <= i < k < |v.effects|
      ensures v.effects[i] < v.effects[k]
    {
      if k == |w.effects| { assert v.effects[i] in w.effects; }
    }
    forall m | m in v.effects
      ensures Reached(v, [], m)
    {
      if m !in w.effects { assert m == Item(w, j); }
    }
    forall i | 0 <= i < |v.jobs|
      ensures JobReady(v, v.jobs[i])
    {
      assert JobReady(w, w.jobs[i]);
    }
    forall r | 0 <= r < |v.requests|
      ensures Ready(v, v.requests[r])
    {
      ReadyGrows(w, v, w.requests[r]);
    }
    forall i | i in v.flushes
      ensures FlushReady(v, v.flushes[i])
    {
      FlushReadyGrows(w, v, w.flushes[i]);
    }
  }

  lemma FifoStep(w: World, a: Action)
    requires Inv(w) && !w.stale && Fifo(w) && Steady(w, a)
    ensures Fifo(Step(w, a))
  {
    match a
    case Send(id) => FifoSend(w, id);
    case Arrive(request) => FifoArrive(w, request);
    case Serve(j, verdict) => FifoServe(w, j, verdict);
    case Receive(id, j) => FifoReceive(w, id, j);
    case StartFlush(id) => FifoStartFlush(w, id);
    case LoadForRemove(id) => FifoLoadForRemove(w, id);
    case WriteRemove(id) => FifoWriteRemove(w, id);
    case _ => FifoEnqueue(w, a);
  }

  ghost predicate SteadyRun(w: World, actions: seq<Action>)
    decreases |actions|
  {
    actions != [] ==> Steady(w, actions[0]) && SteadyRun(Step(w, actions[0]), actions[1..])
  }

  lemma StaleStays(w: World, a: Action)
    ensures w.stale ==> Step(w, a).stale
  {}

  lemma {:induction false} FifoRun(w: World, actions: seq<Action>)
    requires Inv(w) && (w.stale || Fifo(w)) && SteadyRun(w, actions)
    ensures Run(w, actions).stale || Fifo(Run(w, actions))
    decreases |actions|
  {
    hide Inv, Fifo, Steady, Step;
    if actions != [] {
      if !w.stale { FifoStep(w, actions[0]); }
      StaleStays(w, actions[0]);
      InvStep(w, actions[0]);
      FifoRun(Step(w, actions[0]), actions[1..]);
    }
  }

  /**
   When the server settles everything it is asked and no write was stale, the effects happen in the
   order in which the rider queued them, even with overlapping flushes and requests that arrive
   late, twice or never.
   */
  lemma EffectsInQueueOrder(actions: seq<Action>)
    requires SteadyRun(EMPTY, actions)
    ensures var w := Run(EMPTY, actions);
            !w.stale ==> InOrder(w.effects)
  {
    FifoRun(EMPTY, actions);
  }

  // --- what the two promises rest on -----------------------------------------------------------

  /** A write keeps what it loaded, but for what is final, and adds at most the new mutation. */
  lemma WrittenQueue(w: World, id: nat, a: Action)
    requires Inv(w)
    requires (a == WriteEnqueue(id) && id in w.enqueues)
          || (a == WriteRemove(id) && id in w.flushes && w.flushes[id].stage.Writing?)
    ensures var v := Step(w, a);
            var loaded := if a.WriteEnqueue? then w.enqueues[id] else w.flushes[id].stage.loaded;
            && v.effects == w.effects && v.refused == w.refused
            && v.count == (if a.WriteEnqueue? then w.count + 1 else w.count)
            && (forall m :: m in v.stored ==> m in loaded || m == w.count)
            && (forall m :: m in loaded ==> m in v.stored || Final(w, m))
            && (a.WriteEnqueue? ==> w.count in v.stored)
            && (forall m :: m in w.stored ==> m < w.count)
  {
    if a.WriteRemove? {
      assert FlushOk(w, w.flushes[id]);
      WithoutKeeps(w.flushes[id].stage.loaded, w.flushes[id].stage.drop, w.count);
    }
  }

  /**
   A write keeps everything covered exactly when whatever it overwrites was already loaded by it or
   already has its final answer.
   */
  lemma WriteCoversExactly(w: World, id: nat, a: Action)
    requires Inv(w) && Covered(w)
    requires (a == WriteEnqueue(id) && id in w.enqueues)
          || (a == WriteRemove(id) && id in w.flushes && w.flushes[id].stage.Writing?)
    ensures var loaded := if a.WriteEnqueue? then w.enqueues[id] else w.flushes[id].stage.loaded;
            Covered(Step(w, a)) <==> forall m :: m in w.stored ==> m in loaded || Final(w, m)
  {
    hide Step, Inv, Increasing;
    var v := Step(w, a);
    var loaded := if a.WriteEnqueue? then w.enqueues[id] else w.flushes[id].stage.loaded;
    WrittenQueue(w, id, a);
    if Covered(v) {
      forall m | m in w.stored
        ensures m in loaded || Final(w, m)
      {
        assert m in v.stored || Final(v, m);
      }
    }
    if forall m :: m in w.stored ==> m in loaded || Final(w, m) {
      forall m: nat | m < v.count
        ensures m in v.stored || Final(v, m)
      {
        assert m < w.count ==> m in w.stored || Final(w, m);
      }
    }
  }

  /** A write, if this step is one, overwrites only what it loaded or what is final. */
  ghost predicate WriteIsSafe(w: World, a: Action) {
    match a
    case WriteEnqueue(id) => id in w.enqueues ==> forall m :: m in w.stored ==> m in w.enqueues[id] || Final(w, m)
    case WriteRemove(id) =>
      id in w.flushes && w.flushes[id].stage.Writing? ==>
        forall m :: m in w.stored ==> m in w.flushes[id].stage.loaded || Final(w, m)
    case _ => true
  }

  ghost predicate WritesAreSafe(w: World, actions: seq<Action>)
    decreases |actions|
  {
    actions != [] ==> WriteIsSafe(w, actions[0]) && WritesAreSafe(Step(w, actions[0]), actions[1..])
  }

  ghost predicate AlwaysCovered(w: World, actions: seq<Action>)
    decreases |actions|
  {
    Covered(w) && (actions != [] ==> AlwaysCovered(Step(w, actions[0]), actions[1..]))
  }

  lemma OtherStepsCover(w: World, a: Action)
    requires Inv(w) && Covered(w) && !a.WriteEnqueue? && !a.WriteRemove?
    ensures Covered(Step(w, a))
  {
    var v := Step(w, a);
    assert v.stored == w.stored && v.count == w.count;
    assert forall m :: Final(w, m) ==> Final(v, m);
  }

  lemma StepCoversExactly(w: World, a: Action)
    requires Inv(w) && Covered(w)
    ensures Covered(Step(w, a)) <==> WriteIsSafe(w, a)
  {
    hide Inv, Covered;
    match a
    case WriteEnqueue(id) => if id in w.enqueues { WriteCoversExactly(w, id, a); }
    case WriteRemove(id) => if id in w.flushes && w.flushes[id].stage.Writing? { WriteCoversExactly(w, id, a); }
    case _ => OtherStepsCover(w, a);
  }

  lemma {:induction false} CoveredThroughoutExactly(w: World, actions: seq<Action>)
    requires Inv(w) && Covered(w)
    ensures AlwaysCovered(w, actions) <==> WritesAreSafe(w, actions)
    decreases |actions|
  {
    hide Inv, Covered, Step, WriteIsSafe;
    if actions != [] {
      StepCoversExactly(w, actions[0]);
      InvStep(w, actions[0]);
      if WriteIsSafe(w, actions[0]) { CoveredThroughoutExactly(Step(w, actions[0]), actions[1..]); }
      else { NotCoveredNow(Step(w, actions[0]), actions[1..]); }
    }
  }

  lemma NotCoveredNow(w: World, actions: seq<Action>)
    ensures AlwaysCovered(w, actions) ==> Covered(w)
  {}

  /**
   Nothing queued is lost at any moment of a run exactly when each write of it overwrites only what
   it had loaded or what is final.
   */
  lemma NothingEverLostExactly(actions: seq<Action>)
    ensures AlwaysCovered(EMPTY, actions) <==> WritesAreSafe(EMPTY, actions)
  {
    CoveredThroughoutExactly(EMPTY, actions);
  }

  /** Two enqueues that load the same queue lose the first one to be written. */
  lemma OverlappingEnqueuesLoseOne(w: World, first: nat, second: nat)
    requires Inv(w) && first != second && first in w.enqueues && second in w.enqueues
    ensures var v := Step(Step(w, WriteEnqueue(first)), WriteEnqueue(second));
            v.stale && w.count < v.count && w.count !in v.stored && !Final(v, w.count)
  {
    assert Increasing(w.enqueues[second], w.count);
    var v := Step(w, WriteEnqueue(first));
    assert v.enqueues[second] == w.enqueues[second] && v.stored[|v.stored| - 1] == w.count;
  }

  ghost predicate NoneHalfDone(w: World) {
    && w.enqueues == map[]
    && (forall id :: id in w.flushes ==> !w.flushes[id].stage.Writing?)
  }

  /** Every load of the queue is followed at once by the write it was made for. */
  ghost predicate AtomicRun(w: World, actions: seq<Action>)
    decreases |actions|
  {
    if actions == [] then true
    else if actions[0].LoadForEnqueue? || actions[0].LoadForRemove? then
      && |actions| > 1
      && actions[1] == (if actions[0].LoadForEnqueue? then WriteEnqueue(actions[0].id) else WriteRemove(actions[0].id))
      && AtomicRun(Step(Step(w, actions[0]), actions[1]), actions[2..])
    else AtomicRun(Step(w, actions[0]), actions[1..])
  }

  lemma AtomicPair(w: World, load: Action, write: Action)
    requires NoneHalfDone(w) && !w.stale
    requires (load.LoadForEnqueue? && write == WriteEnqueue(load.id))
          || (load.LoadForRemove? && write == WriteRemove(load.id))
    ensures NoneHalfDone(Step(Step(w, load), write)) && !Step(Step(w, load), write).stale
  {}

  lemma AtomicOther(w: World, a: Action)
    requires NoneHalfDone(w) && !w.stale && !a.LoadForEnqueue? && !a.LoadForRemove?
    ensures NoneHalfDone(Step(w, a)) && !Step(w, a).stale
  {}

  lemma {:induction false} AtomicRunNeverStale(w: World, actions: seq<Action>)
    requires NoneHalfDone(w) && !w.stale && AtomicRun(w, actions)
    ensures !Run(w, actions).stale
    decreases |actions|
  {
    if actions != [] {
      if actions[0].LoadForEnqueue? || actions[0].LoadForRemove? {
        AtomicPair(w, actions[0], actions[1]);
        assert actions[1..][1..] == actions[2..];
        AtomicRunNeverStale(Step(Step(w, actions[0]), actions[1]), actions[2..]);
      } else {
        AtomicOther(w, actions[0]);
        AtomicRunNeverStale(Step(w, actions[0]), actions[1..]);
      }
    }
  }

  /** With `enqueue` and `removeFromQueue` as one step each, nothing is ever lost. */
  lemma AtomicQueueLosesNothing(actions: seq<Action>)
    requires AtomicRun(EMPTY, actions)
    ensures Covered(Run(EMPTY, actions)) && AtMostOnce(Run(EMPTY, actions))
  {
    AtomicRunNeverStale(EMPTY, actions);
    NothingLostNothingDoubled(actions);
  }

  /** One answer of "try again" is enough to let a later mutation overtake an earlier one. */
  lemma RetryReorders(w: World, j: nat, again: nat)
    requires Inv(w) && j != again && Serving(w, j) && Serving(w, again) && Item(w, again) == Item(w, j)
    requires w.jobs[j].cursor + 1 < |w.requests[w.jobs[j].request]|
    requires !Final(w, Item(w, j)) && !Final(w, w.requests[w.jobs[j].request][w.jobs[j].cursor + 1])
    ensures var v := Step(Step(Step(w, Serve(j, Retry)), Serve(j, Apply)), Serve(again, Apply));
            !InOrder(v.effects)
  {
    var s := w.requests[w.jobs[j].request];
    var a, b := Item(w, j), s[w.jobs[j].cursor + 1];
    assert Increasing(s, w.count) && a < b;
    var w1 := Step(w, Serve(j, Retry));
    assert Serving(w1, j) && Item(w1, j) == b && w1.effects == w.effects;
    var w2 := Step(w1, Serve(j, Apply));
    assert w2.effects == w.effects + [b];
    assert w2.jobs[again] == w.jobs[again];
    var v := Step(w2, Serve(again, Apply));
    assert v.effects == w.effects + [b] + [a];
    assert v.effects[|w.effects|] == b && v.effects[|w.effects| + 1] == a;
  }

  /** Two mutations in one batch, which the server has received twice and not yet worked through. */
  const TWICE_RECEIVED := World([0, 1], 2, map[], map[0 := Flush([0, 1], 0, Waiting(0))], [[0, 1]],
                                [Job(0, 0, {}), Job(0, 0, {})], [], {}, false)

  lemma TwoAreQueued() returns (actions: seq<Action>)
    ensures Run(EMPTY, actions) == EMPTY.(stored := [0, 1], count := 2)
  {
    actions := Extend(EMPTY, [], EMPTY, LoadForEnqueue(0));
    var v := Step(EMPTY, LoadForEnqueue(0));
    actions := Extend(EMPTY, actions, v, WriteEnqueue(0));
    v := Step(v, WriteEnqueue(0));
    assert v == EMPTY.(stored := [0], count := 1);
    actions := Extend(EMPTY, actions, v, LoadForEnqueue(0));
    v := Step(v, LoadForEnqueue(0));
    actions := Extend(EMPTY, actions, v, WriteEnqueue(0));
    assert Step(v, WriteEnqueue(0)) == EMPTY.(stored := [0, 1], count := 2);
  }

  lemma TwoAreReceivedTwice() returns (actions: seq<Action>)
    ensures Run(EMPTY, actions) == TWICE_RECEIVED
  {
    actions := TwoAreQueued();
    var v := EMPTY.(stored := [0, 1], count := 2);
    actions := Extend(EMPTY, actions, v, StartFlush(0));
    v := Step(v, StartFlush(0));
    assert v.flushes == map[0 := Flush([0, 1], 0, Sending)];
    assert Batch(v.flushes[0]) == [0, 1];
    actions := Extend(EMPTY, actions, v, Send(0));
    v := Step(v, Send(0));
    assert v == TWICE_RECEIVED.(jobs := []);
    actions := Extend(EMPTY, actions, v, Arrive(0));
    v := Step(v, Arrive(0));
    assert v == TWICE_RECEIVED.(jobs := [Job(0, 0, {})]);
    actions := Extend(EMPTY, actions, v, Arrive(0));
    assert Step(v, Arrive(0)) == TWICE_RECEIVED;
  }

  lemma EmptyIsFine()
    ensures Inv(EMPTY)
  {}

  lemma BothAreOpen()
    ensures Serving(TWICE_RECEIVED, 0) && Serving(TWICE_RECEIVED, 1) && Item(TWICE_RECEIVED, 0) == Item(TWICE_RECEIVED, 1)
    ensures !Final(TWICE_RECEIVED, Item(TWICE_RECEIVED, 0)) && !Final(TWICE_RECEIVED, 1)
  {}

  lemma RetryIsNotStale()
    ensures !Step(Step(Step(TWICE_RECEIVED, Serve(0, Retry)), Serve(0, Apply)), Serve(1, Apply)).stale
  {}

  /** A run from the start, with no stale write, on which a retry reverses two effects. */
  lemma RetryReordersFromStart() returns (actions: seq<Action>)
    ensures !Run(EMPTY, actions).stale && !InOrder(Run(EMPTY, actions).effects)
  {
    hide Step, Inv, InOrder, Serving, Item, Final;
    actions := TwoAreReceivedTwice();
    var v := TWICE_RECEIVED;
    InvRun(EMPTY, actions) by { EmptyIsFine(); }
    BothAreOpen();
    RetryReorders(v, 0, 1);
    actions := Extend(EMPTY, actions, v, Serve(0, Retry));
    v := Step(v, Serve(0, Retry));
    actions := Extend(EMPTY, actions, v, Serve(0, Apply));
    v := Step(v, Serve(0, Apply));
    actions := Extend(EMPTY, actions, v, Serve(1, Apply));
    RetryIsNotStale();
  }

  /** A flush of an empty queue sends nothing, and one that is not answered ends and leaves all else. */
  lemma FlushesEndQuietly(w: World, id: nat)
    ensures w.stored == [] ==> Step(w, StartFlush(id)) == w
    ensures Step(w, GiveUp(id)) ==
            if id in w.flushes && w.flushes[id].stage.Waiting? then w.(flushes := w.flushes - {id}) else w
    ensures id in w.flushes ==> Step(w, StartFlush(id)) == w
  {}

  // --- nothing wedges the queue ----------------------------------------------------------------

  /** A request gets through, is settled, and its answer comes back. */
  predicate GoesWell(a: Action) {
    && !a.LoadForEnqueue? && !a.WriteEnqueue? && !a.GiveUp? && !a.ProcessDeath?
    && (a.Serve? ==> a.verdict != Retry)
  }

  function Elements(s: seq<nat>): set<nat> { set m | m in s }

  lemma {:induction false} WithoutMembers(s: seq<nat>, drop: set<nat>)
    ensures forall m :: m in Without(s, drop) <==> m in s && m !in drop
    decreases |s|
  {
    if s != [] {
      var init, last := s[..|s| - 1], s[|s| - 1];
      assert s == init + [last];
      WithoutMembers(init, drop);
    }
  }

  /** The server is at work on a request and has settled all it has got to. */
  ghost predicate AtWork(w: World, j: nat) {
    && j < |w.jobs| && w.jobs[j].request < |w.requests|
    && w.jobs[j].cursor <= |w.requests[w.jobs[j].request]|
    && w.jobs[j].settled == Elements(w.requests[w.jobs[j].request][..w.jobs[j].cursor])
  }

  ghost predicate OnlyServed(w: World, v: World) {
    && v == w.(jobs := v.jobs, effects := v.effects, refused := v.refused) && |v.jobs| == |w.jobs|
  }

  lemma ServeOne(w: World, j: nat, verdict: Verdict)
    requires AtWork(w, j) && w.jobs[j].cursor < |w.requests[w.jobs[j].request]| && verdict != Retry
    ensures var v := Step(w, Serve(j, verdict));
            && AtWork(v, j) && OnlyServed(w, v)
            && v.jobs[j].request == w.jobs[j].request && v.jobs[j].cursor == w.jobs[j].cursor + 1
  {
    var s, k := w.requests[w.jobs[j].request], w.jobs[j].cursor;
    assert s[..k + 1] == s[..k] + [s[k]];
    assert Elements(s[..k + 1]) == Elements(s[..k]) + {s[k]};
  }

  /** Whatever it decides on each item, short of a retry, the server works a request through. */
  lemma ServeAll(w: World, j: nat, decide: nat -> Verdict) returns (actions: seq<Action>)
    requires AtWork(w, j) && forall m :: decide(m) != Retry
    ensures forall a :: a in actions ==> GoesWell(a)
    ensures var v := Run(w, actions);
            && OnlyServed(w, v) && v.jobs[j].request == w.jobs[j].request
            && v.jobs[j].cursor == |w.requests[w.jobs[j].request]|
            && v.jobs[j].settled == Elements(w.requests[w.jobs[j].request])
    decreases |w.requests[w.jobs[j].request]| - w.jobs[j].cursor
  {
    hide Step, Elements;
    var s, k := w.requests[w.jobs[j].request], w.jobs[j].cursor;
    if k == |s| {
      assert s[..k] == s;
      actions := [];
    } else {
      var a := Serve(j, decide(s[k]));
      ServeOne(w, j, decide(s[k]));
      var rest := ServeAll(Step(w, a), j, decide);
      actions := [a] + rest;
      assert actions[1..] == rest;
    }
  }

  /** The flush `id` is about to send, and has all that is stored still before it. */
  ghost predicate Draining(w: World, id: nat) {
    && id in w.flushes && w.flushes[id].stage.Sending? && w.flushes[id].at < |w.flushes[id].snapshot|
    && forall m :: m in w.stored ==> m in w.flushes[id].snapshot[w.flushes[id].at..]
  }

  /** The request is sent and received. */
  lemma BatchArrives(w: World, id: nat) returns (actions: seq<Action>)
    requires Draining(w, id)
    ensures forall a :: a in actions ==> GoesWell(a)
    ensures var v, r, f := Run(w, actions), |w.requests|, w.flushes[id];
            && v.stored == w.stored && v.stale == w.stale && |v.requests| == r + 1 && v.requests[r] == Batch(f)
            && id in v.flushes && v.flushes[id] == f.(stage := Waiting(r))
            && |v.jobs| == |w.jobs| + 1 && v.jobs[|w.jobs|] == Job(r, 0, {})
  {
    var v := Step(w, Send(id));
    actions := Extend(w, [], w, Send(id));
    actions := Extend(w, actions, v, Arrive(|w.requests|));
  }

  /** The answer is received, and what it settles leaves the queue. */
  lemma BatchLeaves(w: World, id: nat, j: nat) returns (actions: seq<Action>)
    requires id in w.flushes && j < |w.jobs| && w.jobs[j].request < |w.requests|
    requires w.flushes[id].stage == Waiting(w.jobs[j].request)
    requires w.jobs[j].cursor == |w.requests[w.jobs[j].request]| && w.jobs[j].settled != {}
    ensures forall a :: a in actions ==> GoesWell(a)
    ensures var v, f, settled := Run(w, actions), w.flushes[id], w.jobs[j].settled;
            && v.stored == Without(w.stored, settled) && v.stale == w.stale
            && (if NextAt(f) < |f.snapshot| then id in v.flushes && v.flushes[id] == Flush(f.snapshot, NextAt(f), Sending)
                else id !in v.flushes)
  {
    var v := Step(w, Receive(id, j));
    actions := Extend(w, [], w, Receive(id, j));
    actions := Extend(w, actions, v, LoadForRemove(id));
    v := Step(v, LoadForRemove(id));
    actions := Extend(w, actions, v, WriteRemove(id));
  }

  lemma HasMember(s: seq<nat>)
    ensures s != [] ==> exists m :: m in s
  {
    if s != [] { assert s[0] in s; }
  }

  /** One batch of it goes well: the flush goes on with the rest, or nothing is left. */
  lemma BatchGoesWell(w: World, id: nat, decide: nat -> Verdict) returns (actions: seq<Action>)
    requires Draining(w, id) && forall m :: decide(m) != Retry
    ensures forall a :: a in actions ==> GoesWell(a)
    ensures var v := Run(w, actions);
            && v.stale == w.stale
            && (if NextAt(w.flushes[id]) < |w.flushes[id].snapshot|
                then Draining(v, id) && v.flushes[id].snapshot == w.flushes[id].snapshot && v.flushes[id].at == NextAt(w.flushes[id])
                else v.stored == [])
  {
    hide Step, Without;
    var f, j := w.flushes[id], |w.jobs|;
    var first := BatchArrives(w, id);
    var w1 := Run(w, first);
    assert AtWork(w1, j) by { assert Batch(f)[..0] == []; }
    var second := ServeAll(w1, j, decide);
    var w2 := Run(w1, second);
    assert f.snapshot[f.at] == Batch(f)[0] && f.snapshot[f.at] in Elements(Batch(f));
    var third := BatchLeaves(w2, id, j);
    actions := first + second + third;
    RunAppend(w, first + second, third);
    RunAppend(w, first, second);
    var v := Run(w, actions);
    WithoutMembers(w.stored, Elements(Batch(f)));
    assert f.snapshot[f.at..] == Batch(f) + f.snapshot[NextAt(f)..];
    assert forall m :: m in v.stored ==> m in f.snapshot[NextAt(f)..];
    assert NextAt(f) == |f.snapshot| ==> f.snapshot[NextAt(f)..] == [];
    HasMember(v.stored);
  }

  lemma FlushDrains(w: World, id: nat, decide: nat -> Verdict) returns (actions: seq<Action>)
    requires Draining(w, id) && forall m :: decide(m) != Retry
    ensures forall a :: a in actions ==> GoesWell(a)
    ensures Run(w, actions).stored == [] && Run(w, actions).stale == w.stale
    decreases |w.flushes[id].snapshot| - w.flushes[id].at
  {
    var first := BatchGoesWell(w, id, decide);
    var v := Run(w, first);
    var rest := [];
    if NextAt(w.flushes[id]) < |w.flushes[id].snapshot| { rest := FlushDrains(v, id, decide); }
    actions := first + rest;
    RunAppend(w, first, rest);
  }

  lemma FreshId(ids: set<nat>) returns (id: nat)
    ensures forall i :: i in ids ==> i < id
    decreases |ids|
  {
    if ids == {} {
      id := 0;
    } else {
      var i :| i in ids;
      var above := FreshId(ids - {i});
      assert forall k :: k in ids ==> k == i || k in ids - {i};
      id := if above > i then above else i + 1;
    }
  }

  /**
   Nothing wedges the queue.  From every state, whatever requests and flushes are under way and
   however the server decides on each mutation, applied or refused, one more flush that gets through
   empties the queue.
   */
  lemma QueueDrains(w: World, decide: nat -> Verdict) returns (actions: seq<Action>)
    requires forall m :: decide(m) != Retry
    ensures forall a :: a in actions ==> GoesWell(a)
    ensures Run(w, actions).stored == [] && Run(w, actions).stale == w.stale
  {
    if w.stored == [] {
      actions := [];
    } else {
      var id := FreshId(w.flushes.Keys);
      var v := Step(w, StartFlush(id));
      assert v.flushes[id].snapshot[0..] == w.stored;
      var rest := FlushDrains(v, id, decide);
      actions := [StartFlush(id)] + rest;
      assert actions[1..] == rest;
    }
  }

  lemma {:induction false} CountStays(w: World, actions: seq<Action>)
    requires forall a :: a in actions ==> GoesWell(a)
    ensures Run(w, actions).count == w.count
    decreases |actions|
  {
    if actions != [] {
      assert GoesWell(actions[0]) && Step(w, actions[0]).count == w.count;
      CountStays(Step(w, actions[0]), actions[1..]);
    }
  }

  /** So as long as no write was stale, every mutation queued so far can get its final answer. */
  lemma EveryMutationIsAnswered(w: World, decide: nat -> Verdict) returns (actions: seq<Action>)
    requires Inv(w) && !w.stale && forall m :: decide(m) != Retry
    ensures forall a :: a in actions ==> GoesWell(a)
    ensures forall m: nat :: m < w.count ==> Final(Run(w, actions), m)
  {
    actions := QueueDrains(w, decide);
    InvRun(w, actions);
    CountStays(w, actions);
  }
}
