/**
 The rider's position sharing as a protocol over its asynchronous steps.

 A call to one of the module's functions is a process that runs from one `await` to the next.
 Calls to the operating system have two further points of their own: `Carry` is the moment the
 system does (or reads) what it was asked, `Resume` the moment the caller hears about it.  Any
 number of calls may be in flight, and any interleaving of their steps is a run.
 */
module LocationSharing {
  import opened Options

  type Token = nat
  type Ping = int

  const BUFFER_MAX := 120

  /** `slice(-BUFFER_MAX)`. */
  function Newest(s: seq<Ping>): seq<Ping> {
    if |s| <= BUFFER_MAX then s else s[|s| - BUFFER_MAX..]
  }

  datatype Status = Off | Denied | Sharing(background: bool) | Pending(buffered: nat)

  /** The two system calls of `stopLocationTask`: is the task registered, and if so unregister it. */
  datatype Unregister = Asking | Asked(registered: bool) | Stopping | Stopped

  /** What a `startSharing` in flight is waiting for. */
  datatype Wait =
    | ForegroundPermission
    | ForegroundPrompt
    | LocationServices
    | BackgroundPermission
    | Watching
    | WatchStarted(sub: nat)
    | Restarting(u: Unregister)
    | Channel
    | Registering
    | Registered
    | CleaningUp(u: Unregister)

  /** How far a wake-up of the background task has got. */
  datatype Stage =
    | LoadingSession
    | LoadedSession(session: Option<Token>)
    | Posting(token: Token)
    | Unregistering(u: Unregister)

  datatype Proc =
    | Start(mine: nat, token: Token, background: bool, wait: Wait)
    | Stop(u: Unregister)
    | Flush(token: Token, sending: seq<Ping>)
    | Wake(pings: seq<Ping>, stage: Stage)

  datatype World = World(
    // the module's own state
    foregroundOnly: bool,
    generation: nat,
    timer: Option<Token>,
    watcher: Option<nat>,
    buffer: seq<Ping>,
    status: Status,
    // the phone
    registered: bool,
    live: set<nat>,
    session: Option<Token>,
    // the calls in flight
    procs: map<nat, Proc>,
    next: nat)

  datatype Action =
    | StartSharing(token: Token)
    | StopSharing
    | FlushNow(token: Token)
    | Tick
    | WatcherFix(sub: nat, fix: Ping)
    | TaskFixes(fixes: seq<Ping>)
      // the call `id` goes on after its await; `yes` is the answer to a permission prompt
    | Resume(id: nat, yes: bool)
      // the request of the flush or wake-up `id` is settled
    | Sent(id: nat, ok: bool, background: bool)
      // the system does what the call `id` is waiting for
    | Carry(id: nat)
      // a call inside startSharing rejects, without having taken effect
    | Reject(id: nat)
      // the system fails to look up or unregister the task for stopLocationTask, which swallows it
    | UnregisterRejects(id: nat)
      // the system registers the task and still rejects the call
    | RegisterRejects(id: nat)
    | SaveSession(token: Token)
    | ClearSession
    | ProcessDeath

  // --- one step --------------------------------------------------------------------------------

  function Put(w: World, id: nat, p: Proc): World { w.(procs := w.procs[id := p]) }

  function End(w: World, id: nat): World { w.(procs := w.procs - {id}) }

  function Spawn(w: World, p: Proc): World { w.(procs := w.procs[w.next := p], next := w.next + 1) }

  function RemoveWatcher(w: World): World {
    match w.watcher
    case None => w
    case Some(sub) => w.(live := w.live - {sub}, watcher := None)
  }

  /** What stopLocationTask asks for next; None when it is finished. */
  function NextUnregister(u: Unregister): Option<Unregister> {
    match u
    case Asking => Some(Asking)
    case Asked(registered) => if registered then Some(Stopping) else None
    case Stopping => Some(Stopping)
    case Stopped => None
  }

  /** Where a step of one call leads: the new state around it, and what the call waits for next, if anything. */
  datatype Next = Next(w: World, p: Option<Proc>)

  function Continue(id: nat, n: Next): World {
    match n.p case Some(p) => Put(n.w, id, p) case None => End(n.w, id)
  }

  /** The parts of the state that only sends, saves and new calls touch. */
  predicate SameFrame(v: World, w: World) {
    && v.foregroundOnly == w.foregroundOnly && v.generation == w.generation && v.buffer == w.buffer
    && v.session == w.session && v.procs == w.procs
  }

  /** The synchronous end of startSharing, once everything it set up is in place. */
  function Finish(w: World, p: Proc): (n: Next)
    requires p.Start?
    ensures SameFrame(n.w, w) && n.w.registered == w.registered && n.w.next == w.next
    ensures n.p.Some? ==> n.p.value.Start? && n.p.value.mine == p.mine && n.p.value.token == p.token
    ensures n.w.timer == w.timer || (p.mine == w.generation && n.w.timer == Some(p.token))
  {
    if p.mine != w.generation then
      if w.foregroundOnly then Next(RemoveWatcher(w), None) else Next(w, Some(p.(wait := CleaningUp(Asking))))
    else
      Next(w.(status := Sharing(p.background),
              timer := if w.timer.None? then Some(p.token) else w.timer), None)
  }

  function ResumeStart(w: World, p: Proc, yes: bool): (n: Next)
    requires p.Start?
    ensures SameFrame(n.w, w) && n.w.registered == w.registered && n.w.next == w.next
    ensures n.p.Some? ==> n.p.value.Start? && n.p.value.mine == p.mine && n.p.value.token == p.token
    ensures n.w.timer == w.timer || (p.mine == w.generation && n.w.timer == Some(p.token))
  {
    var stale := p.mine != w.generation;
    match p.wait
    case ForegroundPermission =>
      if stale then Next(w, None)
      else Next(w, Some(p.(wait := if yes then LocationServices else ForegroundPrompt)))
    case ForegroundPrompt =>
      if stale then Next(w, None)
      else if !yes then Next(w.(status := Denied), None)
      else Next(w, Some(p.(wait := LocationServices)))
    case LocationServices =>
      if stale then Next(w, None)
      else if !yes then Next(w.(status := Denied), None)
      else Next(w, Some(p.(wait := BackgroundPermission)))
    case BackgroundPermission =>
      if stale then Next(w, None)
      else if !w.foregroundOnly then Next(w, Some(p.(background := yes, wait := Restarting(Asking))))
      else if w.watcher.Some? then Finish(w, p.(background := false))
      else Next(w, Some(p.(background := false, wait := Watching)))
    case Watching => Next(w, Some(p))
    case WatchStarted(sub) =>
      if stale || w.watcher.Some? then Next(w.(live := w.live - {sub}), None)
      else Finish(w.(watcher := Some(sub)), p)
    case Restarting(u) =>
      (match NextUnregister(u)
       case Some(v) => Next(w, Some(p.(wait := Restarting(v))))
       case None => Next(w, Some(p.(wait := Channel))))
    case Channel =>
      if stale then Next(w, None) else Next(w, Some(p.(wait := Registering)))
    case Registering => Next(w, Some(p))
    case Registered => Finish(w, p)
    case CleaningUp(u) =>
      (match NextUnregister(u)
       case Some(v) => Next(w, Some(p.(wait := CleaningUp(v))))
       case None => Next(w, None))
  }

  function ResumeWake(w: World, p: Proc): (n: Next)
    requires p.Wake?
  {
    match p.stage
    case LoadingSession => Next(w, Some(p))
    case LoadedSession(session) =>
      if session.Some? then Next(w, Some(p.(stage := Posting(session.value))))
      else if w.foregroundOnly then Next(RemoveWatcher(w), None)
      else Next(w, Some(p.(stage := Unregistering(Asking))))
    case Posting(_) => Next(w, Some(p))
    case Unregistering(u) =>
      (match NextUnregister(u)
       case Some(v) => Next(w, Some(p.(stage := Unregistering(v))))
       case None => Next(w, None))
  }

  function ResumeCall(w: World, p: Proc, yes: bool): (n: Next)
    ensures SameFrame(n.w, w) && n.w.registered == w.registered && n.w.next == w.next
    ensures p.Flush? ==> n.p == Some(p)
    ensures n.p.Some? ==> (n.p.value.Flush? <==> p.Flush?) && (n.p.value.Start? <==> p.Start?)
    ensures p.Start? && n.p.Some? ==> n.p.value.mine == p.mine && n.p.value.token == p.token
    ensures n.w.timer == w.timer || (p.Start? && p.mine == w.generation && n.w.timer == Some(p.token))
  {
    match p
    case Start(_, _, _, _) => ResumeStart(w, p, yes)
    case Stop(u) =>
      (match NextUnregister(u)
       case Some(v) => Next(w, Some(Stop(v)))
       case None => Next(w, None))
    case Flush(_, _) => Next(w, Some(p))
    case Wake(_, _) => ResumeWake(w, p)
  }

  function ResumeProc(w: World, id: nat, yes: bool): World {
    if id !in w.procs then w else Continue(id, ResumeCall(w, w.procs[id], yes))
  }

  /** The system's side of a lookup or an unregistration. */
  function CarryUnregister(w: World, u: Unregister): (World, Unregister) {
    match u
    case Asking => (w, Asked(w.registered))
    case Asked(_) => (w, u)
    case Stopping => (w.(registered := false), Stopped)
    case Stopped => (w, u)
  }

  function CarryCall(w: World, p: Proc): (r: (World, Proc))
    ensures SameFrame(r.0, w) && r.0.timer == w.timer && r.0.watcher == w.watcher && r.0.status == w.status
    ensures p.Flush? || r.1.Flush? ==> r.1 == p
    ensures p.Start? ==> r.1.Start? && r.1.mine == p.mine && r.1.token == p.token
    ensures r.0.next >= w.next
  {
    match p
    case Start(_, _, _, Watching) =>
      (w.(live := w.live + {w.next}, next := w.next + 1), p.(wait := WatchStarted(w.next)))
    case Start(_, _, _, Restarting(u)) =>
      var (v, r) := CarryUnregister(w, u);
      (v, p.(wait := Restarting(r)))
    case Start(_, _, _, Registering) =>
      (w.(registered := true), p.(wait := Registered))
    case Start(_, _, _, CleaningUp(u)) =>
      var (v, r) := CarryUnregister(w, u);
      (v, p.(wait := CleaningUp(r)))
    case Stop(u) =>
      var (v, r) := CarryUnregister(w, u);
      (v, Stop(r))
    case Wake(_, LoadingSession) =>
      (w, p.(stage := LoadedSession(w.session)))
    case Wake(_, Unregistering(u)) =>
      var (v, r) := CarryUnregister(w, u);
      (v, p.(stage := Unregistering(r)))
    case _ => (w, p)
  }

  function CarryProc(w: World, id: nat): World {
    if id !in w.procs then w else
    var (v, p) := CarryCall(w, w.procs[id]);
    Put(v, id, p)
  }

  /** Take the buffer and send it, unless there is nothing to send. */
  function TakeBuffer(w: World, token: Token): World {
    if w.buffer == [] then w else Spawn(w.(buffer := []), Flush(token, w.buffer))
  }

  function SettleSend(w: World, id: nat, ok: bool, background: bool): World {
    if id !in w.procs then w else
    match w.procs[id]
    case Flush(_, sending) =>
      if ok then End(w.(status := Sharing(background)), id)
      else
        var kept := Newest(sending + w.buffer);
        End(w.(buffer := kept, status := Pending(|kept|)), id)
    case Wake(pings, Posting(_)) =>
      if ok then End(w.(status := Sharing(true)), id)
      else End(w.(buffer := Newest(w.buffer + pings)), id)
    case _ => w
  }

  /** startSharing's `catch`; the waits that cannot reject leave the call where it is. */
  function RejectProc(w: World, id: nat): World {
    if id !in w.procs || !w.procs[id].Start? then w else
    var p := w.procs[id];
    match p.wait
    case ForegroundPermission | ForegroundPrompt | Watching | Restarting(_) | Registering =>
      End(if p.mine == w.generation then w.(status := Denied) else w, id)
    case _ => w
  }

  /** stopLocationTask swallows a rejection and returns. */
  function SwallowUnregister(w: World, id: nat): World {
    if id !in w.procs then w else
    match w.procs[id]
    case Start(_, _, _, CleaningUp(_)) => End(w, id)
    case Stop(_) => End(w, id)
    case Wake(_, Unregistering(_)) => End(w, id)
    case _ => w
  }

  function StopStep(w: World): World {
    var v := w.(generation := w.generation + 1, timer := None, buffer := [], status := Off);
    if w.foregroundOnly then RemoveWatcher(v) else Spawn(v, Stop(Asking))
  }

  function Step(w: World, a: Action): World {
    match a
    case StartSharing(token) => Spawn(w, Start(w.generation, token, false, ForegroundPermission))
    case StopSharing => StopStep(w)
    case FlushNow(token) => TakeBuffer(w, token)
    case Tick => if w.timer.Some? then TakeBuffer(w, w.timer.value) else w
    case WatcherFix(sub, fix) => if sub in w.live then w.(buffer := Newest(w.buffer + [fix])) else w
    case TaskFixes(fixes) => if w.registered && fixes != [] then Spawn(w, Wake(fixes, LoadingSession)) else w
    case Resume(id, yes) => ResumeProc(w, id, yes)
    case Sent(id, ok, background) => SettleSend(w, id, ok, background)
    case Carry(id) => CarryProc(w, id)
    case Reject(id) => RejectProc(w, id)
    case UnregisterRejects(id) => SwallowUnregister(w, id)
    case RegisterRejects(id) =>
      if id in w.procs && w.procs[id].Start? && w.procs[id].wait.Registering?
      then RejectProc(w.(registered := true), id) else w
    case SaveSession(token) => w.(session := Some(token))
    case ClearSession => w.(session := None)
    case ProcessDeath =>
      w.(generation := 0, timer := None, watcher := None, buffer := [], status := Off, live := {}, procs := map[])
  }

  function Run(w: World, actions: seq<Action>): World
    decreases |actions|
  {
    if actions == [] then w else Run(Step(w, actions[0]), actions[1..])
  }

  /** A process has just begun: nothing of the module is left but what the phone still has registered. */
  ghost predicate Init(w: World) {
    && w.generation == 0 && w.timer.None? && w.watcher.None? && w.buffer == [] && w.status == Off
    && w.live == {} && w.procs == map[]
    && (w.foregroundOnly ==> !w.registered)
  }

  // --- what every step keeps -------------------------------------------------------------------

  /** A wait that belongs to the builds with background location. */
  predicate BackgroundWait(x: Wait) {
    x.Restarting? || x.Channel? || x.Registering? || x.Registered? || x.CleaningUp?
  }

  ghost predicate ProcOk(w: World, p: Proc) {
    match p
    case Start(mine, _, _, wait) =>
      && mine <= w.generation
      && (if w.foregroundOnly then !BackgroundWait(wait) else !wait.Watching? && !wait.WatchStarted?)
    case Stop(_) => !w.foregroundOnly
    case Flush(_, sending) => 0 < |sending| <= BUFFER_MAX
    case Wake(pings, _) => !w.foregroundOnly && pings != []
  }

  /** `sub` is the current watcher, or a start in flight still holds it and will place or remove it. */
  ghost predicate Held(w: World, sub: nat) {
    || w.watcher == Some(sub)
    || exists id :: id in w.procs && w.procs[id].Start? && w.procs[id].wait == WatchStarted(sub)
  }

  ghost predicate Wf(w: World) {
    && |w.buffer| <= BUFFER_MAX
    && (if w.foregroundOnly then !w.registered else w.watcher.None?)
    && (forall id :: id in w.procs ==> id < w.next)
    && (forall id :: id in w.procs ==> ProcOk(w, w.procs[id]))
    && (forall sub :: sub in w.live ==> Held(w, sub))
  }

  /** What a step of the process `id` (or a step that adds a process there) may change. */
  ghost predicate Moves(w: World, v: World, id: nat) {
    && v.foregroundOnly == w.foregroundOnly && v.generation >= w.generation && v.next >= w.next
    && |v.buffer| <= BUFFER_MAX
    && v.live <= w.live
    && (v.watcher == w.watcher || v.watcher.None? || w.watcher.None?)
    && (w.watcher.Some? && w.watcher != v.watcher ==> w.watcher.value !in v.live)
    && (if v.foregroundOnly then !v.registered else v.watcher.None?)
    && (forall i :: i in w.procs && i != id ==> i in v.procs && v.procs[i] == w.procs[i])
    && (forall i :: i in v.procs && i != id ==> i in w.procs)
    && (id in v.procs ==> id < v.next && ProcOk(v, v.procs[id]))
    && (id in w.procs && w.procs[id].Start? && w.procs[id].wait.WatchStarted? ==>
          var sub := w.procs[id].wait.sub;
          sub !in v.live || v.watcher == Some(sub) || (id in v.procs && v.procs[id] == w.procs[id]))
  }

  lemma WfMoves(w: World, v: World, id: nat)
    requires Wf(w) && Moves(w, v, id)
    ensures Wf(v)
  {
    forall i | i in v.procs
      ensures i < v.next && ProcOk(v, v.procs[i])
    {
      if i != id { assert ProcOk(w, w.procs[i]); }
    }
    forall sub | sub in v.live
      ensures Held(v, sub)
    {
      assert Held(w, sub);
      if w.watcher != Some(sub) {
        var i :| i in w.procs && w.procs[i].Start? && w.procs[i].wait == WatchStarted(sub);
        if i != id { assert v.procs[i] == w.procs[i]; }
      }
    }
  }

  /** A start goes on with the waits of its build, and lets go of a watcher only by placing or removing it. */
  lemma ResumeStartKeeps(w: World, p: Proc, yes: bool)
    requires p.Start? && ProcOk(w, p) && (!w.foregroundOnly ==> w.watcher.None?)
    ensures var n := ResumeStart(w, p, yes);
            && n.w.live <= w.live
            && (n.w.watcher == w.watcher || n.w.watcher.None? || w.watcher.None?)
            && (w.watcher.Some? && w.watcher != n.w.watcher ==> w.watcher.value !in n.w.live)
            && (!w.foregroundOnly ==> n.w.watcher.None?)
            && (n.p.Some? ==> ProcOk(w, n.p.value))
            && (p.wait.WatchStarted? ==> p.wait.sub !in n.w.live || n.w.watcher == Some(p.wait.sub))
  {
    match p.wait
    case Restarting(u) =>
    case CleaningUp(u) =>
    case _ =>
  }

  lemma ResumeStartMoves(w: World, id: nat, yes: bool)
    requires Wf(w) && id in w.procs && w.procs[id].Start?
    ensures Moves(w, Continue(id, ResumeStart(w, w.procs[id], yes)), id)
  {
    hide ResumeStart;
    assert ProcOk(w, w.procs[id]);
    ResumeStartKeeps(w, w.procs[id], yes);
  }

  lemma ResumeMoves(w: World, id: nat, yes: bool)
    requires Wf(w)
    ensures Moves(w, ResumeProc(w, id, yes), id)
  {
    if id in w.procs {
      assert ProcOk(w, w.procs[id]);
      if w.procs[id].Start? { ResumeStartMoves(w, id, yes); }
    }
  }

  lemma CarryMoves(w: World, id: nat)
    requires Wf(w)
    requires id in w.procs && w.procs[id].Start? ==> !w.procs[id].wait.Watching?
    ensures Moves(w, CarryProc(w, id), id)
  {
    if id in w.procs { assert ProcOk(w, w.procs[id]); }
  }

  /** A new watcher is held by the call that asked for it. */
  lemma CarryWatchingWf(w: World, id: nat)
    requires Wf(w) && id in w.procs && w.procs[id].Start? && w.procs[id].wait.Watching?
    ensures Wf(CarryProc(w, id))
  {
    var v := CarryProc(w, id);
    assert ProcOk(w, w.procs[id]);
    WfMoves(w, v.(live := w.live), id);
    assert v.procs[id].wait == WatchStarted(w.next);
    forall sub | sub in v.live
      ensures Held(v, sub)
    {
      if sub != w.next {
        assert Held(v.(live := w.live), sub);
      }
    }
    forall i | i in v.procs
      ensures ProcOk(v, v.procs[i])
    {
      assert ProcOk(v.(live := w.live), v.procs[i]);
    }
  }

  lemma SettleMoves(w: World, id: nat, ok: bool, background: bool)
    requires Wf(w)
    ensures Moves(w, SettleSend(w, id, ok, background), id)
  {
    if id in w.procs { assert ProcOk(w, w.procs[id]); }
  }

  lemma RejectMoves(w: World, id: nat)
    requires Wf(w)
    ensures Moves(w, RejectProc(w, id), id) && Moves(w, SwallowUnregister(w, id), id)
  {
    if id in w.procs { assert ProcOk(w, w.procs[id]); }
  }

  lemma RegisterMoves(w: World, id: nat)
    requires Wf(w) && id in w.procs && w.procs[id].Start? && w.procs[id].wait.Registering?
    ensures Moves(w, Step(w, RegisterRejects(id)), id)
  {
    assert ProcOk(w, w.procs[id]);
  }

  lemma SpawnMoves(w: World, a: Action)
    requires Wf(w)
    requires !a.Resume? && !a.Sent? && !a.Carry? && !a.Reject? && !a.UnregisterRejects? && !a.RegisterRejects?
    requires !a.ProcessDeath?
    ensures Moves(w, Step(w, a), w.next)
  {
    hide ResumeProc, CarryProc, SettleSend, RejectProc, SwallowUnregister;
    match a
    case StopSharing => StopMoves(w);
    case _ =>
  }

  lemma StopMoves(w: World)
    requires Wf(w)
    ensures Moves(w, StopStep(w), w.next)
  {}


  lemma WfInit(w: World)
    requires Init(w)
    ensures Wf(w)
  {}

  lemma WfStep(w: World, a: Action)
    requires Wf(w)
    ensures Wf(Step(w, a))
  {
    hide Moves, ResumeProc, CarryProc, SettleSend, TakeBuffer;
    match a
    case Resume(id, yes) => ResumeMoves(w, id, yes); WfMoves(w, Step(w, a), id);
    case Sent(id, ok, background) => SettleMoves(w, id, ok, background); WfMoves(w, Step(w, a), id);
    case Carry(id) =>
      if id in w.procs && w.procs[id].Start? && w.procs[id].wait.Watching? {
        CarryWatchingWf(w, id);
      } else {
        CarryMoves(w, id);
        WfMoves(w, Step(w, a), id);
      }
    case Reject(id) => RejectMoves(w, id); WfMoves(w, Step(w, a), id);
    case UnregisterRejects(id) => RejectMoves(w, id); WfMoves(w, Step(w, a), id);
    case RegisterRejects(id) =>
      if id in w.procs && w.procs[id].Start? && w.procs[id].wait.Registering? {
        RegisterMoves(w, id);
        WfMoves(w, Step(w, a), id);
      }
    case ProcessDeath => WfInit(Step(w, a));
    case _ => SpawnMoves(w, a); WfMoves(w, Step(w, a), w.next);
  }

  lemma SameBuild(w: World, a: Action)
    ensures Step(w, a).foregroundOnly == w.foregroundOnly
  {
    hide ResumeCall, CarryCall;
  }

  lemma {:induction false} WfRun(w: World, actions: seq<Action>)
    requires Wf(w)
    ensures Wf(Run(w, actions))
    decreases |actions|
  {
    hide Wf, Step;
    if actions != [] {
      WfStep(w, actions[0]);
      WfRun(Step(w, actions[0]), actions[1..]);
    }
  }

  // --- nobody is tracked after sign-out --------------------------------------------------------

  /** stopLocationTask has yet to look, or has found the task and has yet to unregister it. */
  predicate Outstanding(u: Unregister) {
    u == Asking || u == Asked(true) || u == Stopping
  }

  /**
   This call will unregister the task when it goes on.  A stop and a start that was overtaken by a
   stop always will; a wake-up will (`healing`) as long as nobody is signed in.
   */
  predicate WillUnregister(p: Proc, healing: bool) {
    match p
    case Start(_, _, _, wait) => wait.Registered? || (wait.CleaningUp? && Outstanding(wait.u))
    case Stop(u) => Outstanding(u)
    case Flush(_, _) => false
    case Wake(_, stage) =>
      && healing
      && (stage.LoadingSession? || stage == LoadedSession(None) || (stage.Unregistering? && Outstanding(stage.u)))
  }

  /** No sharing begins, the system keeps its word, and the process lives on. */
  predicate Calm(a: Action, healing: bool) {
    && !a.StartSharing? && !a.UnregisterRejects? && !a.RegisterRejects? && !a.ProcessDeath?
    && (healing ==> !a.SaveSession?)
  }

  ghost predicate Stale(w: World, p: Proc) { p.Start? ==> p.mine < w.generation }

  ghost predicate Winding(w: World, healing: bool) {
    && Wf(w)
    && w.timer.None? && w.watcher.None?
    && (healing ==> w.session.None?)
    && (forall id :: id in w.procs ==> Stale(w, w.procs[id]))
    && (w.registered ==> exists id :: id in w.procs && WillUnregister(w.procs[id], healing))
  }

  /** What a step does to the process `id` is enough to keep the winding-down going. */
  ghost predicate WindsOn(w: World, v: World, id: nat, healing: bool) {
    && v.timer.None? && v.watcher.None?
    && (healing ==> v.session.None?)
    && v.generation >= w.generation
    && (forall i :: i in w.procs && i != id ==> i in v.procs && v.procs[i] == w.procs[i])
    && (forall i :: i in v.procs && i != id ==> i in w.procs)
    && (id in v.procs ==> Stale(v, v.procs[id]))
    && (v.registered ==>
          || (id in v.procs && WillUnregister(v.procs[id], healing))
          || (w.registered && (id in w.procs ==> !WillUnregister(w.procs[id], healing))))
  }

  lemma WindingMoves(w: World, v: World, id: nat, healing: bool)
    requires Winding(w, healing) && Wf(v) && WindsOn(w, v, id, healing)
    ensures Winding(v, healing)
  {
    forall i | i in v.procs
      ensures Stale(v, v.procs[i])
    {
      if i != id { assert Stale(w, w.procs[i]); }
    }
    if v.registered && !(id in v.procs && WillUnregister(v.procs[id], healing)) {
      var r :| r in w.procs && WillUnregister(w.procs[r], healing);
      assert v.procs[r] == w.procs[r];
    }
  }

  lemma ResumeStaleStartWinds(w: World, id: nat, yes: bool, healing: bool)
    requires w.timer.None? && w.watcher.None? && (healing ==> w.session.None?)
    requires w.registered ==> !w.foregroundOnly
    requires id in w.procs && w.procs[id].Start? && w.procs[id].mine < w.generation
    ensures WindsOn(w, Continue(id, ResumeStart(w, w.procs[id], yes)), id, healing)
  {
    match w.procs[id].wait
    case Restarting(u) =>
    case CleaningUp(u) =>
    case _ =>
  }

  lemma ResumeWakeWinds(w: World, id: nat, healing: bool)
    requires w.timer.None? && w.watcher.None? && (healing ==> w.session.None?)
    requires w.registered ==> !w.foregroundOnly
    requires id in w.procs && w.procs[id].Wake?
    ensures WindsOn(w, Continue(id, ResumeWake(w, w.procs[id])), id, healing)
  {}

  lemma ResumeWinds(w: World, id: nat, yes: bool, healing: bool)
    requires Winding(w, healing)
    ensures WindsOn(w, ResumeProc(w, id, yes), id, healing)
  {
    if id in w.procs {
      assert Stale(w, w.procs[id]);
      match w.procs[id]
      case Start(_, _, _, _) => ResumeStaleStartWinds(w, id, yes, healing);
      case Wake(_, _) => ResumeWakeWinds(w, id, healing);
      case Stop(_) =>
      case Flush(_, _) =>
    }
  }

  lemma CarryWinds(w: World, id: nat, healing: bool)
    requires Winding(w, healing)
    ensures WindsOn(w, CarryProc(w, id), id, healing)
  {
    if id in w.procs { assert Stale(w, w.procs[id]); }
  }

  lemma SettleWinds(w: World, id: nat, ok: bool, background: bool, healing: bool)
    requires Winding(w, healing)
    ensures WindsOn(w, SettleSend(w, id, ok, background), id, healing)
  {}

  lemma RejectWinds(w: World, id: nat, healing: bool)
    requires Winding(w, healing)
    ensures WindsOn(w, RejectProc(w, id), id, healing)
  {
    if id in w.procs { assert Stale(w, w.procs[id]); }
  }

  lemma OtherWinds(w: World, a: Action, healing: bool)
    requires Winding(w, healing) && Calm(a, healing)
    requires !a.Resume? && !a.Sent? && !a.Carry? && !a.Reject?
    ensures WindsOn(w, Step(w, a), w.next, healing)
  {}

  lemma WindingStep(w: World, a: Action, healing: bool)
    requires Winding(w, healing) && Calm(a, healing)
    ensures Winding(Step(w, a), healing)
  {
    WfStep(w, a);
    match a
    case Resume(id, yes) => ResumeWinds(w, id, yes, healing); WindingMoves(w, Step(w, a), id, healing);
    case Sent(id, ok, b) => SettleWinds(w, id, ok, b, healing); WindingMoves(w, Step(w, a), id, healing);
    case Carry(id) => CarryWinds(w, id, healing); WindingMoves(w, Step(w, a), id, healing);
    case Reject(id) => RejectWinds(w, id, healing); WindingMoves(w, Step(w, a), id, healing);
    case _ => OtherWinds(w, a, healing); WindingMoves(w, Step(w, a), w.next, healing);
  }

  lemma {:induction false} WindingRun(w: World, actions: seq<Action>, healing: bool)
    requires Winding(w, healing)
    requires forall a :: a in actions ==> Calm(a, healing)
    ensures Winding(Run(w, actions), healing)
    decreases |actions|
  {
    hide Winding, Step;
    if actions != [] {
      WindingStep(w, actions[0], healing);
      WindingRun(Step(w, actions[0]), actions[1..], healing);
    }
  }

  lemma {:induction false} RunAppend(w: World, first: seq<Action>, second: seq<Action>)
    ensures Run(w, first + second) == Run(Run(w, first), second)
    decreases |first|
  {
    hide Step;
    if first == [] {
      assert first + second == second;
    } else {
      assert (first + second)[1..] == first[1..] + second;
      RunAppend(Step(w, first[0]), first[1..], second);
    }
  }

  lemma StopWinds(w: World)
    requires Wf(w)
    ensures Winding(Step(w, StopSharing), false)
  {
    var v := Step(w, StopSharing);
    WfStep(w, StopSharing);
    forall id | id in v.procs
      ensures Stale(v, v.procs[id])
    {
      if id != w.next { assert ProcOk(w, w.procs[id]); }
    }
    if !w.foregroundOnly {
      assert WillUnregister(v.procs[w.next], false);
    }
  }

  /** Nothing that sets sharing up or takes it down is in flight. */
  ghost predicate Settled(w: World) {
    forall id :: id in w.procs ==> !w.procs[id].Start? && !w.procs[id].Stop?
  }

  function UnregisterSteps(u: Unregister): nat {
    match u case Asking => 4 case Asked(_) => 3 case Stopping => 2 case Stopped => 1
  }

  /** A bound on the steps that a call has left. */
  function StepsLeft(p: Proc): nat {
    match p
    case Start(_, _, _, wait) =>
      (match wait
       case ForegroundPermission => 16
       case ForegroundPrompt => 15
       case LocationServices => 14
       case BackgroundPermission => 13
       case Watching => 12
       case WatchStarted(_) => 11
       case Restarting(u) => 8 + UnregisterSteps(u)
       case Channel => 8
       case Registering => 7
       case Registered => 6
       case CleaningUp(u) => UnregisterSteps(u))
    case Stop(u) => UnregisterSteps(u)
    case Flush(_, _) => 1
    case Wake(_, stage) =>
      (match stage case LoadingSession => 6 case LoadedSession(_) => 5 case Posting(_) => 1 case Unregistering(u) => UnregisterSteps(u))
  }

  /** No step of any kind brings a call back: it stays where it is, nears its end, or has ended. */
  lemma StepsOnlyFall(w: World, id: nat, a: Action)
    requires id in w.procs && id < w.next
    ensures var v := Step(w, a);
            && v.next >= w.next
            && (id in v.procs ==> v.procs[id] == w.procs[id] || StepsLeft(v.procs[id]) < StepsLeft(w.procs[id]))
  {
    match a
    case Resume(i, yes) => if i == id { ResumeNears(w, w.procs[id], yes); }
    case Carry(i) => if i == id { CarryNears(w, w.procs[id]); }
    case _ =>
  }

  lemma ResumeNears(w: World, p: Proc, yes: bool)
    ensures var n := ResumeCall(w, p, yes);
            n.p.Some? ==> n.p.value == p || StepsLeft(n.p.value) < StepsLeft(p)
  {
    if p.Start? {
      match p.wait
      case Restarting(u) =>
      case CleaningUp(u) =>
      case _ =>
    }
  }

  lemma CarryNears(w: World, p: Proc)
    ensures var (_, q) := CarryCall(w, p);
            q == p || StepsLeft(q) < StepsLeft(p)
  {}

  /** How often the call `id` moves along a run. */
  function Moved(w: World, id: nat, actions: seq<Action>): nat
    decreases |actions|
  {
    if actions == [] || id !in w.procs then 0
    else
      var v := Step(w, actions[0]);
      (if id in v.procs && v.procs[id] == w.procs[id] then 0 else 1) + Moved(v, id, actions[1..])
  }

  /** So along every run a call moves at most sixteen times. */
  lemma {:induction false} CallsRunOut(w: World, id: nat, actions: seq<Action>)
    requires id in w.procs && id < w.next
    ensures Moved(w, id, actions) <= StepsLeft(w.procs[id]) <= 16
    decreases |actions|
  {
    if actions != [] {
      var v := Step(w, actions[0]);
      StepsOnlyFall(w, id, actions[0]);
      if id in v.procs { CallsRunOut(v, id, actions[1..]); }
    }
  }

  /** A step of the call `id` with the system doing as asked and every answer yes. */
  predicate Favourable(a: Action, id: nat) { a == Carry(id) || a == Resume(id, true) }

  /** The step that a start or a stop is waiting for. */
  function Awaited(id: nat, p: Proc): (a: Action)
    ensures Favourable(a, id)
  {
    match p
    case Start(_, _, _, wait) =>
      if wait.Watching? || wait.Registering? || ((wait.Restarting? || wait.CleaningUp?) && (wait.u.Asking? || wait.u.Stopping?))
      then Carry(id) else Resume(id, true)
    case Stop(u) => if u.Asking? || u.Stopping? then Carry(id) else Resume(id, true)
    case _ => Carry(id)
  }

  lemma AwaitedResume(w: World, id: nat, p: Proc)
    requires (p.Start? || p.Stop?) && Awaited(id, p).Resume?
    ensures var n := ResumeCall(w, p, true);
            n.p.Some? ==> (n.p.value.Start? || n.p.value.Stop?) && StepsLeft(n.p.value) < StepsLeft(p)
  {
    if p.Start? {
      match p.wait
      case Restarting(u) =>
      case CleaningUp(u) =>
      case _ =>
    }
  }

  lemma AwaitedCarry(w: World, id: nat, p: Proc)
    requires (p.Start? || p.Stop?) && Awaited(id, p).Carry?
    ensures var (_, q) := CarryCall(w, p);
            (q.Start? || q.Stop?) && StepsLeft(q) < StepsLeft(p)
  {}

  /** A start or a stop in flight is never stuck: the step it waits for moves it. */
  lemma CallsGetOn(w: World, id: nat)
    requires id in w.procs && (w.procs[id].Start? || w.procs[id].Stop?)
    ensures var v := Step(w, Awaited(id, w.procs[id]));
            v.procs.Keys <= w.procs.Keys &&
            (id in v.procs ==> (v.procs[id].Start? || v.procs[id].Stop?) && StepsLeft(v.procs[id]) < StepsLeft(w.procs[id]))
  {
    hide ResumeCall, CarryCall, StepsLeft;
    var p := w.procs[id];
    if Awaited(id, p).Resume? { AwaitedResume(w, id, p); } else { AwaitedCarry(w, id, p); }
  }

  lemma CallEnds(w: World, id: nat) returns (actions: seq<Action>)
    requires id in w.procs && (w.procs[id].Start? || w.procs[id].Stop?)
    ensures (forall a :: a in actions ==> Favourable(a, id))
    ensures id !in Run(w, actions).procs && Run(w, actions).procs.Keys <= w.procs.Keys
    decreases StepsLeft(w.procs[id])
  {
    hide Step, StepsLeft;
    var a := Awaited(id, w.procs[id]);
    var v := Step(w, a);
    CallsGetOn(w, id);
    var rest := [];
    if id in v.procs { rest := CallEnds(v, id); }
    actions := [a] + rest;
    assert actions[1..] == rest;
  }

  /** From every state the starts and stops in flight can run out, each step the one some call waits for. */
  lemma EveryRunCanSettle(w: World) returns (actions: seq<Action>)
    ensures (forall a :: a in actions ==> Calm(a, true)) && Settled(Run(w, actions))
    decreases |w.procs|
  {
    if Settled(w) {
      actions := [];
    } else {
      var id :| id in w.procs && (w.procs[id].Start? || w.procs[id].Stop?);
      var first := CallEnds(w, id);
      var v := Run(w, first);
      FewerKeys(v.procs, w.procs, id);
      var rest := EveryRunCanSettle(v);
      actions := first + rest;
      RunAppend(w, first, rest);
    }
  }

  lemma FewerKeys(a: map<nat, Proc>, b: map<nat, Proc>, id: nat)
    requires a.Keys <= b.Keys && id in b && id !in a
    ensures |a| < |b|
  {
    assert a.Keys <= b.Keys - {id};
    SubsetIsSmaller(a.Keys, b.Keys - {id});
    assert |a| == |a.Keys| && |b| == |b.Keys| && |b.Keys - {id}| == |b.Keys| - 1;
  }

  lemma SubsetIsSmaller(a: set<nat>, b: set<nat>)
    requires a <= b
    ensures |a| <= |b|
  {
    assert b == a + (b - a);
    assert |b| == |a| + |b - a|;
  }

  /** The phone reports no position: no task, no send timer, no watcher. */
  predicate Untracked(w: World) {
    !w.registered && w.timer.None? && w.watcher.None? && w.live == {}
  }

  /**
   Whatever was in flight when the rider signed out, and however its steps fall, the phone reports
   nothing any more once they have run out, as long as the system does what it is asked.  The timer
   and the placed watcher are gone from the first moment.
   */
  lemma NobodyTrackedAfterSignOut(w: World, before: seq<Action>, after: seq<Action>)
    requires Init(w)
    requires forall a :: a in after ==> Calm(a, false)
    ensures var v := Run(w, before + [StopSharing] + after);
            && v.timer.None? && v.watcher.None?
            && (Settled(v) ==> Untracked(v))
  {
    WfInit(w);
    WfRun(w, before);
    StopWinds(Run(w, before));
    RunAppend(w, before, [StopSharing]);
    assert Run(Run(w, before), [StopSharing]) == Run(Step(Run(w, before), StopSharing), []);
    RunAppend(w, before + [StopSharing], after);
    WindingRun(Step(Run(w, before), StopSharing), after, false);
    var v := Run(w, before + [StopSharing] + after);
    assert Winding(v, false);
    if v.live != {} {
      var sub :| sub in v.live;
      assert Held(v, sub);
    }
  }

  /**
   The task outlives the app, so a stop that died with its process leaves it behind.  The first
   wake-up of the restarted process with nobody signed in removes it, whatever else happens.
   */
  lemma HeadlessWakeUnregisters(w: World, fixes: seq<Ping>, after: seq<Action>)
    requires Init(w) && w.session.None? && fixes != []
    requires forall a :: a in after ==> Calm(a, true)
    ensures var v := Run(w, [TaskFixes(fixes)] + after);
            Settled(v) && (forall id :: id in v.procs ==> !v.procs[id].Wake?) ==> Untracked(v)
  {
    WfInit(w);
    WfStep(w, TaskFixes(fixes));
    var first := Step(w, TaskFixes(fixes));
    if w.registered {
      assert WillUnregister(first.procs[w.next], true);
    }
    assert ([TaskFixes(fixes)] + after)[1..] == after;
    WindingRun(first, after, true);
    var v := Run(w, [TaskFixes(fixes)] + after);
    if v.live != {} {
      var sub :| sub in v.live;
      assert Held(v, sub);
    }
  }

  // --- what a start comes to -------------------------------------------------------------------

  /** A step of the start `id` itself: the system carries out what it asked or rejects it, or it goes on. */
  predicate StartStep(a: Action, id: nat) {
    a == Carry(id) || (a.Resume? && a.id == id) || a == Reject(id)
  }

  predicate Questioned(x: Wait) { x.ForegroundPermission? || x.ForegroundPrompt? }

  /** The rider grants the permission, now or because it was granted before. */
  predicate Grants(p: Proc, a: Action) { p.Start? && Questioned(p.wait) && a.Resume? && a.yes }

  predicate SwitchesOn(p: Proc, a: Action) { p.Start? && p.wait.LocationServices? && a.Resume? && a.yes }

  predicate AllowsBackground(p: Proc, a: Action) { p.Start? && p.wait.BackgroundPermission? && a.Resume? && a.yes }

  /** The rider declines for good, or a call to the system rejects. */
  predicate TurnsDown(p: Proc, a: Action) {
    && p.Start?
    && ((a.Resume? && !a.yes && (p.wait.ForegroundPrompt? || p.wait.LocationServices?))
        || (a.Reject? && (Questioned(p.wait) || p.wait.Watching? || p.wait.Restarting? || p.wait.Registering?)))
  }

  /** Somewhere along the run the call `id` meets a step of this kind. */
  ghost predicate Meets(w: World, id: nat, actions: seq<Action>, kind: (Proc, Action) -> bool)
    decreases |actions|
  {
    actions != [] &&
    ((id in w.procs && kind(w.procs[id], actions[0])) || Meets(Step(w, actions[0]), id, actions[1..], kind))
  }

  /** Sharing is on: the state says so, the timer runs, and the phone reports by the build's own means. */
  predicate SharingIsOn(w: World, v: World, token: Token, background: bool) {
    && v.status == Sharing(background)
    && v.timer == (if w.timer.Some? then w.timer else Some(token))
    && (if v.foregroundOnly then v.watcher.Some? && (w.watcher.Some? ==> v.watcher == w.watcher)
                                 && (w.watcher.None? ==> v.watcher.value in v.live)
        else v.registered)
  }

  /** Nothing is on that was not on before. */
  predicate NothingNew(w: World, v: World) {
    v.timer == w.timer && v.watcher == w.watcher && (v.registered ==> w.registered) && v.live <= w.live
  }

  /** How many of the questions a start has behind it. */
  function Answered(x: Wait): nat {
    if Questioned(x) then 0 else if x.LocationServices? then 1 else if x.BackgroundPermission? then 2 else 3
  }

  /** What a start that waits for this has set up so far. */
  predicate WaitFits(w: World, v: World, p: Proc)
    requires p.Start?
  {
    match p.wait
    case WatchStarted(sub) => v.foregroundOnly && v.watcher.None? && sub in v.live && v.live <= w.live + {sub} && !v.registered
    case Watching => v.foregroundOnly && v.watcher.None? && NothingNew(w, v)
    case Registered => !v.foregroundOnly && v.registered
    case CleaningUp(_) => false
    case Restarting(_) | Channel | Registering => !v.foregroundOnly && NothingNew(w, v)
    case _ => !p.background && NothingNew(w, v)
  }

  /** The start `id` of the current session is under way in `v`, having begun in `w`. */
  ghost predicate UnderWay(w: World, v: World, id: nat, token: Token) {
    && id in v.procs && v.procs[id].Start? && v.procs[id].mine == v.generation && v.procs[id].token == token
    && v.foregroundOnly == w.foregroundOnly && v.timer == w.timer && v.watcher == w.watcher
    && (w.foregroundOnly ==> !v.registered && !w.registered)
    && WaitFits(w, v, v.procs[id])
  }

  predicate Allowed(w: World, p: Proc, a: Action) {
    p.Start? && (p.background || (!w.foregroundOnly && AllowsBackground(p, a)))
  }

  lemma UnderWayResume(w: World, v: World, id: nat, token: Token, yes: bool)
    requires UnderWay(w, v, id, token)
    ensures var p, n, a := v.procs[id], ResumeCall(v, v.procs[id], yes), Resume(id, yes);
            match n.p
            case Some(q) =>
              && !TurnsDown(p, a) && q.Start? && WaitFits(w, n.w, q) && n.w.timer == w.timer && n.w.watcher == w.watcher
              && Answered(p.wait) <= Answered(q.wait) <= Answered(p.wait) + 1
              && (Answered(q.wait) > Answered(p.wait) == 0 ==> yes)
              && (Answered(q.wait) > Answered(p.wait) == 1 ==> yes)
              && q.background == Allowed(w, p, a)
            case None =>
              if TurnsDown(p, a) then n.w.status == Denied && NothingNew(w, n.w)
              else Answered(p.wait) >= 2 && SharingIsOn(w, n.w, token, Allowed(w, p, a))
  {
    match v.procs[id].wait
    case Restarting(u) =>
    case CleaningUp(u) =>
    case _ =>
  }

  lemma UnderWayCarry(w: World, v: World, id: nat, token: Token)
    requires UnderWay(w, v, id, token)
    ensures var (u, q) := CarryCall(v, v.procs[id]);
            && q.Start? && WaitFits(w, u, q) && (w.foregroundOnly ==> !u.registered)
            && Answered(q.wait) == Answered(v.procs[id].wait) && q.background == v.procs[id].background
  {}

  /** What one step of the start comes to. */
  ghost predicate GoesOn(w: World, v: World, u: World, id: nat, token: Token, a: Action)
    requires id in v.procs && v.procs[id].Start?
  {
    var p := v.procs[id];
    if id in u.procs then
      && !TurnsDown(p, a) && UnderWay(w, u, id, token)
      && Answered(p.wait) <= Answered(u.procs[id].wait) <= Answered(p.wait) + 1
      && (Answered(u.procs[id].wait) > Answered(p.wait) == 0 ==> Grants(p, a))
      && (Answered(u.procs[id].wait) > Answered(p.wait) == 1 ==> SwitchesOn(p, a))
      && (Answered(u.procs[id].wait) > Answered(p.wait) == 2 ==> a.Resume?)
      && u.procs[id].background == Allowed(w, p, a)
    else if TurnsDown(p, a) then u.status == Denied && NothingNew(w, u)
    else
      && Answered(p.wait) >= 2 && (Answered(p.wait) == 2 ==> a.Resume?)
      && SharingIsOn(w, u, token, Allowed(w, p, a))
  }

  lemma StartStepsOn(w: World, v: World, id: nat, token: Token, a: Action)
    requires UnderWay(w, v, id, token) && StartStep(a, id)
    ensures GoesOn(w, v, Step(v, a), id, token, a)
  {
    hide ResumeCall, CarryCall;
    match a
    case Resume(_, yes) => UnderWayResume(w, v, id, token, yes);
    case Carry(_) => UnderWayCarry(w, v, id, token);
    case Reject(_) => StartRejected(w, v, id, token);
  }

  lemma StartRejected(w: World, v: World, id: nat, token: Token)
    requires UnderWay(w, v, id, token)
    ensures GoesOn(w, v, Step(v, Reject(id)), id, token, Reject(id))
  {}

  lemma {:induction false} EndedMeetsNothing(w: World, id: nat, actions: seq<Action>, kind: (Proc, Action) -> bool)
    requires id !in w.procs && forall a :: a in actions ==> StartStep(a, id)
    ensures Run(w, actions) == w && !Meets(w, id, actions, kind)
    decreases |actions|
  {
    if actions != [] {
      assert StartStep(actions[0], id) && Step(w, actions[0]) == w;
      EndedMeetsNothing(w, id, actions[1..], kind);
    }
  }

  /** How a start that is under way ends, from what its own steps meet. */
  lemma {:induction false} StartEnds(w: World, v: World, id: nat, token: Token, actions: seq<Action>)
    requires UnderWay(w, v, id, token) && forall a :: a in actions ==> StartStep(a, id)
    ensures var z, p := Run(v, actions), v.procs[id];
            id !in z.procs ==>
              if Meets(v, id, actions, TurnsDown) then z.status == Denied && NothingNew(w, z)
              else
                && (Answered(p.wait) == 0 ==> Meets(v, id, actions, Grants))
                && (Answered(p.wait) <= 1 ==> Meets(v, id, actions, SwitchesOn))
                && (Answered(p.wait) <= 2 && (forall a :: a in actions && a.Resume? ==> a.yes) ==>
                      Meets(v, id, actions, AllowsBackground))
                && SharingIsOn(w, z, token, p.background || (!w.foregroundOnly && Meets(v, id, actions, AllowsBackground)))
    decreases |actions|
  {
    hide Step, WaitFits, SharingIsOn, NothingNew;
    if actions != [] {
      var a, u, rest := actions[0], Step(v, actions[0]), actions[1..];
      StartStepsOn(w, v, id, token, a);
      if id in u.procs {
        StartEnds(w, u, id, token, rest);
      } else {
        EndedMeetsNothing(u, id, rest, TurnsDown);
        EndedMeetsNothing(u, id, rest, AllowsBackground);
      }
    }
  }

  /**
   What a start comes to by its own steps, whatever else was there before.  Turned down, by the rider
   or by the system, it ends in denial and has switched nothing on.  Else it ends, and only when the
   permission was granted and location is switched on, with sharing on: the timer running with the
   rider's token, and the watcher live or the task registered.
   */
  lemma StartComesTo(w: World, token: Token, actions: seq<Action>)
    requires Wf(w) && forall a :: a in actions ==> StartStep(a, w.next)
    ensures var id, begun := w.next, Step(w, StartSharing(token));
            var v := Run(begun, actions);
            id !in v.procs ==>
              if Meets(begun, id, actions, TurnsDown) then v.status == Denied && NothingNew(w, v)
              else
                && Meets(begun, id, actions, Grants) && Meets(begun, id, actions, SwitchesOn)
                && SharingIsOn(w, v, token, !w.foregroundOnly && Meets(begun, id, actions, AllowsBackground))
  {
    StartEnds(w, Step(w, StartSharing(token)), w.next, token, actions);
  }

  lemma {:induction false} YesTurnsNothingDown(w: World, id: nat, actions: seq<Action>)
    requires forall a :: a in actions ==> Favourable(a, id)
    ensures !Meets(w, id, actions, TurnsDown)
    decreases |actions|
  {
    if actions != [] {
      assert Favourable(actions[0], id);
      YesTurnsNothingDown(Step(w, actions[0]), id, actions[1..]);
    }
  }

  /** With every answer yes and the system doing what it is asked, a start ends with sharing on, and it can end. */
  lemma StartSharesWhenAllowed(w: World, token: Token, actions: seq<Action>)
    requires Wf(w) && forall a :: a in actions ==> Favourable(a, w.next)
    ensures var v := Run(Step(w, StartSharing(token)), actions);
            w.next !in v.procs ==> SharingIsOn(w, v, token, !w.foregroundOnly)
  {
    StartEnds(w, Step(w, StartSharing(token)), w.next, token, actions);
    YesTurnsNothingDown(Step(w, StartSharing(token)), w.next, actions);
  }

  lemma StartCanFinish(w: World, token: Token) returns (actions: seq<Action>)
    requires Wf(w)
    ensures forall a :: a in actions ==> Favourable(a, w.next)
    ensures var v := Run(Step(w, StartSharing(token)), actions);
            w.next !in v.procs && SharingIsOn(w, v, token, !w.foregroundOnly)
  {
    actions := CallEnds(Step(w, StartSharing(token)), w.next);
    StartSharesWhenAllowed(w, token, actions);
  }

  /** What is asked of the rider, and in which order: for the permission only where it is missing, then to
      switch location on, and then for the background; a no to either of the first two ends the start. */
  lemma QuestionsComeInTurn(w: World, token: Token)
    requires Wf(w)
    ensures var id, begun := w.next, Step(w, StartSharing(token));
            var has, lacks := Step(begun, Resume(id, true)), Step(begun, Resume(id, false));
            var granted, refused := Step(lacks, Resume(id, true)), Step(lacks, Resume(id, false));
            && Awaits(has, id, LocationServices) && Awaits(lacks, id, ForegroundPrompt) && Awaits(granted, id, LocationServices)
            && Awaits(Step(has, Resume(id, true)), id, BackgroundPermission)
            && id !in refused.procs && refused.status == Denied && NothingNew(w, refused)
            && id !in Step(has, Resume(id, false)).procs && Step(has, Resume(id, false)).status == Denied
  {}

  predicate Awaits(w: World, id: nat, x: Wait) {
    id in w.procs && w.procs[id].Start? && w.procs[id].wait == x
  }

  /** How far a call has got in asking the system to unregister the task, if it is about that. */
  function UnregisterOf(p: Proc): Option<Unregister> {
    match p
    case Start(_, _, _, Restarting(u)) => Some(u)
    case Start(_, _, _, CleaningUp(u)) => Some(u)
    case Stop(u) => Some(u)
    case Wake(_, Unregistering(u)) => Some(u)
    case _ => None
  }

  lemma ResumeLooksFirst(w: World, p: Proc, yes: bool)
    ensures var n := ResumeCall(w, p, yes);
            && (n.p.Some? && UnregisterOf(n.p.value) == Some(Stopping) ==>
                  UnregisterOf(p) == Some(Asked(true)) || n.p.value == p)
            && (n.p.Some? && UnregisterOf(n.p.value).Some? && UnregisterOf(n.p.value).value.Asked? ==> n.p.value == p)
            && (n.p.Some? && UnregisterOf(n.p.value) == Some(Stopped) ==> n.p.value == p)
  {
    if p.Start? {
      match p.wait
      case Restarting(u) =>
      case CleaningUp(u) =>
      case _ =>
    }
  }

  /** The system is asked to unregister the task only after it has said that the task is there, and what
      it is said to have done it has done. */
  lemma LooksBeforeUnregistering(w: World, a: Action, id: nat)
    requires Wf(w) && id in Step(w, a).procs && id in w.procs && Step(w, a).procs[id] != w.procs[id]
    ensures var v := Step(w, a);
            && (UnregisterOf(v.procs[id]) == Some(Stopping) ==> UnregisterOf(w.procs[id]) == Some(Asked(true)))
            && (UnregisterOf(v.procs[id]).Some? && UnregisterOf(v.procs[id]).value.Asked? ==>
                  a == Carry(id) && UnregisterOf(v.procs[id]) == Some(Asked(w.registered)))
            && (UnregisterOf(v.procs[id]) == Some(Stopped) ==> a == Carry(id) && UnregisterOf(w.procs[id]) == Some(Stopping) && !v.registered)
  {
    hide ResumeCall, CarryCall, UnregisterOf, Wf;
    assert id < w.next by { NextIsNew(w, id); }
    match a
    case Resume(i, yes) => ResumeLooksFirst(w, w.procs[id], yes);
    case Carry(i) => CarryLooksFirst(w, w.procs[id]);
    case _ => OthersStayPut(w, a, id);
  }

  lemma NextIsNew(w: World, id: nat)
    requires Wf(w) && id in w.procs
    ensures id < w.next
  {}

  lemma OthersStayPut(w: World, a: Action, id: nat)
    requires id in w.procs && id < w.next && !a.Resume? && !a.Carry? && id in Step(w, a).procs
    ensures Step(w, a).procs[id] == w.procs[id]
  {
    hide ResumeProc, CarryProc;
  }

  lemma CarryLooksFirst(w: World, p: Proc)
    ensures var (v, q) := CarryCall(w, p);
            q != p ==>
              && UnregisterOf(q) != Some(Stopping)
              && (UnregisterOf(q).Some? && UnregisterOf(q).value.Asked? ==> UnregisterOf(q) == Some(Asked(w.registered)))
              && (UnregisterOf(q) == Some(Stopped) ==> UnregisterOf(p) == Some(Stopping) && !v.registered)
  {}

  /** A refusal to look up or unregister the task ends stopLocationTask, and the call that ends with it. */
  lemma RefusalEndsTheCall(w: World, id: nat)
    requires id in w.procs && UnregisterOf(w.procs[id]).Some?
    requires w.procs[id].Start? ==> w.procs[id].wait.CleaningUp?
    ensures Step(w, UnregisterRejects(id)) == w.(procs := w.procs - {id})
  {}

  /** The calls whose answer only the system can give. */
  predicate AwaitsSystem(p: Proc) {
    match p
    case Start(_, _, _, wait) => wait.Watching? || wait.Registering? || UnregisterOf(p) == Some(Asking) || UnregisterOf(p) == Some(Stopping)
    case Stop(u) => u == Asking || u == Stopping
    case Flush(_, _) => true
    case Wake(_, stage) => stage.LoadingSession? || stage.Posting? || UnregisterOf(p) == Some(Asking) || UnregisterOf(p) == Some(Stopping)
  }

  /** No call hears an answer before the system has given it. */
  lemma NothingIsHeardEarly(w: World, id: nat, yes: bool)
    requires id in w.procs && AwaitsSystem(w.procs[id])
    ensures Step(w, Resume(id, yes)) == w
  {
    var p := w.procs[id];
    HearsNothing(w, p, yes);
    assert w.procs[id := p] == w.procs;
  }

  lemma HearsNothing(w: World, p: Proc, yes: bool)
    requires AwaitsSystem(p)
    ensures ResumeCall(w, p, yes) == Next(w, Some(p))
  {
    if p.Start? {
      match p.wait
      case Restarting(u) =>
      case CleaningUp(u) =>
      case _ =>
    }
  }

  /** What a settled send shows: a send of the buffer whether sharing reaches the office, or how much is
      waiting; a wake-up only that it got through. */
  lemma SendsShowTheirOutcome(w: World, id: nat, ok: bool, background: bool)
    requires id in w.procs && (w.procs[id].Flush? || (w.procs[id].Wake? && w.procs[id].stage.Posting?))
    ensures var v := Step(w, Sent(id, ok, background));
            && v.procs == w.procs - {id}
            && (ok ==> v.buffer == w.buffer)
            && v.status == (if ok then Sharing(if w.procs[id].Flush? then background else true)
                            else if w.procs[id].Flush? then Pending(|v.buffer|) else w.status)
  {}

  /** When the process dies, the task and the stored session are what is left. */
  lemma DeathLeavesTaskAndSession(w: World)
    requires Wf(w)
    ensures var v := Step(w, ProcessDeath);
            Init(v) && v.registered == w.registered && v.session == w.session
  {}

  // --- what the promise rests on ---------------------------------------------------------------

  /** One more step at the end of a run. */
  lemma Extend(w: World, actions: seq<Action>, v: World, a: Action) returns (longer: seq<Action>)
    requires Run(w, actions) == v
    ensures longer == actions + [a] && Run(w, longer) == Step(v, a)
  {
    longer := actions + [a];
    RunAppend(w, actions, [a]);
    assert Run(v, [a]) == Run(Step(v, a), []);
  }

  /** Sharing does not begin again, and the process lives on; the system may refuse anything. */
  predicate NoNewStart(a: Action) { !a.StartSharing? && !a.ProcessDeath? }

  /** There is no task, and no start is having one registered. */
  predicate NoTaskInSight(w: World) {
    !w.registered && forall id :: id in w.procs ==> !(w.procs[id].Start? && w.procs[id].wait.Registering?)
  }

  ghost predicate AllStale(w: World) {
    forall id :: id in w.procs ==> Stale(w, w.procs[id])
  }

  /** A step of one call that registers no task and asks for none. */
  lemma NoTaskMove(w: World, v: World, id: nat)
    requires NoTaskInSight(w) && AllStale(w) && !v.registered && v.generation >= w.generation
    requires forall i :: i in v.procs && i != id ==> i in w.procs && v.procs[i] == w.procs[i]
    requires id in v.procs ==> Stale(v, v.procs[id]) && !(v.procs[id].Start? && v.procs[id].wait.Registering?)
    ensures NoTaskInSight(v) && AllStale(v)
  {
    forall i | i in v.procs
      ensures Stale(v, v.procs[i]) && !(v.procs[i].Start? && v.procs[i].wait.Registering?)
    {
      if i != id { assert Stale(w, w.procs[i]); }
    }
  }

  lemma ResumeAsksForNoTask(w: World, p: Proc, yes: bool)
    requires Stale(w, p) && !(p.Start? && p.wait.Registering?)
    ensures var n := ResumeCall(w, p, yes);
            n.p.Some? ==> !(n.p.value.Start? && n.p.value.wait.Registering?)
  {
    if p.Start? {
      match p.wait
      case Restarting(u) =>
      case CleaningUp(u) =>
      case _ =>
    }
  }

  lemma CarryRegistersNoTask(w: World, p: Proc)
    requires !w.registered && !(p.Start? && p.wait.Registering?)
    ensures var (v, q) := CarryCall(w, p);
            !v.registered && !(q.Start? && q.wait.Registering?) && (q.Start? <==> p.Start?)
  {}

  lemma NoTaskStep(w: World, a: Action)
    requires NoTaskInSight(w) && AllStale(w) && NoNewStart(a)
    ensures NoTaskInSight(Step(w, a)) && AllStale(Step(w, a))
  {
    hide ResumeCall, CarryCall, NoTaskInSight, AllStale;
    match a
    case Resume(id, yes) => NoTaskResume(w, id, yes);
    case Carry(id) => NoTaskCarry(w, id);
    case Sent(id, _, _) => NoTaskEnd(w, a, id);
    case Reject(id) => NoTaskEnd(w, a, id);
    case UnregisterRejects(id) => NoTaskEnd(w, a, id);
    case RegisterRejects(id) => NoTaskEnd(w, a, id);
    case _ => NoTaskOther(w, a);
  }

  lemma NoTaskResume(w: World, id: nat, yes: bool)
    requires NoTaskInSight(w) && AllStale(w)
    ensures NoTaskInSight(ResumeProc(w, id, yes)) && AllStale(ResumeProc(w, id, yes))
  {
    hide ResumeCall;
    if id in w.procs {
      assert Stale(w, w.procs[id]);
      ResumeAsksForNoTask(w, w.procs[id], yes);
      NoTaskMove(w, ResumeProc(w, id, yes), id);
    }
  }

  lemma NoTaskCarry(w: World, id: nat)
    requires NoTaskInSight(w) && AllStale(w)
    ensures NoTaskInSight(CarryProc(w, id)) && AllStale(CarryProc(w, id))
  {
    hide CarryCall;
    if id in w.procs {
      assert Stale(w, w.procs[id]);
      CarryRegistersNoTask(w, w.procs[id]);
      NoTaskMove(w, CarryProc(w, id), id);
    }
  }

  lemma NoTaskEnd(w: World, a: Action, id: nat)
    requires NoTaskInSight(w) && AllStale(w)
    requires a.Sent? || a.Reject? || a.UnregisterRejects? || a.RegisterRejects?
    requires a.id == id
    ensures NoTaskInSight(Step(w, a)) && AllStale(Step(w, a))
  {
    if id in w.procs {
      assert Stale(w, w.procs[id]);
      NoTaskMove(w, Step(w, a), id);
    }
  }

  lemma NoTaskOther(w: World, a: Action)
    requires NoTaskInSight(w) && AllStale(w) && NoNewStart(a)
    requires !a.Resume? && !a.Carry? && !a.Sent? && !a.Reject? && !a.UnregisterRejects? && !a.RegisterRejects?
    ensures NoTaskInSight(Step(w, a)) && AllStale(Step(w, a))
  {
    NoTaskMove(w, Step(w, a), w.next);
  }

  lemma {:induction false} NoTaskRun(w: World, actions: seq<Action>)
    requires NoTaskInSight(w) && AllStale(w) && forall a :: a in actions ==> NoNewStart(a)
    ensures !Run(w, actions).registered
    decreases |actions|
  {
    hide Step, AllStale;
    if actions != [] {
      NoTaskStep(w, actions[0]);
      NoTaskRun(Step(w, actions[0]), actions[1..]);
    }
  }

  /** How the system can bring a stop or an overtaken start to its end without touching the task. */
  function Refusal(id: nat, p: Proc): Action {
    match p
    case Start(_, _, _, wait) =>
      if wait.CleaningUp? then UnregisterRejects(id)
      else if wait.Watching? || wait.Restarting? || wait.Registering? then Reject(id)
      else Resume(id, true)
    case _ => UnregisterRejects(id)
  }

  lemma RefusalSparesTask(w: World, id: nat)
    requires w.registered && AllStale(w) && id in w.procs && (w.procs[id].Start? || w.procs[id].Stop?)
    ensures var v := Step(w, Refusal(id, w.procs[id]));
            && v.registered && AllStale(v) && v.procs.Keys <= w.procs.Keys
            && (id in v.procs ==> w.procs[id].Start? && !w.procs[id].wait.CleaningUp? && v.procs[id].Start? && v.procs[id].wait.CleaningUp?)
  {
    var p := w.procs[id];
    assert Stale(w, p);
    var v := Step(w, Refusal(id, p));
    forall i | i in v.procs ensures Stale(v, v.procs[i]) {
      if i != id { assert v.procs[i] == w.procs[i] && Stale(w, w.procs[i]); }
    }
  }

  /** A stop or an overtaken start may end and leave the task. */
  lemma CallSparesTask(w: World, id: nat) returns (actions: seq<Action>)
    requires w.registered && AllStale(w) && id in w.procs && (w.procs[id].Start? || w.procs[id].Stop?)
    ensures forall a :: a in actions ==> NoNewStart(a)
    ensures var v := Run(w, actions);
            v.registered && AllStale(v) && id !in v.procs && v.procs.Keys <= w.procs.Keys
    decreases w.procs[id].Start? && !w.procs[id].wait.CleaningUp?
  {
    hide Step, AllStale;
    var a := Refusal(id, w.procs[id]);
    var v := Step(w, a);
    RefusalSparesTask(w, id);
    var rest := [];
    if id in v.procs { rest := CallSparesTask(v, id); }
    actions := [a] + rest;
    assert actions[1..] == rest;
  }

  lemma TaskMayStay(w: World) returns (actions: seq<Action>)
    requires w.registered && AllStale(w)
    ensures (forall a :: a in actions ==> NoNewStart(a))
    ensures Settled(Run(w, actions)) && Run(w, actions).registered
    decreases |w.procs|
  {
    hide AllStale;
    if Settled(w) {
      actions := [];
    } else {
      var id :| id in w.procs && (w.procs[id].Start? || w.procs[id].Stop?);
      var first := CallSparesTask(w, id);
      var v := Run(w, first);
      FewerKeys(v.procs, w.procs, id);
      var rest := TaskMayStay(v);
      actions := first + rest;
      RunAppend(w, first, rest);
    }
  }

  lemma TaskMayCome(w: World) returns (actions: seq<Action>)
    requires AllStale(w) && !NoTaskInSight(w)
    ensures (forall a :: a in actions ==> NoNewStart(a))
    ensures Settled(Run(w, actions)) && Run(w, actions).registered
  {
    if w.registered {
      actions := TaskMayStay(w);
    } else {
      var id :| id in w.procs && w.procs[id].Start? && w.procs[id].wait.Registering?;
      var v := Step(w, RegisterRejects(id));
      assert Stale(w, w.procs[id]);
      forall i | i in v.procs ensures Stale(v, v.procs[i]) { assert Stale(w, w.procs[i]); }
      var rest := TaskMayStay(v);
      actions := [RegisterRejects(id)] + rest;
      assert actions[1..] == rest;
    }
  }

  /**
   When the system may refuse or fail anything it is asked, and whatever else is in flight: that no
   task is left once the calls have run out is certain exactly when, at the sign-out, there was no
   task and no start was having one registered.
   */
  lemma TaskStaysGoneExactly(w: World)
    requires Wf(w)
    ensures NoTaskInSight(w) <==>
            forall actions :: (forall a :: a in actions ==> NoNewStart(a)) && Settled(Run(Step(w, StopSharing), actions)) ==>
              !Run(Step(w, StopSharing), actions).registered
  {
    var v := Step(w, StopSharing);
    StopWinds(w);
    assert AllStale(v);
    StopKeepsTheTask(w);
    if NoTaskInSight(v) {
      forall actions | (forall a :: a in actions ==> NoNewStart(a)) && Settled(Run(v, actions))
        ensures !Run(v, actions).registered
      {
        NoTaskRun(v, actions);
      }
    } else {
      var actions := TaskMayCome(v);
      assert Run(v, actions).registered;
    }
  }

  lemma StopKeepsTheTask(w: World)
    requires Wf(w)
    ensures NoTaskInSight(Step(w, StopSharing)) <==> NoTaskInSight(w)
  {
    var v := Step(w, StopSharing);
    forall id | id in w.procs ensures id in v.procs && v.procs[id] == w.procs[id] {}
  }

  /** A step of the call `id` itself: the system carries it out or refuses, or it goes on. */
  predicate OwnStep(a: Action, id: nat) {
    a == Carry(id) || (a.Resume? && a.id == id) || a == UnregisterRejects(id)
  }

  /** Somewhere along the run the system refuses the stop `id` while the task is still registered. */
  predicate RefusedInTime(w: World, id: nat, actions: seq<Action>)
    decreases |actions|
  {
    actions != [] &&
    ((actions[0] == UnregisterRejects(id) && id in w.procs && w.registered)
     || RefusedInTime(Step(w, actions[0]), id, actions[1..]))
  }

  /** The stop `id` is under way, and has unregistered the task exactly when it has been carried out. */
  ghost predicate StopUnderWay(w: World, id: nat) {
    && id in w.procs && w.procs[id].Stop? && w.procs[id].u != Asked(false)
    && (w.registered <==> w.procs[id].u != Stopped)
  }

  lemma StopStepsOn(w: World, id: nat, a: Action)
    requires StopUnderWay(w, id) && OwnStep(a, id)
    ensures StopUnderWay(Step(w, a), id)
         || (id !in Step(w, a).procs && (Step(w, a).registered <==> a == UnregisterRejects(id) && w.registered))
  {}

  lemma {:induction false} OverIsOver(w: World, id: nat, actions: seq<Action>)
    requires id !in w.procs && forall a :: a in actions ==> OwnStep(a, id)
    ensures Run(w, actions) == w && !RefusedInTime(w, id, actions)
    decreases |actions|
  {
    if actions != [] {
      assert OwnStep(actions[0], id) && Step(w, actions[0]) == w;
      OverIsOver(w, id, actions[1..]);
    }
  }

  lemma {:induction false} StopEndsExactly(w: World, id: nat, actions: seq<Action>)
    requires StopUnderWay(w, id) && forall a :: a in actions ==> OwnStep(a, id)
    ensures var v := Run(w, actions);
            id !in v.procs ==> (v.registered <==> RefusedInTime(w, id, actions))
    decreases |actions|
  {
    hide Step;
    if actions != [] {
      var v := Step(w, actions[0]);
      StopStepsOn(w, id, actions[0]);
      if id in v.procs {
        RefusalEnds(w, id, actions[0]);
        StopEndsExactly(v, id, actions[1..]);
      } else {
        OverIsOver(v, id, actions[1..]);
      }
    }
  }

  lemma RefusalEnds(w: World, id: nat, a: Action)
    requires StopUnderWay(w, id) && id in Step(w, a).procs
    ensures a != UnregisterRejects(id)
  {}

  /**
   One such end.  With nothing else in flight, once a single stop's own steps have run out, the task is
   still registered exactly when the system refused before it had unregistered.
   */
  lemma RefusalLeavesTaskExactly(w: World, actions: seq<Action>)
    requires Wf(w) && Settled(w) && w.registered
    requires forall a :: a in actions ==> OwnStep(a, w.next)
    ensures var stopped := Step(w, StopSharing);
            var v := Run(stopped, actions);
            && StopUnderWay(stopped, w.next)
            && (w.next !in v.procs ==> (v.registered <==> RefusedInTime(stopped, w.next, actions)))
  {
    StopEndsExactly(Step(w, StopSharing), w.next, actions);
  }

  /** Refused at once, it leaves the task with nothing in flight that would try again. */
  lemma RefusedUnregistrationLeavesTask(w: World)
    requires Wf(w) && Settled(w) && w.registered
    ensures var v := Step(Step(w, StopSharing), UnregisterRejects(w.next));
            v.registered && v.procs == w.procs && Settled(v)
  {
    var stopped := Step(w, StopSharing);
    assert stopped == Spawn(w.(generation := w.generation + 1, timer := None, buffer := [], status := Off), Stop(Asking));
    var v := Step(stopped, UnregisterRejects(w.next));
    assert v == End(stopped, w.next);
    assert v.procs == w.procs;
  }

  /** The same when the system registers the task for an overtaken start and then rejects the call. */
  lemma RejectedRegistrationLeavesTask(w: World, id: nat)
    requires Wf(w) && id in w.procs && w.procs[id].Start? && w.procs[id].wait.Registering?
    requires w.procs[id].mine < w.generation
    ensures var v := Step(w, RegisterRejects(id));
            v.registered && v.status == w.status && v.procs == w.procs - {id}
  {
    assert ProcOk(w, w.procs[id]);
  }

  /** A start that was overtaken by a stop goes on without touching what the next session set up. */
  lemma OvertakenStartIsInert(w: World, id: nat, a: Action)
    requires Wf(w) && id in w.procs && w.procs[id].Start? && w.procs[id].mine < w.generation
    requires a == Reject(id) || (a.Resume? && a.id == id)
    ensures var v := Step(w, a);
            && v.timer == w.timer && v.watcher == w.watcher && v.buffer == w.buffer
            && v.status == w.status && v.registered == w.registered && v.generation == w.generation
  {
    var p := w.procs[id];
    assert ProcOk(w, p);
    if a.Resume? {
      match p.wait
      case Restarting(u) =>
      case CleaningUp(u) =>
      case _ =>
    }
  }

  // --- the send timer belongs to the session that is on ----------------------------------------

  /** A start that may still place a timer carries `token`. */
  predicate Carries(w: World, p: Proc, token: Token) {
    p.Start? && p.mine >= w.generation ==> p.token == token
  }

  ghost predicate TimerFor(w: World, token: Token) {
    && (w.timer.Some? ==> w.timer.value == token)
    && (forall id :: id in w.procs ==> id < w.next && Carries(w, w.procs[id], token))
  }

  /** A step of one call that sets no timer and moves no start to a later generation. */
  lemma TimerForMove(w: World, v: World, id: nat, token: Token)
    requires TimerFor(w, token)
    requires v.timer.Some? ==> v.timer.value == token
    requires v.generation >= w.generation && v.next >= w.next
    requires forall i :: i in v.procs && i != id ==> i in w.procs && v.procs[i] == w.procs[i]
    requires id in v.procs ==> id < v.next && Carries(v, v.procs[id], token)
    ensures TimerFor(v, token)
  {
    forall i | i in v.procs
      ensures i < v.next && Carries(v, v.procs[i], token)
    {
      if i != id { assert Carries(w, w.procs[i], token); }
    }
  }

  lemma ResumeTimerFor(w: World, id: nat, yes: bool, token: Token)
    requires TimerFor(w, token)
    ensures TimerFor(ResumeProc(w, id, yes), token)
  {
    hide ResumeCall;
    if id in w.procs { assert Carries(w, w.procs[id], token); }
    TimerForMove(w, ResumeProc(w, id, yes), id, token);
  }

  lemma CarryTimerFor(w: World, id: nat, token: Token)
    requires TimerFor(w, token)
    ensures TimerFor(CarryProc(w, id), token)
  {
    if id in w.procs { assert Carries(w, w.procs[id], token); }
    TimerForMove(w, CarryProc(w, id), id, token);
  }

  lemma TimerForStep(w: World, a: Action, token: Token)
    requires TimerFor(w, token)
    requires (a.StartSharing? ==> a.token == token) && !a.ProcessDeath?
    ensures TimerFor(Step(w, a), token)
  {
    hide ResumeProc, CarryProc, TimerFor;
    match a
    case Resume(id, yes) => ResumeTimerFor(w, id, yes, token);
    case Carry(id) => CarryTimerFor(w, id, token);
    case Sent(id, _, _) => EndTimerFor(w, a, id, token);
    case Reject(id) => EndTimerFor(w, a, id, token);
    case UnregisterRejects(id) => EndTimerFor(w, a, id, token);
    case RegisterRejects(id) => EndTimerFor(w, a, id, token);
    case _ => SpawnTimerFor(w, a, token);
  }

  lemma EndTimerFor(w: World, a: Action, id: nat, token: Token)
    requires TimerFor(w, token)
    requires a.Sent? || a.Reject? || a.UnregisterRejects? || a.RegisterRejects?
    requires a.id == id
    ensures TimerFor(Step(w, a), token)
  {
    if id in w.procs { assert Carries(w, w.procs[id], token); }
    TimerForMove(w, Step(w, a), id, token);
  }

  lemma SpawnTimerFor(w: World, a: Action, token: Token)
    requires TimerFor(w, token)
    requires (a.StartSharing? ==> a.token == token) && !a.ProcessDeath?
    requires !a.Resume? && !a.Carry? && !a.Sent? && !a.Reject? && !a.UnregisterRejects? && !a.RegisterRejects?
    ensures TimerFor(Step(w, a), token)
  {
    TimerForMove(w, Step(w, a), w.next, token);
  }

  lemma {:induction false} TimerForRun(w: World, actions: seq<Action>, token: Token)
    requires TimerFor(w, token)
    requires forall a :: a in actions ==> (a.StartSharing? ==> a.token == token) && !a.ProcessDeath?
    ensures TimerFor(Run(w, actions), token)
    decreases |actions|
  {
    hide TimerFor, Step;
    if actions != [] {
      TimerForStep(w, actions[0], token);
      TimerForRun(Step(w, actions[0]), actions[1..], token);
    }
  }

  /**
   After a sign-out, the timer sends with the token of the session that began since, whatever the
   calls of the previous session still in flight do.
   */
  lemma TimerUsesLatestSession(w: World, before: seq<Action>, after: seq<Action>, token: Token)
    requires Init(w)
    requires forall a :: a in after ==> (a.StartSharing? ==> a.token == token) && !a.ProcessDeath?
    ensures var v := Run(w, before + [StopSharing] + after);
            v.timer.Some? ==> v.timer.value == token
  {
    WfInit(w);
    WfRun(w, before);
    var mid := Run(w, before);
    var stopped := Step(mid, StopSharing);
    StopWinds(mid);
    forall id | id in stopped.procs
      ensures Carries(stopped, stopped.procs[id], token)
    {
      assert Stale(stopped, stopped.procs[id]);
    }
    TimerForRun(stopped, after, token);
    RunAppend(w, before, [StopSharing]);
    assert Run(mid, [StopSharing]) == Run(stopped, []);
    RunAppend(w, before + [StopSharing], after);
  }

  /** Every send taken from the buffer since the call `since` carries `token`. */
  ghost predicate SendsFor(w: World, since: nat, token: Token) {
    forall id :: id in w.procs && id >= since && w.procs[id].Flush? ==> w.procs[id].token == token
  }

  lemma SendsForStep(w: World, a: Action, since: nat, token: Token)
    requires TimerFor(w, token) && SendsFor(w, since, token)
    requires a.FlushNow? ==> a.token == token
    ensures SendsFor(Step(w, a), since, token)
  {
    hide ResumeCall, CarryCall;
  }

  lemma {:induction false} SendsForRun(w: World, actions: seq<Action>, since: nat, token: Token)
    requires TimerFor(w, token) && SendsFor(w, since, token)
    requires forall a :: a in actions ==> (a.StartSharing? || a.FlushNow? ==> a.token == token) && !a.ProcessDeath?
    ensures SendsFor(Run(w, actions), since, token)
    decreases |actions|
  {
    hide Step, TimerFor, SendsFor;
    if actions != [] {
      SendsForStep(w, actions[0], since, token);
      TimerForStep(w, actions[0], token);
      SendsForRun(Step(w, actions[0]), actions[1..], since, token);
    }
  }

  /** So does every send begun since the sign-out, by the timer or on coming to the foreground. */
  lemma SendsUseLatestSession(w: World, before: seq<Action>, after: seq<Action>, token: Token)
    requires Init(w)
    requires forall a :: a in after ==> (a.StartSharing? || a.FlushNow? ==> a.token == token) && !a.ProcessDeath?
    ensures SendsFor(Run(w, before + [StopSharing] + after), Run(w, before).next, token)
  {
    WfInit(w);
    WfRun(w, before);
    var mid := Run(w, before);
    var stopped := Step(mid, StopSharing);
    StopIsFor(mid, token);
    SendsForRun(stopped, after, mid.next, token);
    RunAppend(w, before, [StopSharing]);
    assert Run(mid, [StopSharing]) == Run(stopped, []);
    RunAppend(w, before + [StopSharing], after);
  }

  lemma StopIsFor(w: World, token: Token)
    requires Wf(w)
    ensures TimerFor(Step(w, StopSharing), token) && SendsFor(Step(w, StopSharing), w.next, token)
  {
    var v := Step(w, StopSharing);
    StopWinds(w);
    forall id | id in v.procs ensures Carries(v, v.procs[id], token) { assert Stale(v, v.procs[id]); }
  }

  /** A wake-up posts its own fixes for the rider signed in when it looks, or has the task unregistered. */
  lemma WakePostsForTheSession(w: World, fixes: seq<Ping>)
    requires Wf(w) && w.registered && fixes != []
    ensures var looked := Step(Step(w, TaskFixes(fixes)), Carry(w.next));
            var v := Step(looked, Resume(w.next, true));
            && w.next in v.procs
            && v.procs[w.next] == Wake(fixes, match w.session case Some(token) => Posting(token) case None => Unregistering(Asking))
  {
    var asked := Step(w, TaskFixes(fixes));
    assert asked.procs[w.next] == Wake(fixes, LoadingSession);
    var looked := Step(asked, Carry(w.next));
    assert looked.procs[w.next] == Wake(fixes, LoadedSession(w.session));
  }

  // --- when a registration survives ------------------------------------------------------------

  /**
   A call in flight that can unregister the task under a session that is on: a stop that has yet
   to look, a repeated start (which restarts the task), an overtaken start that cleans up after
   itself, or a wake-up that found nobody signed in.
   */
  predicate Threat(w: World, p: Proc) {
    match p
    case Start(mine, _, _, wait) =>
      if wait.Restarting? || wait.CleaningUp? then Outstanding(wait.u)
      else if mine == w.generation then !wait.Channel? && !wait.Registering? && !wait.Registered?
      else wait.Registering? || wait.Registered?
    case Stop(u) => Outstanding(u)
    case Flush(_, _) => false
    case Wake(_, stage) => stage == LoadedSession(None) || (stage.Unregistering? && Outstanding(stage.u))
  }

  /** The session goes on: nothing starts, stops, signs out or dies. */
  predicate Steady(a: Action) {
    !a.StartSharing? && !a.StopSharing? && !a.ClearSession? && !a.ProcessDeath?
  }

  ghost predicate Shared(w: World) {
    Wf(w) && !w.foregroundOnly && w.registered && w.session.Some?
  }

  ghost predicate NoThreat(w: World) {
    forall id :: id in w.procs ==> !Threat(w, w.procs[id])
  }

  lemma ResumeNoThreat(w: World, id: nat, yes: bool)
    requires Shared(w) && NoThreat(w)
    ensures NoThreat(ResumeProc(w, id, yes)) && Shared(ResumeProc(w, id, yes))
  {
    hide ResumeCall, Moves, Wf;
    ResumeMoves(w, id, yes);
    WfMoves(w, ResumeProc(w, id, yes), id);
    if id in w.procs { ResumeCallNoThreat(w, w.procs[id], yes); }
  }

  lemma ResumeCallNoThreat(w: World, p: Proc, yes: bool)
    requires !w.foregroundOnly && !Threat(w, p)
    ensures var n := ResumeCall(w, p, yes); n.p.Some? ==> !Threat(n.w, n.p.value)
  {
    if p.Start? {
      match p.wait
      case Restarting(u) =>
      case CleaningUp(u) =>
      case _ =>
    }
  }

  lemma NoThreatStep(w: World, a: Action)
    requires Shared(w) && NoThreat(w) && Steady(a)
    ensures Shared(Step(w, a)) && NoThreat(Step(w, a))
  {
    WfStep(w, a);
    match a
    case Resume(id, yes) => ResumeNoThreat(w, id, yes);
    case _ =>
  }

  lemma {:induction false} NoThreatRun(w: World, actions: seq<Action>)
    requires Shared(w) && NoThreat(w)
    requires forall a :: a in actions ==> Steady(a)
    ensures Run(w, actions).registered
    decreases |actions|
  {
    hide NoThreat, Step, Wf;
    if actions != [] {
      NoThreatStep(w, actions[0]);
      NoThreatRun(Step(w, actions[0]), actions[1..]);
    }
  }

  /** The step that brings a threat nearer. */
  function ThreatAction(id: nat, p: Proc): Action {
    match p
    case Start(_, _, _, wait) =>
      if wait.Registering? || ((wait.Restarting? || wait.CleaningUp?) && !wait.u.Asked?) then Carry(id)
      else Resume(id, true)
    case Stop(u) => if u.Asked? then Resume(id, true) else Carry(id)
    case Flush(_, _) => Carry(id)
    case Wake(_, stage) => if stage.Unregistering? && !stage.u.Asked? then Carry(id) else Resume(id, true)
  }

  lemma ThreatNears(w: World, id: nat)
    requires Shared(w) && id in w.procs && Threat(w, w.procs[id])
    ensures var v := Step(w, ThreatAction(id, w.procs[id]));
            !v.registered ||
            (Shared(v) && id in v.procs && Threat(v, v.procs[id]) && StepsLeft(v.procs[id]) < StepsLeft(w.procs[id]))
  {
    var p := w.procs[id];
    assert ProcOk(w, p);
    WfStep(w, ThreatAction(id, p));
    if p.Start? {
      match p.wait
      case Restarting(u) =>
      case CleaningUp(u) =>
      case _ =>
    }
  }

  lemma ThreatStrikes(w: World, id: nat) returns (actions: seq<Action>)
    requires Shared(w) && id in w.procs && Threat(w, w.procs[id])
    ensures (forall a :: a in actions ==> Steady(a)) && !Run(w, actions).registered
    decreases StepsLeft(w.procs[id])
  {
    var a := ThreatAction(id, w.procs[id]);
    var v := Step(w, a);
    ThreatNears(w, id);
    if !v.registered {
      actions := [a];
      assert Run(w, actions) == Run(v, []);
    } else {
      var rest := ThreatStrikes(v, id);
      actions := [a] + rest;
      assert actions[1..] == rest;
    }
  }

  /**
   Under a session that is on, the task stays registered however the calls in flight go on exactly
   when none of them is a threat.  So signing out and in again is safe once the first session's
   calls have run out, and not before.
   */
  lemma RegistrationSurvivesExactly(w: World)
    requires Shared(w)
    ensures NoThreat(w) <==>
            forall actions :: (forall a :: a in actions ==> Steady(a)) ==> Run(w, actions).registered
  {
    if NoThreat(w) {
      forall actions | forall a :: a in actions ==> Steady(a)
        ensures Run(w, actions).registered
      {
        NoThreatRun(w, actions);
      }
    } else {
      var id :| id in w.procs && Threat(w, w.procs[id]);
      var actions := ThreatStrikes(w, id);
      assert !Run(w, actions).registered;
    }
  }
}
