/** What the ring buffer of unsent fixes holds along a run of the sharing protocol. */
module LocationBuffer {
  import opened Options
  import opened LocationSharing

  lemma DropOfParts(a: seq<Ping>, b: seq<Ping>, k: nat)
    requires k <= |a|
    ensures (a + b)[k..] == a[k..] + b
  {}

  lemma NewestOfSuffix(s: seq<Ping>, k: nat)
    requires k + BUFFER_MAX <= |s|
    ensures Newest(s[k..]) == Newest(s)
  {
    assert s[k..][|s| - k - BUFFER_MAX..] == s[|s| - BUFFER_MAX..];
  }

  lemma NewestOfOlderPart(a: seq<Ping>, b: seq<Ping>)
    ensures Newest(Newest(a) + b) == Newest(a + b)
  {
    if |a| > BUFFER_MAX {
      var cut := |a| - BUFFER_MAX;
      DropOfParts(a, b, cut);
      NewestOfSuffix(a + b, cut);
    }
  }

  lemma NewestOfNewerPart(a: seq<Ping>, b: seq<Ping>)
    ensures Newest(a + Newest(b)) == Newest(a + b)
  {
    if |b| > BUFFER_MAX {
      DropOfParts(a, b, |a|);
      DropOfParts(a, Newest(b), |a|);
      NewestOfSuffix(a + b, |a|);
      NewestOfSuffix(a + Newest(b), |a|);
      assert a[|a|..] == [];
    }
  }

  /** Cutting a part to its newest first does not change what is kept in the end. */
  lemma NewestOfParts(a: seq<Ping>, b: seq<Ping>)
    ensures Newest(Newest(a) + b) == Newest(a + b)
    ensures Newest(a + Newest(b)) == Newest(a + b)
  {
    hide Newest;
    NewestOfOlderPart(a, b);
    NewestOfNewerPart(a, b);
  }

  // --- one send at a time ----------------------------------------------------------------------

  /**
   Every fix that went to the buffer since the last send that got through (or the last stop), from
   the watcher or from a wake-up that could not post it, and those now being sent.
   */
  datatype History = History(fixes: seq<Ping>, sending: seq<Ping>)

  predicate Takes(w: World, a: Action) {
    (a.FlushNow? || (a.Tick? && w.timer.Some?)) && w.buffer != []
  }

  predicate Settles(w: World, a: Action) {
    a.Sent? && a.id in w.procs && w.procs[a.id].Flush?
  }

  predicate FailsToPost(w: World, a: Action) {
    a.Sent? && !a.ok && a.id in w.procs && w.procs[a.id].Wake? && w.procs[a.id].stage.Posting?
  }

  function Record(w: World, h: History, a: Action): History {
    if Takes(w, a) then History([], h.fixes)
    else if Settles(w, a) then (if a.ok then h.(sending := []) else History(h.sending + h.fixes, []))
    else if a.WatcherFix? && a.sub in w.live then h.(fixes := h.fixes + [a.fix])
    else if FailsToPost(w, a) then h.(fixes := h.fixes + w.procs[a.id].pings)
    else if a.StopSharing? then h.(fixes := [])
    else if a.ProcessDeath? then History([], [])
    else h
  }

  function Recorded(w: World, h: History, actions: seq<Action>): History
    decreases |actions|
  {
    if actions == [] then h else Recorded(Step(w, actions[0]), Record(w, h, actions[0]), actions[1..])
  }

  ghost predicate NoneSending(w: World) {
    forall id :: id in w.procs ==> !w.procs[id].Flush?
  }

  /** The buffer is only ever taken when no send is in flight. */
  ghost predicate OneAtATime(w: World, actions: seq<Action>)
    decreases |actions|
  {
    actions != [] ==>
      (Takes(w, actions[0]) ==> NoneSending(w)) && OneAtATime(Step(w, actions[0]), actions[1..])
  }

  ghost predicate Agrees(w: World, h: History) {
    && w.buffer == Newest(h.fixes)
    && (NoneSending(w) ==> h.sending == [])
    && (forall i, j :: i in w.procs && j in w.procs && w.procs[i].Flush? && w.procs[j].Flush? ==> i == j)
    && (forall i :: i in w.procs && w.procs[i].Flush? ==> w.procs[i].sending == Newest(h.sending))
  }

  lemma ResumeSends(w: World, id: nat, yes: bool)
    requires Wf(w)
    ensures var v := ResumeProc(w, id, yes);
            && v.buffer == w.buffer
            && (forall i :: (i in v.procs && v.procs[i].Flush?) <==> (i in w.procs && w.procs[i].Flush?))
            && (forall i :: i in v.procs && v.procs[i].Flush? ==> v.procs[i] == w.procs[i])
  {
    hide ResumeCall;
  }

  lemma CarrySends(w: World, id: nat)
    requires Wf(w)
    ensures var v := CarryProc(w, id);
            && v.buffer == w.buffer
            && (forall i :: (i in v.procs && v.procs[i].Flush?) <==> (i in w.procs && w.procs[i].Flush?))
            && (forall i :: i in v.procs && v.procs[i].Flush? ==> v.procs[i] == w.procs[i])
  {}

  lemma AgreesSame(w: World, v: World, h: History)
    requires Agrees(w, h) && v.buffer == w.buffer
    requires forall i :: (i in v.procs && v.procs[i].Flush?) <==> (i in w.procs && w.procs[i].Flush?)
    requires forall i :: i in v.procs && v.procs[i].Flush? ==> v.procs[i] == w.procs[i]
    ensures Agrees(v, h)
  {
    if NoneSending(v) { assert NoneSending(w); }
  }

  lemma AgreesTake(w: World, h: History, a: Action)
    requires Wf(w) && Agrees(w, h) && Takes(w, a) && NoneSending(w)
    ensures Agrees(Step(w, a), Record(w, h, a))
  {
    var v := Step(w, a);
    assert v.procs[w.next].Flush?;
  }

  lemma AgreesSettle(w: World, h: History, a: Action)
    requires Wf(w) && Agrees(w, h) && Settles(w, a)
    ensures Agrees(Step(w, a), Record(w, h, a))
  {
    if !a.ok {
      NewestOfParts(h.sending, Newest(h.fixes));
      NewestOfParts(h.sending, h.fixes);
    }
  }

  lemma AgreesFix(w: World, h: History, a: Action)
    requires Agrees(w, h) && a.WatcherFix?
    ensures Agrees(Step(w, a), Record(w, h, a))
  {
    NewestOfParts(h.fixes, [a.fix]);
    if NoneSending(Step(w, a)) { assert NoneSending(w); }
  }

  lemma AgreesPost(w: World, h: History, a: Action)
    requires Agrees(w, h) && FailsToPost(w, a)
    ensures Agrees(Step(w, a), Record(w, h, a))
  {
    hide Newest;
    NewestOfParts(h.fixes, w.procs[a.id].pings);
    var v := Step(w, a);
    forall i: nat ensures (i in v.procs && v.procs[i].Flush?) <==> (i in w.procs && w.procs[i].Flush?) {}
    if NoneSending(v) { assert NoneSending(w); }
  }

  lemma AgreesStop(w: World, h: History)
    requires Wf(w) && Agrees(w, h)
    ensures Agrees(Step(w, StopSharing), h.(fixes := []))
  {
    var v := Step(w, StopSharing);
    forall i: nat ensures (i in v.procs && v.procs[i].Flush?) <==> (i in w.procs && w.procs[i].Flush?) {}
    if NoneSending(v) { assert NoneSending(w); }
  }

  lemma AgreesInit(w: World)
    requires w.buffer == [] && w.procs == map[]
    ensures Agrees(w, History([], []))
  {}

  lemma AgreesStep(w: World, h: History, a: Action)
    requires Wf(w) && Agrees(w, h)
    requires Takes(w, a) ==> NoneSending(w)
    ensures Agrees(Step(w, a), Record(w, h, a))
  {
    hide Agrees, ResumeProc, CarryProc, Newest, NoneSending;
    if Takes(w, a) {
      AgreesTake(w, h, a);
    } else if Settles(w, a) {
      AgreesSettle(w, h, a);
    } else if FailsToPost(w, a) {
      AgreesPost(w, h, a);
    } else {
      match a
      case Resume(id, yes) => ResumeSends(w, id, yes); AgreesSame(w, Step(w, a), h);
      case Carry(id) => CarrySends(w, id); AgreesSame(w, Step(w, a), h);
      case WatcherFix(_, _) => AgreesFix(w, h, a);
      case StopSharing => AgreesStop(w, h);
      case ProcessDeath => AgreesInit(Step(w, a));
      case Sent(id, _, _) =>
        AgreesSame(w, Step(w, a), h);
      case _ => AgreesSame(w, Step(w, a), h);
    }
  }

  lemma {:induction false} AgreesRun(w: World, h: History, actions: seq<Action>)
    requires Wf(w) && Agrees(w, h) && OneAtATime(w, actions)
    ensures Agrees(Run(w, actions), Recorded(w, h, actions))
    decreases |actions|
  {
    hide Agrees, Wf, Step, Record, NoneSending, Takes;
    if actions != [] {
      AgreesStep(w, h, actions[0]);
      WfStep(w, actions[0]);
      AgreesRun(Step(w, actions[0]), Record(w, h, actions[0]), actions[1..]);
    }
  }

  /**
   In either build, with one send of the buffer in flight at a time, the idle buffer is the newest
   BUFFER_MAX of everything that went to it since the last send that got through, in order, however
   many sends failed in between.
   */
  lemma IdleBufferIsNewestUnsent(w: World, actions: seq<Action>)
    requires Init(w) && OneAtATime(w, actions)
    ensures var v := Run(w, actions);
            NoneSending(v) ==> v.buffer == Newest(Recorded(w, History([], []), actions).fixes)
  {
    WfInit(w);
    AgreesRun(w, History([], []), actions);
  }

  /** However many sends overlap, in either build, nothing held or being sent exceeds the bound. */
  lemma BufferIsBounded(w: World, actions: seq<Action>)
    requires Init(w)
    ensures var v := Run(w, actions);
            && |v.buffer| <= BUFFER_MAX
            && forall id :: id in v.procs && v.procs[id].Flush? ==> |v.procs[id].sending| <= BUFFER_MAX
  {
    WfInit(w);
    WfRun(w, actions);
    var v := Run(w, actions);
    forall id | id in v.procs && v.procs[id].Flush?
      ensures |v.procs[id].sending| <= BUFFER_MAX
    {
      assert ProcOk(v, v.procs[id]);
    }
  }

  /**
   Where two overlapping sends that fail put their fixes: each in front of what is there by then.
   Between the two, `fixes` may have joined the buffer.
   */
  lemma OverlappingFailuresStack(w: World, mid: World, first: nat, second: nat, fixes: seq<Ping>)
    requires first in w.procs && w.procs[first].Flush? && second in mid.procs && mid.procs[second].Flush?
    requires mid.buffer == Newest(Step(w, Sent(first, false, false)).buffer + fixes)
    ensures Step(mid, Sent(second, false, false)).buffer ==
            Newest(mid.procs[second].sending + w.procs[first].sending + (w.buffer + fixes))
  {
    hide Newest;
    var a, b := w.procs[first].sending, mid.procs[second].sending;
    NewestOfParts(a + w.buffer, fixes);
    assert a + w.buffer + fixes == a + (w.buffer + fixes);
    assert b + (a + (w.buffer + fixes)) == b + a + (w.buffer + fixes);
    NewestOfParts(b, a + (w.buffer + fixes));
  }

  lemma LastOfNewest(s: seq<Ping>)
    requires s != []
    ensures Newest(s) != [] && Newest(s)[|Newest(s)| - 1] == s[|s| - 1]
  {}

  /** What stands behind the cut does not matter, once there are enough newer fixes. */
  lemma NewestWithin(s: seq<Ping>, c: seq<Ping>)
    ensures |c| >= BUFFER_MAX ==> Newest(s + c) == Newest(c)
    ensures |c| < BUFFER_MAX ==> Newest(s + c) == (if |s| + |c| <= BUFFER_MAX then s else s[|s| + |c| - BUFFER_MAX..]) + c
  {
    if |c| >= BUFFER_MAX {
      assert (s + c)[|s| + |c| - BUFFER_MAX..] == c[|c| - BUFFER_MAX..];
    } else if |s| + |c| > BUFFER_MAX {
      DropOfParts(s, c, |s| + |c| - BUFFER_MAX);
    }
  }

  /**
   Two sends overlap, the one with the fixes `a` having taken its own before the one with `b`, and
   both fail; between the two failures `fixes` join the buffer.  The newest fixes are kept in order
   exactly when the newer send fails first, or when the buffer has filled up behind them both.
   */
  lemma OverlappingFailuresKeepOrderExactly(
    w: World, mid: World, older: nat, newer: nat, newerFirst: bool, fixes: seq<Ping>, a: seq<Ping>, b: seq<Ping>)
    requires older in w.procs && newer in w.procs && w.procs[older].Flush? && w.procs[newer].Flush?
    requires a == w.procs[older].sending != [] && b == w.procs[newer].sending != [] && a[|a| - 1] != b[|b| - 1]
    requires var one, two := if newerFirst then newer else older, if newerFirst then older else newer;
             && two in mid.procs && mid.procs[two] == w.procs[two]
             && mid.buffer == Newest(Step(w, Sent(one, false, false)).buffer + fixes)
    ensures var two := if newerFirst then older else newer;
            Step(mid, Sent(two, false, false)).buffer == Newest(a + b + (w.buffer + fixes)) <==>
            newerFirst || |w.buffer + fixes| >= BUFFER_MAX
  {
    hide Step, Newest;
    var c := w.buffer + fixes;
    if newerFirst {
      OverlappingFailuresStack(w, mid, newer, older, fixes);
    } else {
      OverlappingFailuresStack(w, mid, older, newer, fixes);
      NewestWithin(a + b, c);
      NewestWithin(b + a, c);
      if |c| < BUFFER_MAX {
        LastBeforeCut(a + b, c);
        LastBeforeCut(b + a, c);
        assert (a + b)[|a + b| - 1] == b[|b| - 1] && (b + a)[|b + a| - 1] == a[|a| - 1];
      }
    }
  }

  lemma LastBeforeCut(s: seq<Ping>, c: seq<Ping>)
    requires s != [] && |c| < BUFFER_MAX
    ensures |Newest(s + c)| > |c| && Newest(s + c)[|Newest(s + c)| - |c| - 1] == s[|s| - 1]
  {
    NewestWithin(s, c);
  }

  /**
   Settled older send first, it is the newer send that the cut falls on: into an empty buffer every
   older fix goes back, and of the newer ones only as many as there is room for.
   */
  lemma OlderFirstDropsNewer(w: World, older: nat, newer: nat)
    requires Wf(w) && older != newer && older in w.procs && newer in w.procs && w.buffer == []
    requires w.procs[older].Flush? && w.procs[newer].Flush?
    ensures var a, b := w.procs[older].sending, w.procs[newer].sending;
            var v := Step(Step(w, Sent(older, false, false)), Sent(newer, false, false));
            v.buffer == (if |a| + |b| <= BUFFER_MAX then b else b[|a| + |b| - BUFFER_MAX..]) + a
  {
    hide Step, Newest;
    var a, b := w.procs[older].sending, w.procs[newer].sending;
    assert ProcOk(w, w.procs[older]) && ProcOk(w, w.procs[newer]);
    var mid := Step(w, Sent(older, false, false));
    SettledSend(w, older, newer);
    OverlappingFailuresStack(w, mid, older, newer, []);
    assert b + a + ([] + []) == b + a;
    NewestWithin(b, a);
    if |a| >= BUFFER_MAX {
      NewestIsAll(a);
      assert b[|b|..] + a == a;
    }
  }

  lemma SettledSend(w: World, one: nat, two: nat)
    requires Wf(w) && one != two && one in w.procs && two in w.procs && w.procs[one].Flush?
    ensures var v := Step(w, Sent(one, false, false));
            two in v.procs && v.procs[two] == w.procs[two] && v.buffer == Newest(v.buffer + [])
  {
    var v := Step(w, Sent(one, false, false));
    assert v.buffer + [] == v.buffer;
  }

  lemma NewestIsAll(s: seq<Ping>)
    requires |s| <= BUFFER_MAX
    ensures Newest(s) == s
  {}

  // --- after a stop ----------------------------------------------------------------------------

  /**
   A call that may yet put a fix into the buffer, in either build: a send, an overtaken start that
   asked for a watcher or for the task, or a wake-up that may yet post.
   */
  predicate Feeds(p: Proc) {
    match p
    case Start(_, _, _, wait) => wait.Watching? || wait.Registering?
    case Stop(_) => false
    case Flush(_, _) => true
    case Wake(_, stage) => !stage.Unregistering? && stage != LoadedSession(None)
  }

  /** No task and no watcher can report a fix, and no call can put one back. */
  ghost predicate NothingFeeds(w: World) {
    !w.registered && w.live == {} && forall id :: id in w.procs ==> !Feeds(w.procs[id])
  }

  ghost predicate Stopped(w: World) {
    Wf(w) && w.buffer == [] && w.status == Off && forall id :: id in w.procs ==> Stale(w, w.procs[id])
  }

  lemma ResumeFeedsNothing(w: World, p: Proc, yes: bool)
    requires ProcOk(w, p) && Stale(w, p) && !Feeds(p) && w.live == {} && (!w.foregroundOnly ==> w.watcher.None?)
    ensures var n := ResumeCall(w, p, yes);
            n.w.live == {} && n.w.status == w.status && (n.p.Some? ==> !Feeds(n.p.value))
  {
    match p
    case Start(_, _, _, _) => ResumeStartKeeps(w, p, yes);
    case _ =>
  }

  /** What one call does is enough to keep the buffer empty. */
  lemma StaysQuietMove(w: World, v: World, id: nat)
    requires Stopped(w) && NothingFeeds(w) && Wf(v) && v.buffer == [] && v.status == Off && v.generation >= w.generation
    requires !v.registered && v.live == {}
    requires forall i :: i in v.procs && i != id ==> i in w.procs && v.procs[i] == w.procs[i]
    requires id in v.procs ==> Stale(v, v.procs[id]) && !Feeds(v.procs[id])
    ensures Stopped(v) && NothingFeeds(v)
  {
    forall i | i in v.procs
      ensures Stale(v, v.procs[i]) && !Feeds(v.procs[i])
    {
      if i != id { assert Stale(w, w.procs[i]); }
    }
  }

  lemma StaysQuietResume(w: World, id: nat, yes: bool)
    requires Stopped(w) && NothingFeeds(w)
    ensures Stopped(ResumeProc(w, id, yes)) && NothingFeeds(ResumeProc(w, id, yes))
  {
    hide Wf, ResumeCall, Feeds, Moves;
    WfStep(w, Resume(id, yes));
    if id in w.procs {
      StoppedCall(w, id);
      ResumeFeedsNothing(w, w.procs[id], yes);
      StaysQuietMove(w, ResumeProc(w, id, yes), id);
    }
  }

  lemma StoppedCall(w: World, id: nat)
    requires Stopped(w) && id in w.procs
    ensures ProcOk(w, w.procs[id]) && Stale(w, w.procs[id])
    ensures !w.foregroundOnly ==> w.watcher.None?
  {}

  lemma StaysQuietCarry(w: World, id: nat)
    requires Stopped(w) && NothingFeeds(w)
    ensures Stopped(CarryProc(w, id)) && NothingFeeds(CarryProc(w, id))
  {
    hide Wf;
    WfStep(w, Carry(id));
    if id in w.procs {
      StoppedCall(w, id);
      StaysQuietMove(w, CarryProc(w, id), id);
    }
  }

  lemma StaysQuietStep(w: World, a: Action)
    requires Stopped(w) && NothingFeeds(w) && NoNewStart(a)
    ensures Stopped(Step(w, a)) && NothingFeeds(Step(w, a))
  {
    hide Wf, ResumeProc, CarryProc;
    WfStep(w, a);
    match a
    case Resume(id, yes) => StaysQuietResume(w, id, yes);
    case Sent(id, _, _) => if id in w.procs { StoppedCall(w, id); StaysQuietMove(w, Step(w, a), id); }
    case Carry(id) => StaysQuietCarry(w, id);
    case Reject(id) => if id in w.procs { StoppedCall(w, id); StaysQuietMove(w, Step(w, a), id); }
    case UnregisterRejects(id) => if id in w.procs { StaysQuietMove(w, Step(w, a), id); }
    case RegisterRejects(_) =>
    case _ => StaysQuietMove(w, Step(w, a), w.next);
  }

  lemma {:induction false} StaysQuietRun(w: World, actions: seq<Action>)
    requires Stopped(w) && NothingFeeds(w)
    requires forall a :: a in actions ==> NoNewStart(a)
    ensures Run(w, actions).buffer == [] && Run(w, actions).status == Off
    decreases |actions|
  {
    hide Wf, Step, NothingFeeds;
    if actions != [] {
      StaysQuietStep(w, actions[0]);
      StaysQuietRun(Step(w, actions[0]), actions[1..]);
    }
  }

  lemma PostingFeeds(w: World, id: nat) returns (actions: seq<Action>)
    requires id in w.procs && w.procs[id].Wake? && w.procs[id].pings != [] && w.procs[id].stage.Posting?
    ensures (forall a :: a in actions ==> NoNewStart(a)) && Run(w, actions).buffer != []
  {
    actions := Extend(w, [], w, Sent(id, false, false));
    LastOfNewest(w.buffer + w.procs[id].pings);
  }

  lemma LoadedFeeds(w: World, id: nat) returns (actions: seq<Action>)
    requires id in w.procs && w.procs[id].Wake? && w.procs[id].pings != []
    requires w.procs[id].stage.LoadedSession? && w.procs[id].stage.session.Some?
    ensures (forall a :: a in actions ==> NoNewStart(a)) && Run(w, actions).buffer != []
  {
    var rest := PostingFeeds(Step(w, Resume(id, true)), id);
    actions := [Resume(id, true)] + rest;
    assert actions[1..] == rest;
  }

  /** A wake-up that may yet post fails to: its fixes join the buffer. */
  lemma WakeFeeds(w: World, id: nat) returns (actions: seq<Action>)
    requires id in w.procs && w.procs[id].Wake? && ProcOk(w, w.procs[id]) && Feeds(w.procs[id])
    ensures (forall a :: a in actions ==> NoNewStart(a)) && Run(w, actions).buffer != []
  {
    match w.procs[id].stage
    case LoadingSession =>
      var saved := Step(w, SaveSession(0));
      var rest := LoadedFeeds(Step(saved, Carry(id)), id);
      actions := [SaveSession(0), Carry(id)] + rest;
      assert actions[1..] == [Carry(id)] + rest && actions[1..][1..] == rest;
      assert Run(w, actions) == Run(saved, actions[1..]);
    case LoadedSession(_) => actions := LoadedFeeds(w, id);
    case Posting(_) => actions := PostingFeeds(w, id);
  }

  lemma WatcherFeeds(w: World, sub: nat) returns (actions: seq<Action>)
    requires sub in w.live
    ensures (forall a :: a in actions ==> NoNewStart(a)) && Run(w, actions).buffer != []
  {
    actions := Extend(w, [], w, WatcherFix(sub, 0));
    LastOfNewest(w.buffer + [0]);
  }

  lemma TaskFeeds(w: World) returns (actions: seq<Action>)
    requires w.registered && !w.foregroundOnly
    ensures (forall a :: a in actions ==> NoNewStart(a)) && Run(w, actions).buffer != []
  {
    var v := Step(w, TaskFixes([0]));
    assert v.procs[w.next] == Wake([0], LoadingSession);
    var rest := WakeFeeds(v, w.next);
    actions := [TaskFixes([0])] + rest;
    assert actions[1..] == rest;
  }

  lemma CallFeeds(w: World, id: nat) returns (actions: seq<Action>)
    requires id in w.procs && ProcOk(w, w.procs[id]) && Feeds(w.procs[id])
    ensures (forall a :: a in actions ==> NoNewStart(a)) && Run(w, actions).buffer != []
  {
    match w.procs[id]
    case Start(_, _, _, wait) =>
      var v := Step(w, Carry(id));
      var rest;
      if wait.Watching? {
        assert w.next in v.live;
        rest := WatcherFeeds(v, w.next);
      } else {
        rest := TaskFeeds(v);
      }
      actions := [Carry(id)] + rest;
      assert actions[1..] == rest;
    case Flush(_, sending) =>
      actions := Extend(w, [], w, Sent(id, false, false));
      LastOfNewest(sending + w.buffer);
    case Wake(_, _) => actions := WakeFeeds(w, id);
  }

  lemma SomethingFeeds(w: World) returns (actions: seq<Action>)
    requires Wf(w) && !NothingFeeds(w)
    ensures (forall a :: a in actions ==> NoNewStart(a)) && Run(w, actions).buffer != []
  {
    if w.registered {
      actions := TaskFeeds(w);
    } else if w.live != {} {
      var sub :| sub in w.live;
      actions := WatcherFeeds(w, sub);
    } else {
      var id :| id in w.procs && Feeds(w.procs[id]);
      actions := CallFeeds(w, id);
    }
  }

  /**
   Stopping forgets what was buffered and shows sharing as off.  In either build both stay so until
   sharing starts again exactly when, at the stop, the task is not registered, no send and no wake-up that may post
   is in flight, and no overtaken start holds or awaits a watcher or awaits its registration.
   */
  lemma BufferStaysForgottenExactly(w: World)
    requires Wf(w)
    ensures var v := Step(w, StopSharing);
            NothingFeeds(v) <==>
            forall actions :: (forall a :: a in actions ==> NoNewStart(a)) ==>
              Run(v, actions).buffer == [] && Run(v, actions).status == Off
  {
    var v := Step(w, StopSharing);
    StopWinds(w);
    assert Stopped(v);
    if NothingFeeds(v) {
      forall actions | forall a :: a in actions ==> NoNewStart(a)
        ensures Run(v, actions).buffer == [] && Run(v, actions).status == Off
      {
        StaysQuietRun(v, actions);
      }
    } else {
      var actions := SomethingFeeds(v);
      assert Run(v, actions).buffer != [];
    }
  }

  /**
   In either build a send that fails after the stop puts the ended session's fixes back, and the
   next session's first send carries them under its own token.
   */
  lemma LateFailureReachesNextSession(w: World, id: nat, token: Token)
    requires Wf(w) && id in w.procs && w.procs[id].Flush? && w.procs[id].sending != []
    ensures var refilled := Step(Step(w, StopSharing), Sent(id, false, false));
            var v := Step(refilled, FlushNow(token));
            && refilled.buffer == w.procs[id].sending
            && v.procs[refilled.next] == Flush(token, w.procs[id].sending)
  {
    assert ProcOk(w, w.procs[id]);
    var stopped := Step(w, StopSharing);
    assert stopped.procs[id] == w.procs[id];
    assert [] + w.procs[id].sending == w.procs[id].sending == w.procs[id].sending + [];
  }

  /** So does a wake-up of the ended session's task that fails to post after the stop. */
  lemma LateWakeReachesNextSession(w: World, id: nat, posted: Token, token: Token)
    requires Wf(w) && id in w.procs && w.procs[id].Wake? && w.procs[id].stage == Posting(posted)
    requires w.procs[id].pings != []
    ensures var refilled := Step(Step(w, StopSharing), Sent(id, false, false));
            var v := Step(refilled, FlushNow(token));
            && refilled.buffer == Newest(w.procs[id].pings)
            && v.procs[refilled.next] == Flush(token, Newest(w.procs[id].pings))
  {
    assert ProcOk(w, w.procs[id]);
    var stopped := Step(w, StopSharing);
    assert stopped.procs[id] == w.procs[id];
    assert [] + w.procs[id].pings == w.procs[id].pings;
  }
}
