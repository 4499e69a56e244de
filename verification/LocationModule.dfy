/** The module-level variables of location.ts, and its functions run from one await to the next. */
module LocationModule {
  import opened Options
  import opened LocationSharing

  class Sharing {
    const foregroundOnly: bool
    // module state
    var generation: nat
    var timer: Option<Token>
    var watcher: Option<nat>
    var buffer: seq<Ping>
    var status: Status
    // the phone, and the calls in flight
    var registered: bool
    var live: set<nat>
    var session: Option<Token>
    var procs: map<nat, Proc>
    var next: nat
    // where this process began, and every step since
    ghost var first: World
    ghost var trace: seq<Action>

    ghost predicate Valid()
      reads this
    {
      Init(first) && View() == Run(first, trace)
    }

    /** A fresh process on a phone that may still have the task, and a rider, from before. */
    constructor (foregroundOnly: bool, registered: bool, session: Option<Token>)
      requires foregroundOnly ==> !registered
      ensures Valid() && trace == [] && first == View()
      ensures View().foregroundOnly == foregroundOnly && View().registered == registered && View().session == session
    {
      this.foregroundOnly := foregroundOnly;
      generation, timer, watcher, buffer, status := 0, None, None, [], Off;
      this.registered, live, this.session, procs, next := registered, {}, session, map[], 0;
      first := World(foregroundOnly, 0, None, None, [], Off, registered, {}, session, map[], 0);
      trace := [];
    }

    function View(): World
      reads this
    {
      World(foregroundOnly, generation, timer, watcher, buffer, status, registered, live, session, procs, next)
    }

    /** One more step was taken. */
    ghost method Took(a: Action)
      requires Init(first) && View() == Step(Run(first, trace), a)
      modifies this`trace
      ensures Valid() && trace == old(trace) + [a]
    {
      var longer := Extend(first, trace, Run(first, trace), a);
      trace := longer;
    }

    /** What the phone does by itself, or the app outside this module: any step that is none of the methods below. */
    method Environment(a: Action)
      requires Valid()
      requires a.Carry? || a.UnregisterRejects? || a.RegisterRejects? || a.SaveSession? || a.ClearSession?
      modifies this
      ensures View() == Step(old(View()), a) && Valid() && first == old(first) && trace == old(trace) + [a]
    {
      hide ResumeCall, CarryCall, SettleSend, RejectProc, SwallowUnregister;
      var v := Step(View(), a);
      SameBuild(View(), a);
      generation, timer, watcher, buffer, status := v.generation, v.timer, v.watcher, v.buffer, v.status;
      registered, live, session, procs, next := v.registered, v.live, v.session, v.procs, v.next;
      Took(a);
    }

    /** Suspend the call `id` at its next await. */
    method Await(id: nat, p: Proc)
      modifies this`procs
      ensures procs == old(procs)[id := p]
    {
      procs := procs[id := p];
    }

    method Return(id: nat)
      modifies this`procs
      ensures procs == old(procs) - {id}
    {
      procs := procs - {id};
    }

    method StartSharing(token: Token) returns (id: nat)
      requires Valid()
      modifies this
      ensures View() == Step(old(View()), Action.StartSharing(token)) && id == old(next)
      ensures Valid() && first == old(first) && trace == old(trace) + [Action.StartSharing(token)]
    {
      var mine := generation;
      id := next;
      next := next + 1;
      Await(id, Start(mine, token, false, ForegroundPermission));
      Took(Action.StartSharing(token));
    }

    /** startSharing after one of its questions about permissions and services. */
    method ResumePermissions(id: nat, yes: bool)
      requires id in procs && procs[id].Start?
      requires var x := procs[id].wait;
               x.ForegroundPermission? || x.ForegroundPrompt? || x.LocationServices? || x.BackgroundPermission?
      requires Valid()
      modifies this
      ensures View() == Step(old(View()), Resume(id, yes))
      ensures Valid() && first == old(first) && trace == old(trace) + [Resume(id, yes)]
    {
      var p := procs[id];
      if p.mine != generation {
        Return(id);
      } else if p.wait.ForegroundPermission? {
        Await(id, p.(wait := if yes then LocationServices else ForegroundPrompt));
      } else if !p.wait.BackgroundPermission? && !yes {
        status := Denied;
        Return(id);
      } else if p.wait.ForegroundPrompt? {
        Await(id, p.(wait := LocationServices));
      } else if p.wait.LocationServices? {
        Await(id, p.(wait := BackgroundPermission));
      } else if !foregroundOnly {
        Await(id, p.(background := yes, wait := Restarting(Asking)));
      } else if watcher == None {
        Await(id, p.(background := false, wait := Watching));
      } else {
        FinishStart(id, p.(background := false));
      }
      Took(Resume(id, yes));
    }

    /** startSharing once the watcher runs, the channel is there or the task is registered. */
    method ResumeSetUp(id: nat)
      requires id in procs && procs[id].Start?
      requires procs[id].wait.WatchStarted? || procs[id].wait.Channel? || procs[id].wait.Registered?
      requires Valid()
      modifies this
      ensures View() == Step(old(View()), Resume(id, true))
      ensures Valid() && first == old(first) && trace == old(trace) + [Resume(id, true)]
    {
      var p := procs[id];
      var stale := p.mine != generation;
      if p.wait.WatchStarted? {
        if stale || watcher.Some? {
          live := live - {p.wait.sub};
          Return(id);
        } else {
          watcher := Some(p.wait.sub);
          FinishStart(id, p);
        }
      } else if p.wait.Registered? {
        FinishStart(id, p);
      } else if stale {
        Return(id);
      } else {
        Await(id, p.(wait := Registering));
      }
      Took(Resume(id, true));
    }

    /** startSharing within a stopLocationTask of its own: before registering, or to clean up. */
    method ResumeUnregistering(id: nat)
      requires id in procs && procs[id].Start? && (procs[id].wait.Restarting? || procs[id].wait.CleaningUp?)
      requires procs[id].wait.u.Asked? || procs[id].wait.u.Stopped?
      requires Valid()
      modifies this
      ensures View() == Step(old(View()), Resume(id, true))
      ensures Valid() && first == old(first) && trace == old(trace) + [Resume(id, true)]
    {
      var p := procs[id];
      if p.wait.u == Asked(true) {
        Await(id, p.(wait := if p.wait.Restarting? then Restarting(Stopping) else CleaningUp(Stopping)));
      } else if p.wait.Restarting? {
        Await(id, p.(wait := Channel));
      } else {
        Return(id);
      }
      Took(Resume(id, true));
    }

    method FinishStart(id: nat, p: Proc)
      requires p.Start?
      modifies this`live, this`watcher, this`status, this`timer, this`procs
      ensures View() == Continue(id, Finish(old(View()), p))
    {
      if p.mine != generation {
        if foregroundOnly {
          DropWatcher();
          Return(id);
        } else {
          Await(id, p.(wait := CleaningUp(Asking)));
        }
        return;
      }
      status := Status.Sharing(p.background);
      if timer == None { timer := Some(p.token); }
      Return(id);
    }

    /** stopLocationTask in Expo Go. */
    method DropWatcher()
      modifies this`live, this`watcher
      ensures View() == RemoveWatcher(old(View()))
    {
      if watcher.Some? { live := live - {watcher.value}; }
      watcher := None;
    }

    /** startSharing's catch. */
    method RejectStart(id: nat)
      requires id in procs && procs[id].Start?
      requires var x := procs[id].wait;
               x.ForegroundPermission? || x.ForegroundPrompt? || x.Watching? || x.Restarting? || x.Registering?
      requires Valid()
      modifies this
      ensures View() == Step(old(View()), Reject(id))
      ensures Valid() && first == old(first) && trace == old(trace) + [Reject(id)]
    {
      if procs[id].mine == generation { status := Denied; }
      Return(id);
      Took(Reject(id));
    }

    method StopSharing()
      requires Valid()
      modifies this
      ensures View() == Step(old(View()), Action.StopSharing)
      ensures Valid() && first == old(first) && trace == old(trace) + [Action.StopSharing]
    {
      generation := generation + 1;
      timer := None;
      buffer := [];
      status := Off;
      if foregroundOnly {
        DropWatcher();
      } else {
        var id := next;
        next := next + 1;
        Await(id, Stop(Asking));
      }
      Took(Action.StopSharing);
    }

    /** stopSharing after one of stopLocationTask's awaits. */
    method ResumeStop(id: nat)
      requires id in procs && procs[id].Stop?
      requires Valid()
      modifies this
      ensures View() == Step(old(View()), Resume(id, true))
      ensures Valid() && first == old(first) && trace == old(trace) + [Resume(id, true)]
    {
      match procs[id].u {
        case Asked(started) => if started { Await(id, Stop(Stopping)); } else { Return(id); }
        case Stopped => Return(id);
        case u => Await(id, Stop(u));
      }
      Took(Resume(id, true));
    }

    method Flush(token: Token)
      modifies this`buffer, this`procs, this`next
      ensures View() == TakeBuffer(old(View()), token)
    {
      if |buffer| == 0 { return; }
      var sending := buffer;
      buffer := [];
      var id := next;
      next := next + 1;
      Await(id, Proc.Flush(token, sending));
    }

    method FlushNow(token: Token)
      requires Valid()
      modifies this
      ensures View() == Step(old(View()), Action.FlushNow(token))
      ensures Valid() && first == old(first) && trace == old(trace) + [Action.FlushNow(token)]
    {
      Flush(token);
      Took(Action.FlushNow(token));
    }

    /** The timer's callback. */
    method Tick()
      requires Valid()
      modifies this
      ensures View() == Step(old(View()), Action.Tick)
      ensures Valid() && first == old(first) && trace == old(trace) + [Action.Tick]
    {
      if timer.Some? { Flush(timer.value); }
      Took(Action.Tick);
    }

    method SettleFlush(id: nat, ok: bool, background: bool)
      requires id in procs && procs[id].Flush?
      requires Valid()
      modifies this
      ensures View() == Step(old(View()), Sent(id, ok, background))
      ensures Valid() && first == old(first) && trace == old(trace) + [Sent(id, ok, background)]
    {
      if ok {
        status := Status.Sharing(background);
      } else {
        buffer := Newest(procs[id].sending + buffer);
        status := Pending(|buffer|);
      }
      Return(id);
      Took(Sent(id, ok, background));
    }

    /** The background task is handed a batch of fixes. */
    method TaskWakes(fixes: seq<Ping>)
      requires registered
      requires Valid()
      modifies this
      ensures View() == Step(old(View()), TaskFixes(fixes))
      ensures Valid() && first == old(first) && trace == old(trace) + [TaskFixes(fixes)]
    {
      if |fixes| != 0 {
        var id := next;
        next := next + 1;
        Await(id, Wake(fixes, LoadingSession));
      }
      Took(TaskFixes(fixes));
    }

    method ResumeWakeUp(id: nat)
      requires id in procs && procs[id].Wake?
      requires Valid()
      modifies this
      ensures View() == Step(old(View()), Resume(id, true))
      ensures Valid() && first == old(first) && trace == old(trace) + [Resume(id, true)]
    {
      hide CarryProc, SettleSend;
      var p := procs[id];
      match p.stage {
        case LoadedSession(found) =>
          if found.Some? {
            Await(id, p.(stage := Posting(found.value)));
          } else if foregroundOnly {
            DropWatcher();
            Return(id);
          } else {
            Await(id, p.(stage := Unregistering(Asking)));
          }
        case Unregistering(u) =>
          match u {
            case Asked(started) => if started { Await(id, p.(stage := Unregistering(Stopping))); } else { Return(id); }
            case Stopped => Return(id);
            case _ => Await(id, p);
          }
        case _ =>
      }
      Took(Resume(id, true));
    }

    method SettleWakeUp(id: nat, ok: bool)
      requires id in procs && procs[id].Wake? && procs[id].stage.Posting?
      requires Valid()
      modifies this
      ensures View() == Step(old(View()), Sent(id, ok, true))
      ensures Valid() && first == old(first) && trace == old(trace) + [Sent(id, ok, true)]
    {
      if ok {
        status := Status.Sharing(true);
      } else {
        buffer := Newest(buffer + procs[id].pings);
      }
      Return(id);
      Took(Sent(id, ok, true));
    }

    /** The foreground watcher's callback. */
    method WatcherCallback(sub: nat, fix: Ping)
      requires sub in live
      requires Valid()
      modifies this
      ensures View() == Step(old(View()), WatcherFix(sub, fix))
      ensures Valid() && first == old(first) && trace == old(trace) + [WatcherFix(sub, fix)]
    {
      buffer := Newest(buffer + [fix]);
      Took(WatcherFix(sub, fix));
    }
  }

  // --- what holds of the module's variables ----------------------------------------------------

  /** Whatever was called and answered since the process began, the variables are well formed. */
  lemma StateIsWellFormed(s: Sharing)
    requires s.Valid()
    ensures Wf(s.View()) && |s.buffer| <= BUFFER_MAX
  {
    WfInit(s.first);
    WfRun(s.first, s.trace);
  }

  /** After a sign-out the variables hold no timer and no watcher, and once the starts and stops in
      flight have run out the phone reports nothing. */
  lemma SignedOutIsUntracked(s: Sharing, before: seq<Action>, after: seq<Action>)
    requires s.Valid() && s.trace == before + [Action.StopSharing] + after
    requires forall a :: a in after ==> Calm(a, false)
    ensures s.timer.None? && s.watcher.None?
    ensures Settled(s.View()) ==> !s.registered && s.live == {}
  {
    NobodyTrackedAfterSignOut(s.first, before, after);
  }

  /** After a sign-out the timer, if there is one again, sends for the session that began since. */
  lemma TimerIsTheSessions(s: Sharing, before: seq<Action>, after: seq<Action>, token: Token)
    requires s.Valid() && s.trace == before + [Action.StopSharing] + after
    requires forall a :: a in after ==> (a.StartSharing? ==> a.token == token) && !a.ProcessDeath?
    ensures s.timer.Some? ==> s.timer.value == token
  {
    TimerUsesLatestSession(s.first, before, after, token);
  }
}
