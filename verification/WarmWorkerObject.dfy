/** The warm worker as the object the server holds: the stretches of its methods between
    two awaits, each proved to be the step the step system takes. */
module WarmWorkerObject {
  import opened Options
  import opened WarmWorker

  class Worker {
    // the worker's own fields
    var proc: Option<nat>
    var key: Option<Key>
    var reaper: Option<nat>
    var releasing: Option<nat>
    // process groups, tasks, and the request that holds the lock
    var quarantined: bool
    var groups: seq<Group>
    var kills: seq<Kill>
    var reapers: seq<Reaper>
    var req: Request

    ghost function View(): State
      reads this
    {
      State(quarantined, groups, kills, reapers, proc, key, reaper, releasing, req)
    }

    constructor ()
      ensures View() == INIT
    {
      proc, key, reaper, releasing := None, None, None, None;
      quarantined, groups, kills, reapers, req := false, [], [], [], NoRequest;
    }

    method CancelReaper()
      modifies this
      ensures View() == DropReaper(old(View()))
    {
      if reaper.Some? && reaper.value < |reapers| && reapers[reaper.value].Sleeping? {
        reapers := reapers[reaper.value := Gone];
      }
      reaper := None;
    }

    /** `release` up to its await; the result is the kill it waits for. */
    method StartRelease() returns (wait: Option<nat>)
      modifies this
      ensures (View(), wait) == BeginRelease(DropReaper(old(View())))
    {
      CancelReaper();
      if releasing.None? {
        if proc.None? {
          return None;
        }
        var taken := proc.value;
        proc := None;
        releasing := Some(|kills|);
        kills := kills + [Kill(taken, Killing)];
      }
      wait := releasing;
    }

    /** The `finally` of `release`. */
    method FinishRelease(waited: nat)
      modifies this
      ensures View() == EndRelease(old(View()), waited)
    {
      if releasing == Some(waited) && waited < |kills| && !kills[waited].status.Killing? {
        releasing := None;
        key := None;
      }
    }

    method StartGroup(plan: Plan)
      modifies this
      ensures View() == Spawn(old(View()), plan)
    {
      req := Spawning(plan, |groups|);
      groups := groups + [Group(if plan.Warm? then Some(plan.key) else None, true)];
    }

    /** `render` after its release, up to the next await. */
    method StartRender(wanted: Key)
      modifies this
      ensures View() == Proceed(old(View()), Serve(Warm(wanted)))
    {
      CancelReaper();
      if proc.None? {
        StartGroup(Warm(wanted));
      } else {
        req := Rendering(proc.value, wanted);
      }
    }

    /** `render` from its first line to its first await. */
    method Render(wanted: Key, exited: bool)
      modifies this
      ensures View() == Admitted(old(View()), Warm(wanted), exited)
    {
      if releasing.Some? || (proc.Some? && (key != Some(wanted) || exited)) {
        var wait := StartRelease();
        if wait.Some? {
          req := AwaitRelease(wait.value, Serve(Warm(wanted)), 0);
          return;
        }
      }
      StartRender(wanted);
    }

    /** The served request's last lines: bound the log, or schedule the reaper. */
    method FinishRender(logBig: bool)
      requires req.Rendering?
      modifies this
      ensures Apply(old(View()), RenderEnds(true, logBig)) == Option.Some(View())
    {
      if logBig {
        var wait := StartRelease();
        req := if wait.Some? then AwaitRelease(wait.value, Finish, 0) else Tail;
      } else {
        reaper := Some(|reapers|);
        reapers := reapers + [Sleeping];
        req := Tail;
      }
    }

    /** `_release_when_idle` after its sleep. */
    method WakeIdle(t: nat)
      requires t < |reapers|
      modifies this
      ensures View() == Woken(old(View()), t)
    {
      reapers := reapers[t := Gone];
      if !req.NoRequest? {
        return;
      }
      var wait := StartRelease();
      if wait.Some? {
        reapers := reapers[t := Waiting(wait.value)];
      }
    }
  }
}
