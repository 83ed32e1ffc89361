/** The warm worker of the video backend and its idle reaper, as a step system.  A step
    is the code between two awaits of one task, the end of a kill, or a process group
    dying by itself.  At most one request runs at a time: it holds the app's lock. */
module WarmWorker {
  import opened Options

  /** Module and weights of a worker. */
  type Key = nat

  /** How a request is served. */
  datatype Plan = Warm(key: Key) | PerRequest

  /** A process group; `key` is `None` for a per-request subprocess. */
  datatype Group = Group(key: Option<Key>, alive: bool)

  /** A task that kills a group and reaps it.  `Quarantine`: the group outlived SIGKILL.
      `Aborted`: that task was itself cancelled before the group was reaped. */
  datatype KillStatus = Killing | Reaped | Quarantine | Aborted
  datatype Kill = Kill(group: nat, status: KillStatus)

  /** What a request that waits for a release does afterwards. */
  datatype After = Serve(plan: Plan) | Finish

  /** The request that holds the lock, by the await it is suspended at.  `cancels` counts
      cancellations received during the wait. */
  datatype Request =
    | NoRequest
    | AwaitRelease(kill: nat, after: After, cancels: nat)
    | Spawning(plan: Plan, group: nat)
    | Rendering(group: nat, key: Key)
    | CleanupPending
    | CleanupWait(kill: nat, cancels: nat)
    | Running(group: nat)
    | KillWait(kill: nat, cancels: nat)
    | Tail

  /** An idle reaper task. */
  datatype Reaper = Sleeping | Waiting(kill: nat) | Gone

  datatype State = State(quarantined: bool, groups: seq<Group>, kills: seq<Kill>, reapers: seq<Reaper>,
                         proc: Option<nat>, key: Option<Key>, reaper: Option<nat>, releasing: Option<nat>,
                         req: Request)

  const INIT := State(false, [], [], [], None, None, None, None, NoRequest)

  datatype Label =
    | Admit(plan: Plan, exited: bool)
    | SpawnEnds(started: bool)
    | RenderEnds(good: bool, logBig: bool)
    | RunEnds
    | CleanupStarts
    | RequestResumes
    | RequestCancelled
    | RequestEnds
    | ReaperWakes(t: nat)
    | ReaperResumes(t: nat)
    | KillEnds(k: nat, reaped: bool)
    | GroupDies(g: nat)

  // ------------------------------------------------------------------- code fragments

  /** `release` and `render` drop the scheduled reaper. */
  function DropReaper(s: State): State {
    var reapers := if s.reaper.Some? && s.reaper.value < |s.reapers| && s.reapers[s.reaper.value].Sleeping?
                   then s.reapers[s.reaper.value := Gone] else s.reapers;
    s.(reapers := reapers, reaper := None)
  }

  /** The synchronous part of `release`: join the release under way, or take the process
      and start killing it.  The second result is the kill to wait for, if any. */
  function BeginRelease(s: State): (State, Option<nat>) {
    if s.releasing.Some? then (s, s.releasing)
    else if s.proc.None? then (s, None)
    else
      var k := |s.kills|;
      (s.(proc := None, releasing := Some(k), kills := s.kills + [Kill(s.proc.value, Killing)]), Some(k))
  }

  /** The `finally` of `release`: only the release it waited for is cleared. */
  function EndRelease(s: State, k: nat): State {
    if s.releasing == Some(k) && k < |s.kills| && !s.kills[k].status.Killing? then
      s.(releasing := None, key := None)
    else s
  }

  /** Start a process group. */
  function Spawn(s: State, plan: Plan): State {
    var g := |s.groups|;
    s.(groups := s.groups + [Group(if plan.Warm? then Some(plan.key) else None, true)],
       req := Spawning(plan, g))
  }

  /** Continue once no release is under way. */
  function Proceed(s: State, after: After): State {
    match after
    case Finish => s.(req := Tail)
    case Serve(Warm(key)) =>
      var s1 := DropReaper(s);
      if s1.proc.None? then Spawn(s1, Warm(key)) else s1.(req := Rendering(s1.proc.value, key))
    case Serve(PerRequest) => Spawn(s, PerRequest)
  }

  /** The request calls `release` directly. */
  function ReleaseThen(s: State, after: After): State {
    var (s1, wait) := BeginRelease(DropReaper(s));
    if wait.Some? then s1.(req := AwaitRelease(wait.value, after, 0)) else Proceed(s1, after)
  }

  /** Whether `render` must release first: a release is under way, the worker has other
      weights, or its leader exited. */
  predicate MustRelease(s: State, key: Key, exited: bool) {
    s.releasing.Some? || (s.proc.Some? && (s.key != Some(key) || exited))
  }

  /** Admission and everything up to the first await. */
  function Admitted(s: State, plan: Plan, exited: bool): State {
    match plan
    case PerRequest => ReleaseThen(s, Serve(PerRequest))
    case Warm(key) =>
      if MustRelease(s, key, exited) then ReleaseThen(s, Serve(plan)) else Proceed(s, Serve(plan))
  }

  function KillGroup(s: State, k: nat, status: KillStatus, alive: bool): State
    requires k < |s.kills| && s.kills[k].group < |s.groups|
  {
    var g := s.kills[k].group;
    s.(kills := s.kills[k := s.kills[k].(status := status)],
       groups := s.groups[g := s.groups[g].(alive := s.groups[g].alive && alive)],
       quarantined := s.quarantined || status.Quarantine?)
  }

  /** A cancellation is delivered to the request task at its await.  Waits on a kill are
      shielded from the first cancellation only (the cleanup of a failed render from the
      first two); the next one reaches the killing task.  None is delivered while a cleanup
      is pending: the release task was queued first, and the event loop runs its queue in
      order. */
  function Cancelled(s: State): Option<State> {
    match s.req
    case AwaitRelease(k, _, n) => Some(CountCancel(if n >= 1 then AbortKill(s, k) else s))
    case KillWait(k, n) => Some(CountCancel(if n >= 1 then AbortKill(s, k) else s))
    case CleanupWait(k, n) => Some(CountCancel(if n >= 2 then AbortKill(s, k) else s))
    case Spawning(_, g) =>
      if g < |s.groups| then Some(s.(groups := s.groups[g := s.groups[g].(alive := false)], req := Tail)) else None
    case Rendering(_, _) => Some(s.(req := CleanupPending))
    case Running(g) => Some(s.(kills := s.kills + [Kill(g, Killing)], req := KillWait(|s.kills|, 0)))
    case Tail => Some(s)
    case _ => None
  }

  /** One more cancellation of a request that waits for a kill. */
  function CountCancel(s: State): State {
    s.(req := match s.req
              case AwaitRelease(k, after, n) => AwaitRelease(k, after, n + 1)
              case KillWait(k, n) => KillWait(k, n + 1)
              case CleanupWait(k, n) => CleanupWait(k, n + 1)
              case _ => s.req)
  }

  function AbortKill(s: State, k: nat): State {
    if k < |s.kills| && s.kills[k].status.Killing? then
      s.(kills := s.kills[k := s.kills[k].(status := Aborted)])
    else s
  }

  /** The request resumes after the kill it waited for ended. */
  function Resumed(s: State): Option<State> {
    match s.req
    case AwaitRelease(k, after, n) =>
      if k >= |s.kills| || s.kills[k].status.Killing? then None
      else
        var s1 := EndRelease(s, k);
        Some(if n == 0 && s.kills[k].status.Reaped? then Proceed(s1, after) else s1.(req := Tail))
    case CleanupWait(k, n) =>
      if k >= |s.kills| || s.kills[k].status.Killing? then None else Some(EndRelease(s, k).(req := Tail))
    case KillWait(k, n) =>
      if k >= |s.kills| || s.kills[k].status.Killing? then None else Some(s.(req := Tail))
    case _ => None
  }

  /** A reaper's sleep is over: it gives up if a request runs, otherwise it releases.
      It is no longer asleep, so `release` does not cancel it. */
  function Woken(s: State, t: nat): State
    requires t < |s.reapers|
  {
    var awake := s.(reapers := s.reapers[t := Gone]);
    if !s.req.NoRequest? then awake
    else
      var (s1, wait) := BeginRelease(DropReaper(awake));
      if wait.Some? then s1.(reapers := s1.reapers[t := Waiting(wait.value)]) else s1
  }

  /** One step; `None` when it cannot happen. */
  function Apply(s: State, l: Label): Option<State> {
    match l
    case Admit(plan, exited) =>
      if s.quarantined || !s.req.NoRequest? then None else Some(Admitted(s, plan, exited))
    case SpawnEnds(started) =>
      if !s.req.Spawning? || s.req.group >= |s.groups| then None
      else if !started then
        Some(s.(groups := s.groups[s.req.group := s.groups[s.req.group].(alive := false)], req := Tail))
      else if s.req.plan.Warm? then
        Some(s.(proc := Some(s.req.group), key := Some(s.req.plan.key), req := Rendering(s.req.group, s.req.plan.key)))
      else Some(s.(req := Running(s.req.group)))
    case RenderEnds(good, logBig) =>
      if !s.req.Rendering? then None
      else if !good then Some(s.(req := CleanupPending))
      else if logBig then Some(ReleaseThen(s, Finish))
      else Some(s.(reapers := s.reapers + [Sleeping], reaper := Some(|s.reapers|), req := Tail))
    case RunEnds =>
      if !s.req.Running? then None
      else Some(s.(kills := s.kills + [Kill(s.req.group, Killing)], req := KillWait(|s.kills|, 0)))
    case CleanupStarts =>
      if !s.req.CleanupPending? then None
      else
        var (s1, wait) := BeginRelease(DropReaper(s));
        Some(s1.(req := if wait.Some? then CleanupWait(wait.value, 0) else Tail))
    case RequestResumes => Resumed(s)
    case RequestCancelled => Cancelled(s)
    case RequestEnds => if s.req.Tail? then Some(s.(req := NoRequest)) else None
    case ReaperWakes(t) =>
      if t < |s.reapers| && s.reapers[t].Sleeping? then Some(Woken(s, t)) else None
    case ReaperResumes(t) =>
      if t < |s.reapers| && s.reapers[t].Waiting? && s.reapers[t].kill < |s.kills|
         && !s.kills[s.reapers[t].kill].status.Killing? then
        Some(EndRelease(s, s.reapers[t].kill).(reapers := s.reapers[t := Gone]))
      else None
    case KillEnds(k, reaped) =>
      if k < |s.kills| && s.kills[k].status.Killing? && s.kills[k].group < |s.groups| then
        Some(KillGroup(s, k, if reaped then Reaped else Quarantine, !reaped))
      else None
    case GroupDies(g) =>
      if g < |s.groups| then Some(s.(groups := s.groups[g := s.groups[g].(alive := false)])) else None
  }

  // ------------------------------------------------------------------- the invariant

  /** The kill the request waits for. */
  function WaitedKill(r: Request): Option<nat> {
    match r
    case AwaitRelease(k, _, _) => Some(k)
    case CleanupWait(k, _) => Some(k)
    case KillWait(k, _) => Some(k)
    case _ => None
  }

  /** The group the request itself is starting or running. */
  function OwnGroup(r: Request): Option<nat> {
    match r
    case Spawning(_, g) => Some(g)
    case Running(g) => Some(g)
    case _ => None
  }

  predicate RequestSound(s: State) {
    && (WaitedKill(s.req).Some? ==> WaitedKill(s.req).value < |s.kills|)
    && (OwnGroup(s.req).Some? ==> OwnGroup(s.req).value < |s.groups| && s.proc.None? && s.releasing.None?)
    && (s.req.AwaitRelease? || s.req.CleanupWait? ==>
          s.proc.None? && (s.releasing.None? || s.releasing == WaitedKill(s.req)))
    && (s.req.KillWait? ==> s.proc.None? && s.releasing.None?)
    && (s.req.Rendering? ==> s.proc == Some(s.req.group) && s.key == Some(s.req.key))
    && (s.req.Spawning? && s.req.plan.Warm? ==> s.groups[s.req.group].key == Some(s.req.plan.key))
  }

  /** At most one kill is under way, and somebody answers for it. */
  predicate KillsSound(s: State) {
    && (forall k :: 0 <= k < |s.kills| ==> s.kills[k].group < |s.groups|)
    && (forall k :: 0 <= k < |s.kills| && s.kills[k].status.Killing? ==>
          s.releasing == Some(k) || (s.req.KillWait? && s.req.kill == k))
  }

  /** Kill `k` is about group `g` and did not reap it. */
  predicate KillOf(kills: seq<Kill>, k: int, g: nat) {
    0 <= k < |kills| && kills[k].group == g && !kills[k].status.Reaped?
  }

  /** Every live group is the worker, the request's own, or the object of a kill that is
      under way, quarantined or aborted. */
  ghost predicate GroupAnswered(s: State, g: nat) {
    || s.proc == Some(g)
    || OwnGroup(s.req) == Some(g)
    || exists k :: KillOf(s.kills, k, g)
  }

  ghost predicate GroupsSound(s: State) {
    forall g :: 0 <= g < |s.groups| && s.groups[g].alive ==> GroupAnswered(s, g)
  }

  /** The worker is a group started for the key the fields name, and no release is under
      way beside it. */
  predicate WorkerSound(s: State) {
    && (s.proc.Some? ==>
      (s.proc.value < |s.groups| && s.releasing.None? && s.key.Some? && s.groups[s.proc.value].key == s.key))
    && (s.releasing.Some? ==> s.releasing.value < |s.kills|)
  }

  predicate ReapersSound(s: State) {
    && (forall t :: 0 <= t < |s.reapers| && s.reapers[t].Sleeping? ==> s.reaper == Some(t))
    && (s.reaper.Some? ==> s.reaper.value < |s.reapers|)
    && (s.req.NoRequest? || s.req.Tail? || s.reaper.None?)
  }

  predicate QuarantineSound(s: State) {
    && (s.quarantined ==>
      (s.proc.None? && OwnGroup(s.req).None?
       && (forall k :: 0 <= k < |s.kills| ==> !s.kills[k].status.Killing?)
       && (s.req.AwaitRelease? && s.req.kill < |s.kills| ==> !s.kills[s.req.kill].status.Reaped?)))
    && (!s.quarantined ==> forall k :: 0 <= k < |s.kills| ==> !s.kills[k].status.Quarantine?)
  }

  predicate DistinctGroups(kills: seq<Kill>) {
    forall i, j :: 0 <= i < j < |kills| ==> kills[i].group != kills[j].group
  }

  predicate OneQuarantine(kills: seq<Kill>) {
    forall i, j :: 0 <= i < j < |kills| ==> !(kills[i].status.Quarantine? && kills[j].status.Quarantine?)
  }

  predicate Unclaimed(kills: seq<Kill>, group: Option<nat>) {
    forall k :: 0 <= k < |kills| ==> group != Some(kills[k].group)
  }

  /** No group is killed twice, or killed while it still is the worker or the request's
      own; and only one kill was ever given up by quarantine. */
  predicate KillsDistinct(s: State) {
    && DistinctGroups(s.kills) && OneQuarantine(s.kills)
    && Unclaimed(s.kills, s.proc) && Unclaimed(s.kills, OwnGroup(s.req))
  }

  ghost predicate Inv(s: State) {
    FieldsSound(s) && GroupsSound(s) && KillsDistinct(s)
  }

  /** The invariant apart from the bookkeeping of live groups. */
  predicate FieldsSound(s: State) {
    RequestSound(s) && KillsSound(s) && WorkerSound(s) && ReapersSound(s) && QuarantineSound(s)
  }

  // -------------------------------------------------------- every step keeps it

  /** A kill of group `g` was just started. */
  predicate FreshKill(s: State, s': State, g: nat) {
    |s'.kills| > |s.kills| && s'.kills[|s.kills|] == Kill(g, Killing)
  }

  /** How one step may change who answers for a group. */
  predicate Accounts(s: State, s': State) {
    && |s.groups| <= |s'.groups| && |s.kills| <= |s'.kills|
    && (forall g :: |s.groups| <= g < |s'.groups| ==> OwnGroup(s'.req) == Some(g))
    && (forall g :: 0 <= g < |s.groups| && s'.groups[g].alive ==> s.groups[g].alive)
    && (forall k :: 0 <= k < |s.kills| ==> s'.kills[k].group == s.kills[k].group)
    && (forall k :: 0 <= k < |s.kills| && s'.kills[k].status.Reaped? && !s.kills[k].status.Reaped? ==>
          s.kills[k].group < |s'.groups| && !s'.groups[s.kills[k].group].alive)
    && (s.proc.Some? ==> s'.proc == s.proc || FreshKill(s, s', s.proc.value))
    && (OwnGroup(s.req).Some? ==>
          var g := OwnGroup(s.req).value;
          || OwnGroup(s'.req) == Some(g) || s'.proc == Some(g) || FreshKill(s, s', g)
          || (g < |s'.groups| && !s'.groups[g].alive))
  }

  lemma GroupsStaySound(s: State, s': State)
    requires GroupsSound(s) && Accounts(s, s')
    ensures GroupsSound(s')
  {
    forall g | 0 <= g < |s'.groups| && s'.groups[g].alive
      ensures GroupAnswered(s', g)
    {
      if g < |s.groups| {
        assert GroupAnswered(s, g);
        if FreshKill(s, s', g) {
          assert KillOf(s'.kills, |s.kills|, g);
        } else if k :| KillOf(s.kills, k, g) {
          assert KillOf(s'.kills, k, g);
        }
      }
    }
  }

  /** A sound state in which the request neither waits nor has a group of its own. */
  predicate Quiet(s: State) {
    FieldsSound(s) && WaitedKill(s.req).None? && OwnGroup(s.req).None?
  }

  lemma DropReaperKeeps(s: State)
    requires FieldsSound(s)
    ensures FieldsSound(DropReaper(s)) && DropReaper(s).reaper.None?
    ensures DropReaper(s) == s.(reapers := DropReaper(s).reapers, reaper := None)
    ensures |DropReaper(s).reapers| == |s.reapers|
  {
  }

  lemma BeginReleaseKeeps(s: State, req: Request)
    requires Quiet(s) && !s.quarantined && s.reaper.None?
    requires BeginRelease(s).1.Some?
    requires WaitedKill(req) == BeginRelease(s).1 && !req.KillWait?
    ensures FieldsSound(BeginRelease(s).0.(req := req)) && Accounts(s, BeginRelease(s).0.(req := req))
  {
  }

  lemma NothingToRelease(s: State)
    requires FieldsSound(s) && BeginRelease(s).1.None?
    ensures BeginRelease(s).0 == s && s.proc.None? && s.releasing.None?
  {
  }

  /** Nothing is alive or dying that a new group could stand beside. */
  predicate Clear(s: State) {
    && FieldsSound(s) && !s.quarantined && s.proc.None? && s.releasing.None? && s.reaper.None?
    && (forall k :: 0 <= k < |s.kills| ==> !s.kills[k].status.Killing?)
  }

  lemma SpawnKeeps(s: State, plan: Plan)
    requires Clear(s) && OwnGroup(s.req).None?
    ensures FieldsSound(Spawn(s, plan)) && Accounts(s, Spawn(s, plan))
  {
  }

  /** Where `Proceed` may be reached. */
  predicate MayProceed(s: State, after: After) {
    && FieldsSound(s) && !s.quarantined && s.releasing.None?
    && OwnGroup(s.req).None? && !s.req.KillWait?
    && (s.proc.Some? ==> after.Serve? && after.plan.Warm? && s.key == Some(after.plan.key))
    && (after != Serve(PerRequest) || s.reaper.None?)
  }

  lemma NoKillUnderWay(s: State)
    requires KillsSound(s) && s.releasing.None? && !s.req.KillWait?
    ensures forall k :: 0 <= k < |s.kills| ==> !s.kills[k].status.Killing?
  {
  }

  lemma RenderOnKeeps(s: State, key: Key)
    requires FieldsSound(s) && !s.quarantined && s.releasing.None? && s.proc.Some? && s.reaper.None?
    requires OwnGroup(s.req).None? && !s.req.KillWait? && s.key == Some(key)
    ensures var s1 := s.(req := Rendering(s.proc.value, key)); FieldsSound(s1) && Accounts(s, s1)
  {
  }

  lemma ProceedKeeps(s: State, after: After)
    requires MayProceed(s, after) && (after.Finish? ==> s.req.AwaitRelease?)
    ensures FieldsSound(Proceed(s, after)) && Accounts(s, Proceed(s, after))
  {
    NoKillUnderWay(s);
    match after
    case Finish =>
    case Serve(PerRequest) =>
      SpawnKeeps(s, PerRequest);
    case Serve(Warm(key)) =>
      DropReaperKeeps(s);
      var s1 := DropReaper(s);
      if s1.proc.None? {
        SpawnKeeps(s1, Warm(key));
      } else {
        RenderOnKeeps(s1, key);
      }
  }

  lemma ReleaseThenKeeps(s: State, after: After)
    requires Quiet(s) && !s.quarantined
    requires if after.Serve? then s.req.NoRequest? else s.req.Rendering?
    ensures FieldsSound(ReleaseThen(s, after)) && Accounts(s, ReleaseThen(s, after))
  {
    var s0 := DropReaper(s);
    DropReaperKeeps(s);
    var (s1, wait) := BeginRelease(s0);
    if wait.Some? {
      BeginReleaseKeeps(s0, AwaitRelease(wait.value, after, 0));
    } else {
      NothingToRelease(s0);
      ProceedKeeps(s0, after);
    }
  }

  lemma AdmitKeeps(s: State, plan: Plan, exited: bool)
    requires FieldsSound(s) && Apply(s, Admit(plan, exited)).Some?
    ensures FieldsSound(Admitted(s, plan, exited)) && Accounts(s, Admitted(s, plan, exited))
  {
    match plan
    case PerRequest =>
      ReleaseThenKeeps(s, Serve(PerRequest));
    case Warm(key) =>
      if MustRelease(s, key, exited) {
        ReleaseThenKeeps(s, Serve(plan));
      } else {
        ProceedKeeps(s, Serve(plan));
      }
  }

  lemma SpawnEndsKeeps(s: State, started: bool)
    requires FieldsSound(s) && Apply(s, SpawnEnds(started)).Some?
    ensures var s' := Apply(s, SpawnEnds(started)).value; FieldsSound(s') && Accounts(s, s')
  {
  }

  lemma RenderEndsKeeps(s: State, good: bool, logBig: bool)
    requires FieldsSound(s) && Apply(s, RenderEnds(good, logBig)).Some?
    ensures var s' := Apply(s, RenderEnds(good, logBig)).value; FieldsSound(s') && Accounts(s, s')
  {
    assert !s.quarantined;
    if good && logBig {
      ReleaseThenKeeps(s, Finish);
    }
  }

  lemma RunEndsKeeps(s: State)
    requires FieldsSound(s) && Apply(s, RunEnds).Some?
    ensures var s' := Apply(s, RunEnds).value; FieldsSound(s') && Accounts(s, s')
  {
  }

  lemma CleanupStartsKeeps(s: State)
    requires FieldsSound(s) && Apply(s, CleanupStarts).Some?
    ensures var s' := Apply(s, CleanupStarts).value; FieldsSound(s') && Accounts(s, s')
  {
    var s0 := DropReaper(s);
    DropReaperKeeps(s);
    var (s1, wait) := BeginRelease(s0);
    if wait.Some? {
      if !s.quarantined {
        BeginReleaseKeeps(s0, CleanupWait(wait.value, 0));
      }
    } else {
      NothingToRelease(s0);
    }
  }

  lemma EndReleaseKeeps(s: State, k: nat, req: Request)
    requires FieldsSound(s) && k < |s.kills| && !s.kills[k].status.Killing?
    requires req.Tail? && WaitedKill(s.req) == Some(k)
    ensures var s1 := EndRelease(s, k).(req := req); FieldsSound(s1) && Accounts(s, s1)
  {
  }

  lemma ResumeKeeps(s: State)
    requires FieldsSound(s) && Apply(s, RequestResumes).Some?
    ensures var s' := Apply(s, RequestResumes).value; FieldsSound(s') && Accounts(s, s')
  {
    var k := WaitedKill(s.req).value;
    if s.req.AwaitRelease? && s.req.cancels == 0 && s.kills[k].status.Reaped? {
      var s1 := EndRelease(s, k);
      assert MayProceed(s1, s.req.after);
      ProceedKeeps(s1, s.req.after);
    } else {
      EndReleaseKeeps(s, k, Tail);
    }
  }

  lemma AbortKeeps(s: State, k: nat)
    requires FieldsSound(s) && k < |s.kills| && WaitedKill(s.req) == Some(k)
    ensures FieldsSound(AbortKill(s, k)) && Accounts(s, AbortKill(s, k))
    ensures AbortKill(s, k).req == s.req
  {
  }

  lemma CountKeeps(s: State)
    requires FieldsSound(s)
    ensures FieldsSound(CountCancel(s)) && OwnGroup(CountCancel(s).req) == OwnGroup(s.req)
  {
  }

  /** Accounting looks at groups, kills, the worker and the request's own group only. */
  lemma AccountsSame(a: State, b: State, a': State, b': State)
    requires Accounts(a, b)
    requires a'.groups == a.groups && a'.kills == a.kills && a'.proc == a.proc && OwnGroup(a'.req) == OwnGroup(a.req)
    requires b'.groups == b.groups && b'.kills == b.kills && b'.proc == b.proc && OwnGroup(b'.req) == OwnGroup(b.req)
    ensures Accounts(a', b')
  {
  }

  lemma AccountsSelf(s: State)
    ensures Accounts(s, s)
  {
  }

  lemma CancelWaitKeeps(s: State)
    requires FieldsSound(s) && Apply(s, RequestCancelled).Some? && WaitedKill(s.req).Some?
    ensures var s' := Apply(s, RequestCancelled).value; FieldsSound(s') && Accounts(s, s')
  {
    var k := WaitedKill(s.req).value;
    AbortKeeps(s, k);
    AccountsSelf(s);
    var s' := Apply(s, RequestCancelled).value;
    var s1 := if s.req.cancels >= (if s.req.CleanupWait? then 2 else 1) then AbortKill(s, k) else s;
    assert s' == CountCancel(s1);
    CountKeeps(s1);
    AccountsSame(s, s1, s, s');
  }

  lemma CancelWorkKeeps(s: State)
    requires FieldsSound(s) && Apply(s, RequestCancelled).Some? && WaitedKill(s.req).None?
    ensures var s' := Apply(s, RequestCancelled).value; FieldsSound(s') && Accounts(s, s')
  {
    match s.req {
      case Running(_) => RunEndsKeeps(s);
      case Spawning(_, _) => SpawnEndsKeeps(s, false);
      case _ =>
    }
  }

  lemma SetReaperKeeps(s: State, t: nat, r: Reaper)
    requires FieldsSound(s) && t < |s.reapers| && !r.Sleeping?
    ensures var s1 := s.(reapers := s.reapers[t := r]); FieldsSound(s1) && Accounts(s, s1)
  {
  }

  lemma IdleReleaseKeeps(s: State)
    requires FieldsSound(s) && s.req.NoRequest? && s.reaper.None?
    ensures FieldsSound(BeginRelease(s).0) && Accounts(s, BeginRelease(s).0)
  {
  }

  lemma WakeKeeps(s: State, t: nat)
    requires FieldsSound(s) && Apply(s, ReaperWakes(t)).Some?
    ensures var s' := Apply(s, ReaperWakes(t)).value; FieldsSound(s') && Accounts(s, s')
  {
    SetReaperKeeps(s, t, Gone);
    var awake := s.(reapers := s.reapers[t := Gone]);
    if s.req.NoRequest? {
      DropReaperKeeps(awake);
      var s0 := DropReaper(awake);
      IdleReleaseKeeps(s0);
      var (s1, wait) := BeginRelease(s0);
      if wait.Some? {
        SetReaperKeeps(s1, t, Waiting(wait.value));
      } else {
        NothingToRelease(s0);
      }
      AccountsSame(s0, s1, s, Woken(s, t));
    }
  }

  lemma IdleEndReleaseKeeps(s: State, k: nat)
    requires FieldsSound(s) && k < |s.kills| && !s.kills[k].status.Killing?
    ensures FieldsSound(EndRelease(s, k)) && Accounts(s, EndRelease(s, k))
  {
  }

  lemma ReaperResumeKeeps(s: State, t: nat)
    requires FieldsSound(s) && Apply(s, ReaperResumes(t)).Some?
    ensures var s' := Apply(s, ReaperResumes(t)).value; FieldsSound(s') && Accounts(s, s')
  {
    var k := s.reapers[t].kill;
    IdleEndReleaseKeeps(s, k);
    SetReaperKeeps(EndRelease(s, k), t, Gone);
  }

  lemma KillEndsKeeps(s: State, k: nat, reaped: bool)
    requires FieldsSound(s) && Apply(s, KillEnds(k, reaped)).Some?
    ensures var s' := Apply(s, KillEnds(k, reaped)).value; FieldsSound(s') && Accounts(s, s')
  {
  }

  lemma GroupDiesKeeps(s: State, g: nat)
    requires FieldsSound(s) && Apply(s, GroupDies(g)).Some?
    ensures var s' := Apply(s, GroupDies(g)).value; FieldsSound(s') && Accounts(s, s')
  {
  }

  /** How one step may move a group: from the request to the worker, from either to a new
      kill. */
  predicate Moves(s: State, s': State) {
    && |s.kills| <= |s'.kills| <= |s.kills| + 1
    && (forall k :: 0 <= k < |s.kills| ==> s'.kills[k].group == s.kills[k].group)
    && (|s'.kills| > |s.kills| ==>
          var kill := s'.kills[|s.kills|];
          && kill.status.Killing? && (s.proc == Some(kill.group) || OwnGroup(s.req) == Some(kill.group))
          && s'.proc != Some(kill.group) && OwnGroup(s'.req) != Some(kill.group))
    && (s'.proc.Some? ==> s'.proc == s.proc || s'.proc == OwnGroup(s.req))
    && (OwnGroup(s'.req).Some? ==> OwnGroup(s'.req) == OwnGroup(s.req) || OwnGroup(s'.req).value >= |s.groups|)
    && (s'.quarantined == s.quarantined ==>
          forall k :: 0 <= k < |s.kills| && s'.kills[k].status.Quarantine? ==> s.kills[k].status.Quarantine?)
  }

  lemma ProceedMoves(s: State, after: After)
    ensures Moves(s, Proceed(s, after))
  {
  }

  lemma ReleaseThenMoves(s: State, after: After)
    requires s.proc.Some? ==> s.proc.value < |s.groups|
    ensures Moves(s, ReleaseThen(s, after))
  {
  }

  lemma CancelMoves(s: State)
    requires FieldsSound(s) && Cancelled(s).Some?
    ensures Moves(s, Cancelled(s).value)
  {
  }

  lemma ResumeMoves(s: State)
    requires FieldsSound(s) && Resumed(s).Some?
    ensures Moves(s, Resumed(s).value)
  {
    if s.req.AwaitRelease? {
      ProceedMoves(EndRelease(s, s.req.kill), s.req.after);
    }
  }

  lemma WakeMoves(s: State, t: nat)
    requires FieldsSound(s) && t < |s.reapers|
    ensures Moves(s, Woken(s, t))
  {
  }

  lemma CleanupMoves(s: State)
    requires FieldsSound(s) && Apply(s, CleanupStarts).Some?
    ensures Moves(s, Apply(s, CleanupStarts).value)
  {
  }

  lemma AdmitMoves(s: State, plan: Plan, exited: bool)
    requires FieldsSound(s)
    ensures Moves(s, Admitted(s, plan, exited))
  {
    ReleaseThenMoves(s, Serve(plan));
    ProceedMoves(s, Serve(plan));
  }

  /** The steps that end one wait or one group. */
  predicate EndStep(l: Label) {
    l.SpawnEnds? || l.RunEnds? || l.RequestEnds? || l.ReaperResumes? || l.KillEnds? || l.GroupDies?
  }

  lemma EndMoves(s: State, l: Label)
    requires FieldsSound(s) && Apply(s, l).Some? && EndStep(l)
    ensures Moves(s, Apply(s, l).value)
  {
  }

  lemma StepMoves(s: State, l: Label)
    requires FieldsSound(s) && Apply(s, l).Some?
    ensures Moves(s, Apply(s, l).value)
  {
    match l {
      case Admit(plan, exited) => AdmitMoves(s, plan, exited);
      case RenderEnds(_, _) => ReleaseThenMoves(s, Finish);
      case RequestResumes => ResumeMoves(s);
      case RequestCancelled => CancelMoves(s);
      case CleanupStarts => CleanupMoves(s);
      case ReaperWakes(t) => WakeMoves(s, t);
      case _ => EndMoves(s, l);
    }
  }

  /** Only the end of a kill quarantines. */
  lemma OnlyKillsQuarantine(s: State, l: Label)
    requires Apply(s, l).Some? && !l.KillEnds?
    ensures Apply(s, l).value.quarantined == s.quarantined
  {
  }

  lemma DistinctExtends(kills: seq<Kill>, more: seq<Kill>)
    requires DistinctGroups(kills) && |kills| <= |more| <= |kills| + 1
    requires forall k :: 0 <= k < |kills| ==> more[k].group == kills[k].group
    requires |more| > |kills| ==> Unclaimed(kills, Some(more[|kills|].group))
    ensures DistinctGroups(more)
  {
    forall i, j | 0 <= i < j < |more|
      ensures more[i].group != more[j].group
    {
      assert more[i].group == kills[i].group;
    }
  }

  lemma GroupsStayUnclaimed(s: State, s': State)
    requires FieldsSound(s) && KillsDistinct(s) && Moves(s, s')
    ensures Unclaimed(s'.kills, s'.proc) && Unclaimed(s'.kills, OwnGroup(s'.req))
  {
  }

  lemma StepKeepsDistinct(s: State, l: Label)
    requires FieldsSound(s) && KillsDistinct(s) && Apply(s, l).Some?
    ensures KillsDistinct(Apply(s, l).value)
  {
    var s' := Apply(s, l).value;
    StepMoves(s, l);
    DistinctExtends(s.kills, s'.kills);
    GroupsStayUnclaimed(s, s');
    assert OneQuarantine(s'.kills) by {
      if !l.KillEnds? {
        OnlyKillsQuarantine(s, l);
      }
    }
  }

  lemma StepAccounts(s: State, l: Label)
    requires FieldsSound(s) && Apply(s, l).Some?
    ensures FieldsSound(Apply(s, l).value) && Accounts(s, Apply(s, l).value)
  {
    match l {
      case Admit(plan, exited) => AdmitKeeps(s, plan, exited);
      case SpawnEnds(started) => SpawnEndsKeeps(s, started);
      case RenderEnds(good, logBig) => RenderEndsKeeps(s, good, logBig);
      case RunEnds => RunEndsKeeps(s);
      case CleanupStarts => CleanupStartsKeeps(s);
      case RequestResumes => ResumeKeeps(s);
      case RequestCancelled => if WaitedKill(s.req).Some? { CancelWaitKeeps(s); } else { CancelWorkKeeps(s); }
      case RequestEnds =>
      case ReaperWakes(t) => WakeKeeps(s, t);
      case ReaperResumes(t) => ReaperResumeKeeps(s, t);
      case KillEnds(k, reaped) => KillEndsKeeps(s, k, reaped);
      case GroupDies(g) => GroupDiesKeeps(s, g);
    }
  }

  /** Every step keeps the invariant. */
  lemma ApplyKeepsInv(s: State, l: Label)
    requires Inv(s) && Apply(s, l).Some?
    ensures Inv(Apply(s, l).value)
  {
    StepAccounts(s, l);
    GroupsStaySound(s, Apply(s, l).value);
    StepKeepsDistinct(s, l);
  }

  // ------------------------------------------------------------------------- runs

  function RunFrom(s: State, labels: seq<Label>): Option<State>
    decreases |labels|
  {
    if labels == [] then Some(s)
    else
      match Apply(s, labels[0])
      case None => None
      case Some(next) => RunFrom(next, labels[1..])
  }

  lemma {:induction false} RunKeepsInv(s: State, labels: seq<Label>)
    requires Inv(s) && RunFrom(s, labels).Some?
    ensures Inv(RunFrom(s, labels).value)
    decreases |labels|
  {
    if labels != [] {
      ApplyKeepsInv(s, labels[0]);
      RunKeepsInv(Apply(s, labels[0]).value, labels[1..]);
    }
  }

  ghost predicate Reachable(s: State) {
    exists labels :: RunFrom(INIT, labels) == Some(s)
  }

  lemma ReachableInv(s: State)
    requires Reachable(s)
    ensures Inv(s)
  {
    var labels :| RunFrom(INIT, labels) == Some(s);
    RunKeepsInv(INIT, labels);
  }

  // ---------------------------------------------------------------------- results

  /** The task killing this group was itself cancelled. */
  ghost predicate Abandoned(s: State, g: nat) {
    exists k :: 0 <= k < |s.kills| && s.kills[k].group == g && s.kills[k].status.Aborted?
  }

  /** Why a live group counts. */
  predicate AnsweredNow(s: State, g: nat) {
    || s.proc == Some(g) || OwnGroup(s.req) == Some(g)
    || (s.releasing.Some? && s.releasing.value < |s.kills| && s.kills[s.releasing.value] == Kill(g, Killing))
    || (s.req.KillWait? && s.req.kill < |s.kills| && s.kills[s.req.kill] == Kill(g, Killing))
  }

  lemma LiveGroupIsAnsweredNow(s: State, g: nat)
    requires Inv(s) && !s.quarantined && g < |s.groups| && s.groups[g].alive && !Abandoned(s, g)
    ensures AnsweredNow(s, g)
  {
    assert GroupAnswered(s, g);
    if s.proc != Some(g) && OwnGroup(s.req) != Some(g) {
      var k :| KillOf(s.kills, k, g);
      assert s.kills[k] == Kill(g, Killing);
    }
  }

  lemma QuarantinedGroup(s: State, g: nat) returns (k: nat)
    requires Inv(s) && s.quarantined && g < |s.groups| && s.groups[g].alive && !Abandoned(s, g)
    ensures k < |s.kills| && s.kills[k] == Kill(g, Quarantine)
  {
    assert GroupAnswered(s, g);
    k :| KillOf(s.kills, k, g);
  }

  lemma LiveIsUnique(s: State, g: nat, h: nat)
    requires Inv(s)
    requires g < |s.groups| && s.groups[g].alive && !Abandoned(s, g)
    requires h < |s.groups| && s.groups[h].alive && !Abandoned(s, h)
    ensures g == h
  {
    if s.quarantined {
      var i := QuarantinedGroup(s, g);
      var j := QuarantinedGroup(s, h);
      assert i == j;
    } else {
      LiveGroupIsAnsweredNow(s, g);
      LiveGroupIsAnsweredNow(s, h);
    }
  }

  /** One live process: in every reachable state, a live group whose killing task was not
      itself cancelled is the only such group; a releasing or quarantined one counts. */
  lemma AtMostOneLive(s: State, g: nat, h: nat)
    requires Reachable(s)
    requires g < |s.groups| && s.groups[g].alive && !Abandoned(s, g)
    requires h < |s.groups| && s.groups[h].alive && !Abandoned(s, h)
    ensures g == h
  {
    ReachableInv(s);
    LiveIsUnique(s, g, h);
  }

  /** The next cancellation of this request would reach the killing task of a group. */
  predicate Exposed(r: Request) {
    match r
    case AwaitRelease(_, _, n) => n >= 1
    case KillWait(_, n) => n >= 1
    case CleanupWait(_, n) => n >= 2
    case _ => false
  }

  /** No request is cancelled again once its shields are used up. */
  predicate Gentle(s: State, labels: seq<Label>)
    decreases |labels|
  {
    labels == [] ||
    (!(labels[0].RequestCancelled? && Exposed(s.req)) &&
     match Apply(s, labels[0])
     case None => true
     case Some(next) => Gentle(next, labels[1..]))
  }

  /** Kill `k` is aborted by this step. */
  predicate AbortedBy(s: State, s': State, k: nat) {
    k < |s'.kills| && s'.kills[k].status.Aborted? && !(k < |s.kills| && s.kills[k].status.Aborted?)
  }

  lemma ReleaseAborts(s: State, after: After, k: nat)
    ensures !AbortedBy(s, ReleaseThen(s, after), k) && !AbortedBy(s, Proceed(s, after), k)
  {
  }

  lemma ResumeAborts(s: State, k: nat)
    requires Resumed(s).Some?
    ensures !AbortedBy(s, Resumed(s).value, k)
  {
    if s.req.AwaitRelease? {
      ReleaseAborts(EndRelease(s, s.req.kill), s.req.after, k);
    }
  }

  lemma CancelAborts(s: State, k: nat)
    requires Cancelled(s).Some?
    ensures AbortedBy(s, Cancelled(s).value, k) <==>
            Exposed(s.req) && WaitedKill(s.req) == Some(k) && k < |s.kills| && s.kills[k].status.Killing?
  {
  }

  lemma OthersDoNotAbort(s: State, l: Label, k: nat)
    requires Apply(s, l).Some? && (EndStep(l) || l.CleanupStarts? || l.ReaperWakes?)
    ensures !AbortedBy(s, Apply(s, l).value, k)
  {
  }

  /** A step aborts a kill exactly when it cancels a request whose shields are used up and
      that waits for this kill, still under way. */
  lemma AbortsIff(s: State, l: Label, k: nat)
    requires Apply(s, l).Some?
    ensures AbortedBy(s, Apply(s, l).value, k) <==>
            && l.RequestCancelled? && Exposed(s.req) && WaitedKill(s.req) == Some(k)
            && k < |s.kills| && s.kills[k].status.Killing?
  {
    match l {
      case Admit(plan, exited) => ReleaseAborts(s, Serve(plan), k);
      case RenderEnds(_, _) => ReleaseAborts(s, Finish, k);
      case RequestResumes => ResumeAborts(s, k);
      case RequestCancelled => CancelAborts(s, k);
      case _ => OthersDoNotAbort(s, l, k);
    }
  }

  /** A live group that nobody kills any more. */
  ghost predicate AbandonedLive(s: State) {
    exists g :: 0 <= g < |s.groups| && s.groups[g].alive && Abandoned(s, g)
  }

  ghost predicate TwoLive(s: State) {
    exists g, h :: 0 <= g < h < |s.groups| && s.groups[g].alive && s.groups[h].alive
  }

  lemma TwoLiveNeedsAbandoned(s: State)
    requires Inv(s) && !AbandonedLive(s)
    ensures !TwoLive(s)
  {
    if TwoLive(s) {
      var g, h :| 0 <= g < h < |s.groups| && s.groups[g].alive && s.groups[h].alive;
      LiveIsUnique(s, g, h);
    }
  }

  /** A live group that is abandoned after a gentle step was so before. */
  lemma AbandonedBefore(s: State, l: Label, g: nat)
    requires Inv(s) && Apply(s, l).Some? && !(l.RequestCancelled? && Exposed(s.req))
    requires var s' := Apply(s, l).value; g < |s'.groups| && s'.groups[g].alive && Abandoned(s', g)
    ensures g < |s.groups| && s.groups[g].alive && Abandoned(s, g)
  {
    var s' := Apply(s, l).value;
    StepAccounts(s, l);
    var k: nat :| k < |s'.kills| && s'.kills[k].group == g && s'.kills[k].status.Aborted?;
    AbortsIff(s, l, k);
    assert s.kills[k].group == g;
  }

  /** A gentle step abandons no live group. */
  lemma GentleStep(s: State, l: Label)
    requires Inv(s) && Apply(s, l).Some? && !(l.RequestCancelled? && Exposed(s.req)) && !AbandonedLive(s)
    ensures !AbandonedLive(Apply(s, l).value)
  {
    var s' := Apply(s, l).value;
    forall g | 0 <= g < |s'.groups| && s'.groups[g].alive && Abandoned(s', g)
      ensures AbandonedLive(s)
    {
      AbandonedBefore(s, l, g);
    }
  }

  lemma {:induction false} GentleRun(s: State, labels: seq<Label>)
    requires Inv(s) && RunFrom(s, labels).Some? && Gentle(s, labels) && !AbandonedLive(s)
    ensures var end := RunFrom(s, labels).value; Inv(end) && !AbandonedLive(end)
    decreases |labels|
  {
    if labels != [] {
      GentleStep(s, labels[0]);
      ApplyKeepsInv(s, labels[0]);
      GentleRun(Apply(s, labels[0]).value, labels[1..]);
    }
  }

  /** Over every interleaving of requests, idle reapers, failures and cancellations in
      which no request is cancelled past its shields, at most one process group is alive. */
  lemma OneLiveProcess(labels: seq<Label>)
    requires RunFrom(INIT, labels).Some? && Gentle(INIT, labels)
    ensures !TwoLive(RunFrom(INIT, labels).value)
  {
    GentleRun(INIT, labels);
    TwoLiveNeedsAbandoned(RunFrom(INIT, labels).value);
  }

  /** Once quarantined, no process group is ever started. */
  lemma NothingSpawnedAfterQuarantine(s: State, l: Label)
    requires Reachable(s) && s.quarantined && Apply(s, l).Some?
    ensures Apply(s, l).value.quarantined && |Apply(s, l).value.groups| == |s.groups|
  {
    ReachableInv(s);
  }

  /** A step of the request that holds the lock. */
  predicate OwnStep(l: Label) {
    !(l.ReaperWakes? || l.ReaperResumes? || l.KillEnds? || l.GroupDies?)
  }

  /** Nobody but its own request ends a render: no reaper releases the worker, no kill
      under way hits it, and no late waiter on an old release clears its key. */
  lemma RenderIsUndisturbed(s: State, l: Label)
    requires Reachable(s) && s.req.Rendering? && !OwnStep(l) && Apply(s, l).Some?
    ensures var s' := Apply(s, l).value;
            && s'.proc == s.proc == Some(s.req.group) && s'.key == s.key && s'.releasing.None?
            && |s'.kills| == |s.kills| && s.req.group < |s.groups| == |s'.groups|
            && (l != GroupDies(s.req.group) ==> s'.groups[s.req.group] == s.groups[s.req.group])
  {
    ReachableInv(s);
  }

  /** A late waiter never clears the key of a worker that has replaced the released one. */
  lemma LateWaiterKeepsNewKey(s: State, t: nat)
    requires Reachable(s) && s.proc.Some? && Apply(s, ReaperResumes(t)).Some?
    ensures var s' := Apply(s, ReaperResumes(t)).value; s'.proc == s.proc && s'.key == s.key
  {
    ReachableInv(s);
  }

  /** Every render is served by a group started for the module and weights it asked for. */
  lemma RenderedByRightWeights(s: State)
    requires Reachable(s) && s.req.Rendering?
    ensures s.req.group < |s.groups| && s.groups[s.req.group].key == Some(s.req.key)
  {
    ReachableInv(s);
  }

  /** A group whose killing task was cancelled can be met by a second one: the next
      admitted request starts it beside the first. */
  lemma AbandonedGroupMeetsAnother(s: State, g: nat)
    requires Reachable(s) && !s.quarantined && s.req.NoRequest? && s.proc.None? && s.releasing.None?
    requires g < |s.groups| && s.groups[g].alive
    ensures Abandoned(s, g)
    ensures var s' := Apply(s, Admit(PerRequest, false));
            s'.Some? && |s'.value.groups| == |s.groups| + 1 &&
            s'.value.groups[g].alive && s'.value.groups[|s.groups|].alive
  {
    ReachableInv(s);
    assert GroupAnswered(s, g);
    var k :| KillOf(s.kills, k, g);
    assert s.kills[k].status.Aborted?;
    DropReaperKeeps(s);
  }

  /** Kill `j` left group `g` alive. */
  predicate LeftAlive(s: State, j: nat, g: nat) {
    j < |s.kills| && s.kills[j] == Kill(g, Aborted) && g < |s.groups| && s.groups[g].alive
  }

  /** A step towards the next process group: the request ends as soon as it can, every kill
      under way succeeds, then a request is admitted. */
  function Onward(s: State): Label {
    match s.req
    case NoRequest => Admit(PerRequest, false)
    case Spawning(_, _) => SpawnEnds(false)
    case Rendering(_, _) => RenderEnds(true, false)
    case CleanupPending => CleanupStarts
    case Running(_) => RunEnds
    case Tail => RequestEnds
    case _ =>
      var k := WaitedKill(s.req).value;
      if k < |s.kills| && s.kills[k].status.Killing? then KillEnds(k, true) else RequestResumes
  }

  /** Steps `Onward` still needs, at most. */
  function Remaining(s: State): nat {
    match s.req
    case NoRequest => if s.proc.None? && s.releasing.None? then 1 else 5
    case Tail => if s.proc.None? && s.releasing.None? then 2 else 6
    case Spawning(_, _) => 7
    case Rendering(_, _) => 7
    case CleanupPending => 7
    case Running(_) => 7
    case _ =>
      var k := WaitedKill(s.req).value;
      if k < |s.kills| && s.kills[k].status.Killing? then 4 else 3
  }

  /** The request is starting a live group that is not `g`. */
  predicate Beside(s: State, g: nat) {
    s.req.Spawning? && s.req.group < |s.groups| && s.req.group != g && s.groups[s.req.group].alive
  }

  /** The step happens, cancels nothing, and brings a second live group closer. */
  ghost predicate Approaches(s: State, j: nat, g: nat) {
    match Apply(s, Onward(s))
    case None => false
    case Some(s') =>
      && !Onward(s).RequestCancelled? && !s'.quarantined && LeftAlive(s', j, g)
      && (Beside(s', g) || Remaining(s') < Remaining(s))
  }

  lemma IdleApproaches(s: State, j: nat, g: nat)
    requires FieldsSound(s) && !s.quarantined && LeftAlive(s, j, g) && s.req.NoRequest?
    ensures Approaches(s, j, g)
  {
  }

  lemma KillApproaches(s: State, j: nat, g: nat, k: nat)
    requires FieldsSound(s) && DistinctGroups(s.kills) && !s.quarantined && LeftAlive(s, j, g)
    requires WaitedKill(s.req) == Some(k) && k < |s.kills| && s.kills[k].status.Killing?
    ensures Approaches(s, j, g)
  {
    assert s.kills[k].group != s.kills[j].group;
  }

  lemma ResumeApproaches(s: State, j: nat, g: nat, k: nat)
    requires FieldsSound(s) && !s.quarantined && LeftAlive(s, j, g)
    requires WaitedKill(s.req) == Some(k) && k < |s.kills| && !s.kills[k].status.Killing?
    ensures Approaches(s, j, g)
  {
  }

  lemma RenderApproaches(s: State, j: nat, g: nat)
    requires FieldsSound(s) && !s.quarantined && LeftAlive(s, j, g)
    requires s.req.Rendering? || s.req.CleanupPending?
    ensures Approaches(s, j, g)
  {
  }

  lemma SpawnApproaches(s: State, j: nat, g: nat)
    requires FieldsSound(s) && Unclaimed(s.kills, OwnGroup(s.req)) && !s.quarantined && LeftAlive(s, j, g)
    requires s.req.Spawning?
    ensures Approaches(s, j, g)
  {
    assert s.kills[j].group != s.req.group;
  }

  lemma WorkApproaches(s: State, j: nat, g: nat)
    requires FieldsSound(s) && !s.quarantined && LeftAlive(s, j, g)
    requires s.req.Running? || s.req.Tail?
    ensures Approaches(s, j, g)
  {
  }

  /** From a reachable state with an abandoned live group, a continuation in which nobody is
      cancelled starts a second live group. */
  lemma {:induction false} TwoLivePath(s: State, j: nat, g: nat) returns (labels: seq<Label>)
    requires Inv(s) && !s.quarantined && LeftAlive(s, j, g)
    ensures RunFrom(s, labels).Some? && Gentle(s, labels) && TwoLive(RunFrom(s, labels).value)
    decreases Remaining(s)
  {
    var l := Onward(s);
    if s.req.NoRequest? {
      IdleApproaches(s, j, g);
    } else if s.req.Spawning? {
      SpawnApproaches(s, j, g);
    } else if s.req.Rendering? || s.req.CleanupPending? {
      RenderApproaches(s, j, g);
    } else if WaitedKill(s.req).Some? {
      var k := WaitedKill(s.req).value;
      if s.kills[k].status.Killing? {
        KillApproaches(s, j, g, k);
      } else {
        ResumeApproaches(s, j, g, k);
      }
    } else {
      WorkApproaches(s, j, g);
    }
    var next := Apply(s, l).value;
    ApplyKeepsInv(s, l);
    if Beside(next, g) {
      labels := [l];
      assert labels[1..] == [] && RunFrom(next, []) == Some(next);
      assert next.groups[g].alive && next.groups[next.req.group].alive;
    } else {
      var rest := TwoLivePath(next, j, g);
      labels := [l] + rest;
      assert labels[1..] == rest;
    }
  }

  /** Some continuation without a cancellation past the shields has two live groups. */
  ghost predicate TwoLiveAhead(s: State) {
    exists labels ::
      RunFrom(s, labels).Some? && Gentle(s, labels) && TwoLive(RunFrom(s, labels).value)
  }

  /** In every reachable state that is not quarantined, two groups can come to be alive
      without a further cancellation past the shields exactly when some live group has
      already been abandoned by its killing task. */
  lemma TwoLiveAheadIff(s: State)
    requires Reachable(s) && !s.quarantined
    ensures TwoLiveAhead(s) <==> AbandonedLive(s)
  {
    ReachableInv(s);
    if AbandonedLive(s) {
      var g :| 0 <= g < |s.groups| && s.groups[g].alive && Abandoned(s, g);
      var j: nat :| j < |s.kills| && s.kills[j].group == g && s.kills[j].status.Aborted?;
      var labels := TwoLivePath(s, j, g);
    } else if TwoLiveAhead(s) {
      var labels :|
        RunFrom(s, labels).Some? && Gentle(s, labels) && TwoLive(RunFrom(s, labels).value);
      GentleRun(s, labels);
      TwoLiveNeedsAbandoned(RunFrom(s, labels).value);
    }
  }

  // ------------------------------------------------- is an idle worker released?

  /** A worker that no request uses. */
  predicate IdleWorker(s: State) {
    s.proc.Some? && (s.req.NoRequest? || s.req.Tail?)
  }

  /** Such a worker has a reaper, which sleeps or has given up. */
  predicate Watched(s: State) {
    && (IdleWorker(s) ==> s.reaper.Some?)
    && (s.reaper.Some? && s.reaper.value < |s.reapers| ==> !s.reapers[s.reaper.value].Waiting?)
  }

  lemma ProceedKeepsWatched(s: State, after: After)
    requires ReapersSound(s) && Watched(s) && (after.Finish? ==> s.proc.None?)
    ensures Watched(Proceed(s, after))
  {
  }

  lemma ReleaseKeepsWatched(s: State, after: After)
    requires FieldsSound(s) && Watched(s)
    ensures Watched(ReleaseThen(s, after))
  {
  }

  lemma ResumeKeepsWatched(s: State)
    requires FieldsSound(s) && Watched(s) && Resumed(s).Some?
    ensures Watched(Resumed(s).value)
  {
    if s.req.AwaitRelease? {
      ProceedKeepsWatched(EndRelease(s, s.req.kill), s.req.after);
    }
  }

  lemma WakeKeepsWatched(s: State, t: nat)
    requires FieldsSound(s) && Watched(s) && t < |s.reapers| && s.reapers[t].Sleeping?
    ensures Watched(Woken(s, t))
  {
  }

  lemma CleanupKeepsWatched(s: State)
    requires FieldsSound(s) && Watched(s) && Apply(s, CleanupStarts).Some?
    ensures Watched(Apply(s, CleanupStarts).value)
  {
  }

  lemma CancelKeepsWatched(s: State)
    requires FieldsSound(s) && Watched(s) && Cancelled(s).Some?
    ensures Watched(Cancelled(s).value)
  {
  }

  lemma EndKeepsWatched(s: State, l: Label)
    requires FieldsSound(s) && Watched(s) && Apply(s, l).Some? && EndStep(l)
    ensures Watched(Apply(s, l).value)
  {
  }

  lemma StepKeepsWatched(s: State, l: Label)
    requires FieldsSound(s) && Watched(s) && Apply(s, l).Some?
    ensures Watched(Apply(s, l).value)
  {
    match l {
      case Admit(plan, exited) =>
        ReleaseKeepsWatched(s, Serve(plan));
        ProceedKeepsWatched(s, Serve(plan));
      case RenderEnds(_, _) => ReleaseKeepsWatched(s, Finish);
      case RequestResumes => ResumeKeepsWatched(s);
      case ReaperWakes(t) => WakeKeepsWatched(s, t);
      case CleanupStarts => CleanupKeepsWatched(s);
      case RequestCancelled => CancelKeepsWatched(s);
      case _ => EndKeepsWatched(s, l);
    }
  }

  lemma {:induction false} RunKeepsWatched(s: State, labels: seq<Label>)
    requires Inv(s) && Watched(s) && RunFrom(s, labels).Some?
    ensures Watched(RunFrom(s, labels).value)
    decreases |labels|
  {
    if labels != [] {
      StepKeepsWatched(s, labels[0]);
      ApplyKeepsInv(s, labels[0]);
      RunKeepsWatched(Apply(s, labels[0]).value, labels[1..]);
    }
  }

  lemma ReachableWatched(s: State)
    requires Reachable(s)
    ensures Inv(s) && Watched(s)
  {
    ReachableInv(s);
    var labels :| RunFrom(INIT, labels) == Some(s);
    RunKeepsWatched(INIT, labels);
  }

  /** No request uses the worker, and no reaper sleeps that would release it. */
  predicate Neglected(s: State) {
    IdleWorker(s) && forall t :: 0 <= t < |s.reapers| ==> !s.reapers[t].Sleeping?
  }

  /** An idle worker that is not neglected has exactly one sleeping reaper, whose waking
      takes the worker and starts to kill its group. */
  lemma IdleWorkerIsReleased(s: State) returns (t: nat)
    requires Reachable(s) && s.req.NoRequest? && s.proc.Some? && !Neglected(s)
    ensures t < |s.reapers| && forall u :: 0 <= u < |s.reapers| ==> (s.reapers[u].Sleeping? <==> u == t)
    ensures var s' := Apply(s, ReaperWakes(t));
            && s'.Some? && s'.value.proc.None? && s'.value.releasing == Some(|s.kills|)
            && s'.value.kills == s.kills + [Kill(s.proc.value, Killing)]
            && s'.value.reapers[t] == Waiting(|s.kills|)
  {
    ReachableWatched(s);
    t := s.reaper.value;
    assert forall u :: 0 <= u < |s.reapers| && s.reapers[u].Sleeping? ==> u == t;
    assert Woken(s, t).reapers[t] == Waiting(|s.kills|);
  }

  lemma WakeNeglectsIff(s: State, t: nat)
    requires FieldsSound(s) && Watched(s) && t < |s.reapers| && s.reapers[t].Sleeping?
    ensures Neglected(Woken(s, t)) <==> s.req.Tail? && s.proc.Some?
  {
    assert s.reaper == Some(t);
  }

  /** These steps either use the worker or leave none. */
  lemma StartsLeaveNoIdleWorker(s: State, l: Label)
    requires FieldsSound(s) && Apply(s, l).Some?
    requires l.Admit? || l.SpawnEnds? || l.RunEnds? || l.CleanupStarts?
    ensures !IdleWorker(Apply(s, l).value)
  {
  }

  lemma ResumeLeavesNoIdleWorker(s: State)
    requires FieldsSound(s) && Resumed(s).Some?
    ensures !IdleWorker(Resumed(s).value)
  {
  }

  lemma RenderLeavesReaper(s: State, good: bool, logBig: bool)
    requires FieldsSound(s) && Apply(s, RenderEnds(good, logBig)).Some?
    ensures !Neglected(Apply(s, RenderEnds(good, logBig)).value)
  {
    if good && !logBig {
      var s' := Apply(s, RenderEnds(good, logBig)).value;
      assert s'.reapers[|s.reapers|].Sleeping?;
    }
  }

  /** These steps put no reaper to sleep and wake none. */
  lemma EndsLeaveSleepers(s: State, l: Label)
    requires FieldsSound(s) && Apply(s, l).Some?
    requires l.RequestCancelled? || l.RequestEnds? || l.ReaperResumes? || l.KillEnds? || l.GroupDies?
    ensures var s' := Apply(s, l).value;
            && (IdleWorker(s') ==> IdleWorker(s)) && |s'.reapers| == |s.reapers|
            && forall t :: 0 <= t < |s.reapers| ==> (s'.reapers[t].Sleeping? <==> s.reapers[t].Sleeping?)
  {
  }

  lemma OthersDoNotNeglect(s: State, l: Label)
    requires FieldsSound(s) && !Neglected(s) && Apply(s, l).Some? && !l.ReaperWakes?
    ensures !Neglected(Apply(s, l).value)
  {
    match l {
      case RenderEnds(good, logBig) => RenderLeavesReaper(s, good, logBig);
      case RequestResumes => ResumeLeavesNoIdleWorker(s);
      case Admit(_, _) => StartsLeaveNoIdleWorker(s, l);
      case SpawnEnds(_) => StartsLeaveNoIdleWorker(s, l);
      case RunEnds => StartsLeaveNoIdleWorker(s, l);
      case CleanupStarts => StartsLeaveNoIdleWorker(s, l);
      case _ => EndsLeaveSleepers(s, l);
    }
  }

  /** A worker comes to be neglected exactly when its reaper wakes while the request that
      scheduled it still holds the lock: the reaper gives up, and nobody reschedules it. */
  lemma NeglectedIff(s: State, l: Label)
    requires Reachable(s) && !Neglected(s) && Apply(s, l).Some?
    ensures Neglected(Apply(s, l).value) <==> l.ReaperWakes? && s.req.Tail? && s.proc.Some?
  {
    ReachableWatched(s);
    if l.ReaperWakes? {
      WakeNeglectsIff(s, l.t);
    } else {
      OthersDoNotNeglect(s, l);
    }
  }

  lemma NeglectedStep(s: State, l: Label)
    requires Inv(s) && Neglected(s) && Apply(s, l).Some? && !l.Admit?
    ensures Neglected(Apply(s, l).value) && Apply(s, l).value.proc == s.proc
  {
  }

  /** Nothing releases a neglected worker until another request is admitted. */
  lemma {:induction false} NeglectLasts(s: State, labels: seq<Label>)
    requires Inv(s) && Neglected(s) && RunFrom(s, labels).Some?
    requires forall i :: 0 <= i < |labels| ==> !labels[i].Admit?
    ensures Neglected(RunFrom(s, labels).value) && RunFrom(s, labels).value.proc == s.proc
    decreases |labels|
  {
    if labels != [] {
      NeglectedStep(s, labels[0]);
      ApplyKeepsInv(s, labels[0]);
      NeglectLasts(Apply(s, labels[0]).value, labels[1..]);
    }
  }

  lemma ReachableStep(s: State, l: Label, s': State)
    requires Reachable(s) && Apply(s, l) == Some(s')
    ensures Reachable(s')
  {
    var labels :| RunFrom(INIT, labels) == Some(s);
    RunAppend(INIT, labels, l);
  }

  lemma {:induction false} RunAppend(s: State, labels: seq<Label>, l: Label)
    requires RunFrom(s, labels).Some?
    ensures RunFrom(s, labels + [l]) == Apply(RunFrom(s, labels).value, l)
    decreases |labels|
  {
    if labels == [] {
      assert labels + [l] == [l] && [l][1..] == [];
      match Apply(s, l)
      case None =>
      case Some(next) => assert RunFrom(next, []) == Some(next);
    } else {
      RunAppend(Apply(s, labels[0]).value, labels[1..], l);
      assert (labels + [l])[1..] == labels[1..] + [l];
    }
  }

  const OLD_GROUP := Group(Some(1), true)

  /** One idle worker, its reaper asleep. */
  const IDLE_WORKER := INIT.(groups := [OLD_GROUP], reapers := [Sleeping], proc := Some(0), key := Some(1),
                             reaper := Some(0))

  /** A request for other weights waits for that worker to die. */
  const REPLACING := INIT.(groups := [OLD_GROUP], reapers := [Gone], key := Some(1), kills := [Kill(0, Killing)],
                           releasing := Some(0), req := AwaitRelease(0, Serve(Warm(2)), 0))

  /** The request is gone, the worker alive, and nobody kills it. */
  const LEFT_ALIVE := INIT.(groups := [OLD_GROUP], reapers := [Gone], kills := [Kill(0, Aborted)])

  lemma InTailIsReachable()
    ensures Reachable(IDLE_WORKER.(req := Tail))
  {
    var s1 := INIT.(groups := [OLD_GROUP], req := Spawning(Warm(1), 0));
    var s2 := s1.(proc := Some(0), key := Some(1), req := Rendering(0, 1));
    var s3 := IDLE_WORKER.(req := Tail);
    assert RunFrom(INIT, []) == Some(INIT);
    assert INIT.groups + [OLD_GROUP] == [OLD_GROUP];
    ReachableStep(INIT, Admit(Warm(1), false), s1);
    ReachableStep(s1, SpawnEnds(true), s2);
    assert s2.reapers + [Sleeping] == [Sleeping];
    ReachableStep(s2, RenderEnds(true, false), s3);
  }

  lemma IdleWorkerIsReachable()
    ensures Reachable(IDLE_WORKER)
  {
    InTailIsReachable();
    ReachableStep(IDLE_WORKER.(req := Tail), RequestEnds, IDLE_WORKER);
  }

  /** It happens: an idle worker with a live group, and no reaper left to release it. */
  lemma NeglectedIsReachable()
    ensures exists s :: Reachable(s) && Neglected(s) && s.req.NoRequest? && !s.quarantined && s.groups == [OLD_GROUP]
  {
    InTailIsReachable();
    var s1 := IDLE_WORKER.(req := Tail, reapers := [Gone]);
    assert IDLE_WORKER.reapers[0 := Gone] == [Gone];
    ReachableStep(IDLE_WORKER.(req := Tail), ReaperWakes(0), s1);
    ReachableStep(s1, RequestEnds, s1.(req := NoRequest));
  }

  lemma ReplacingIsReachable()
    ensures Reachable(REPLACING)
  {
    IdleWorkerIsReachable();
    assert IDLE_WORKER.kills + [Kill(0, Killing)] == [Kill(0, Killing)];
    assert IDLE_WORKER.reapers[0 := Gone] == [Gone];
    ReachableStep(IDLE_WORKER, Admit(Warm(2), false), REPLACING);
  }

  lemma LeftAliveIsReachable()
    ensures Reachable(LEFT_ALIVE)
  {
    ReplacingIsReachable();
    var s1 := REPLACING.(req := AwaitRelease(0, Serve(Warm(2)), 1));
    var s2 := REPLACING.(kills := [Kill(0, Aborted)], req := AwaitRelease(0, Serve(Warm(2)), 2));
    var s3 := LEFT_ALIVE.(req := Tail);
    ReachableStep(REPLACING, RequestCancelled, s1);
    assert s1.kills[0 := Kill(0, Aborted)] == [Kill(0, Aborted)];
    ReachableStep(s1, RequestCancelled, s2);
    ReachableStep(s2, RequestResumes, s3);
    ReachableStep(s3, RequestEnds, LEFT_ALIVE);
  }

  /** A request for other weights, cancelled twice while it waits for the old worker to
      die, leaves that worker's group alive with nobody killing it; the next request
      starts a second group although nothing was quarantined. */
  lemma DoubleCancelLeavesTwoLive()
    ensures exists s :: Reachable(s) && !s.quarantined && |s.groups| == 2 && s.groups[0].alive && s.groups[1].alive
  {
    LeftAliveIsReachable();
    var s := LEFT_ALIVE.(groups := [OLD_GROUP, Group(Some(2), true)], req := Spawning(Warm(2), 1));
    assert LEFT_ALIVE.groups + [Group(Some(2), true)] == s.groups;
    ReachableStep(LEFT_ALIVE, Admit(Warm(2), false), s);
    assert s.groups[0].alive && s.groups[1].alive;
  }
}
