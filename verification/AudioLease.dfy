/** The busy lease of the audio server: one generation number per admitted request, handed
    from the route to the worker-thread job that outlives it. */
module AudioLease {
  import opened Options

  datatype Gate = Gate(busy: bool, generation: nat)

  const IDLE := Gate(false, 0)

  function Cleared(g: Gate, lease: nat): Gate {
    if lease == g.generation then g.(busy := false) else g
  }

  /** The holder's fields. */
  class ModelHolder {
    var busy: bool
    var generation: nat

    ghost function View(): Gate
      reads this
    {
      Gate(busy, generation)
    }

    constructor ()
      ensures View() == IDLE
    {
      busy, generation := false, 0;
    }

    /** `None` is the busy error. */
    method EnsureIdle() returns (lease: Option<nat>)
      modifies this
      ensures old(busy) ==> lease.None? && View() == old(View())
      ensures !old(busy) ==> lease == Some(old(generation) + 1) && View() == Gate(true, old(generation) + 1)
    {
      if busy {
        return None;
      }
      busy := true;
      generation := generation + 1;
      return Some(generation);
    }

    method ClearBusy(lease: Option<nat>)
      modifies this
      ensures View() == if lease.Some? then Cleared(old(View()), lease.value) else old(View()).(busy := false)
    {
      if lease.None? || lease.value == generation {
        busy := false;
      }
    }
  }

  // --------------------------------------------------------- routes, jobs, callbacks

  /** Speech clears its lease on every error; transcription leaves that to the job. */
  datatype Kind = Speech | Stream | Transcription

  /** `Holding`: admitted, nothing submitted yet.  `Waiting`: shielded wait for its job. */
  datatype Phase = Holding | Waiting(job: nat) | Ended

  datatype Route = Route(kind: Kind, lease: nat, phase: Phase, submitted: bool)

  /** `ended`: the future is done; `called`: its done-callback has run. */
  datatype Job = Job(lease: nat, ended: bool, called: bool)

  datatype State = State(gate: Gate, routes: seq<Route>, jobs: seq<Job>)

  const INIT := State(IDLE, [], [])

  /** `FailEarly`: an error before anything was submitted.  For a transcription only a
      refused submission is left: its route has seen a loaded model and an accepted file
      name before it takes the lease.
      `Resume`: the wait is over; `failed` means the job raised. */
  datatype Label =
    | Enter(kind: Kind)
    | Submit(r: nat)
    | FailEarly(r: nat)
    | JobEnds(j: nat)
    | Callback(j: nat)
    | Resume(r: nat, failed: bool)

  function Apply(s: State, l: Label): Option<State> {
    match l
    case Enter(kind) =>
      if s.gate.busy then None
      else
        var g := s.gate.generation + 1;
        Some(State(Gate(true, g), s.routes + [Route(kind, g, Holding, false)], s.jobs))
    case Submit(r) =>
      if r >= |s.routes| || !s.routes[r].phase.Holding? then None
      else
        // the lease is read from the holder, not passed down
        var phase := if s.routes[r].kind.Stream? then Ended else Waiting(|s.jobs|);
        Some(s.(jobs := s.jobs + [Job(s.gate.generation, false, false)],
                routes := s.routes[r := s.routes[r].(phase := phase, submitted := true)]))
    case FailEarly(r) =>
      if r >= |s.routes| || !s.routes[r].phase.Holding? then None
      else
        var route := s.routes[r];
        Some(s.(routes := s.routes[r := route.(phase := Ended)],
                gate := if route.kind.Transcription? then s.gate else Cleared(s.gate, route.lease)))
    case JobEnds(j) =>
      if j < |s.jobs| && !s.jobs[j].ended then Some(s.(jobs := s.jobs[j := s.jobs[j].(ended := true)])) else None
    case Callback(j) =>
      if j < |s.jobs| && s.jobs[j].ended && !s.jobs[j].called then
        Some(s.(jobs := s.jobs[j := s.jobs[j].(called := true)], gate := Cleared(s.gate, s.jobs[j].lease)))
      else None
    case Resume(r, failed) =>
      if r < |s.routes| && s.routes[r].phase.Waiting? && s.routes[r].phase.job < |s.jobs|
         && s.jobs[s.routes[r].phase.job].ended then
        var route := s.routes[r];
        Some(s.(routes := s.routes[r := route.(phase := Ended)],
                gate := if failed && route.kind.Speech? then Cleared(s.gate, route.lease) else s.gate))
      else None
  }

  // ------------------------------------------------------------------- the invariant

  /** The lease is current and the holder busy. */
  predicate Held(s: State, lease: nat) {
    s.gate == Gate(true, lease)
  }

  predicate RoutesSound(s: State) {
    && (forall r :: 0 <= r < |s.routes| ==> s.routes[r].lease == r + 1)
    && s.gate.generation == |s.routes|
    && (forall r :: 0 <= r < |s.routes| && s.routes[r].phase.Holding? ==>
          Held(s, s.routes[r].lease) && !s.routes[r].submitted)
    && (forall r :: 0 <= r < |s.routes| && s.routes[r].phase.Waiting? ==>
          s.routes[r].phase.job < |s.jobs| && s.jobs[s.routes[r].phase.job].lease == s.routes[r].lease)
  }

  predicate JobsSubmitted(s: State) {
    forall j :: 0 <= j < |s.jobs| ==> 0 < s.jobs[j].lease <= |s.routes| && s.routes[s.jobs[j].lease - 1].submitted
  }

  predicate JobsSound(s: State) {
    && (forall i, j :: 0 <= i < j < |s.jobs| ==> s.jobs[i].lease != s.jobs[j].lease)
    && (forall j :: 0 <= j < |s.jobs| && !s.jobs[j].ended ==> Held(s, s.jobs[j].lease))
    && (forall j :: 0 <= j < |s.jobs| && s.jobs[j].called ==> s.jobs[j].ended)
  }

  /** Who will clear the current lease. */
  ghost predicate Accounted(s: State) {
    || (exists r :: HoldsCurrent(s, r))
    || (exists j :: OpenOnCurrent(s, j))
    || Stranded(s)
  }

  predicate HoldsCurrent(s: State, r: int) {
    0 <= r < |s.routes| && s.routes[r].lease == s.gate.generation && s.routes[r].phase.Holding?
  }

  predicate OpenOnCurrent(s: State, j: int) {
    0 <= j < |s.jobs| && s.jobs[j].lease == s.gate.generation && !s.jobs[j].called
  }

  /** The current lease belongs to a transcription that ended before it submitted. */
  predicate Stranded(s: State) {
    && s.gate.busy && 0 < s.gate.generation <= |s.routes|
    && var route := s.routes[s.gate.generation - 1];
       route.kind.Transcription? && route.phase.Ended? && !route.submitted
  }

  ghost predicate Inv(s: State) {
    RoutesSound(s) && JobsSubmitted(s) && JobsSound(s) && (s.gate.busy ==> Accounted(s))
  }

  lemma SubmitKeepsRoutes(s: State, r: nat)
    requires Inv(s) && Apply(s, Submit(r)).Some?
    ensures RoutesSound(Apply(s, Submit(r)).value) && JobsSubmitted(Apply(s, Submit(r)).value)
  {
  }

  /** No job was submitted under the lease of a route that holds it. */
  lemma HolderHasNoJob(s: State, r: nat)
    requires Inv(s) && r < |s.routes| && s.routes[r].phase.Holding?
    ensures forall j :: 0 <= j < |s.jobs| ==> s.jobs[j].lease != s.gate.generation && s.jobs[j].ended
  {
  }

  /** Once the job of the current lease has ended, none is unfinished. */
  lemma NoneUnfinished(s: State, j: nat)
    requires Inv(s) && j < |s.jobs| && s.jobs[j].ended && s.jobs[j].lease == s.gate.generation
    ensures forall i :: 0 <= i < |s.jobs| ==> s.jobs[i].ended
  {
  }

  lemma SubmitKeepsJobs(s: State, r: nat)
    requires Inv(s) && Apply(s, Submit(r)).Some?
    ensures JobsSound(Apply(s, Submit(r)).value)
  {
    HolderHasNoJob(s, r);
  }

  lemma SubmitKeeps(s: State, r: nat)
    requires Inv(s) && Apply(s, Submit(r)).Some?
    ensures Inv(Apply(s, Submit(r)).value)
  {
    SubmitKeepsRoutes(s, r);
    SubmitKeepsJobs(s, r);
    var s' := Apply(s, Submit(r)).value;
    assert OpenOnCurrent(s', |s.jobs|);
  }

  lemma FailEarlyKeepsRoutes(s: State, r: nat)
    requires Inv(s) && Apply(s, FailEarly(r)).Some?
    ensures RoutesSound(Apply(s, FailEarly(r)).value) && JobsSubmitted(Apply(s, FailEarly(r)).value)
  {
  }

  lemma FailEarlyKeepsJobs(s: State, r: nat)
    requires Inv(s) && Apply(s, FailEarly(r)).Some?
    ensures JobsSound(Apply(s, FailEarly(r)).value)
  {
  }

  lemma FailEarlyKeeps(s: State, r: nat)
    requires Inv(s) && Apply(s, FailEarly(r)).Some?
    ensures Inv(Apply(s, FailEarly(r)).value)
  {
    FailEarlyKeepsRoutes(s, r);
    FailEarlyKeepsJobs(s, r);
    var s' := Apply(s, FailEarly(r)).value;
  }

  lemma JobEndsKeepsRoutes(s: State, j: nat)
    requires Inv(s) && Apply(s, JobEnds(j)).Some?
    ensures RoutesSound(Apply(s, JobEnds(j)).value) && JobsSubmitted(Apply(s, JobEnds(j)).value)
  {
  }

  lemma JobEndsKeepsJobs(s: State, j: nat)
    requires Inv(s) && Apply(s, JobEnds(j)).Some?
    ensures JobsSound(Apply(s, JobEnds(j)).value)
  {
  }

  lemma JobEndsKeeps(s: State, j: nat)
    requires Inv(s) && Apply(s, JobEnds(j)).Some?
    ensures Inv(Apply(s, JobEnds(j)).value)
  {
    JobEndsKeepsRoutes(s, j);
    JobEndsKeepsJobs(s, j);
    var s' := Apply(s, JobEnds(j)).value;
    if i :| OpenOnCurrent(s, i) {
      assert s'.gate.busy ==> OpenOnCurrent(s', i);
    }
    if i :| HoldsCurrent(s, i) {
      assert s'.gate.busy ==> HoldsCurrent(s', i);
    }
  }

  lemma CallbackKeepsRoutes(s: State, j: nat)
    requires Inv(s) && Apply(s, Callback(j)).Some?
    ensures RoutesSound(Apply(s, Callback(j)).value) && JobsSubmitted(Apply(s, Callback(j)).value)
  {
  }

  lemma CallbackKeepsJobs(s: State, j: nat)
    requires Inv(s) && Apply(s, Callback(j)).Some?
    ensures JobsSound(Apply(s, Callback(j)).value)
  {
    if s.jobs[j].lease == s.gate.generation {
      NoneUnfinished(s, j);
    }
  }

  lemma CallbackKeeps(s: State, j: nat)
    requires Inv(s) && Apply(s, Callback(j)).Some?
    ensures Inv(Apply(s, Callback(j)).value)
  {
    CallbackKeepsRoutes(s, j);
    CallbackKeepsJobs(s, j);
    var s' := Apply(s, Callback(j)).value;
    if i :| OpenOnCurrent(s, i) {
      assert s'.gate.busy ==> OpenOnCurrent(s', i);
    }
    if i :| HoldsCurrent(s, i) {
      assert s'.gate.busy ==> HoldsCurrent(s', i);
    }
  }

  lemma ResumeKeepsRoutes(s: State, r: nat, failed: bool)
    requires Inv(s) && Apply(s, Resume(r, failed)).Some?
    ensures RoutesSound(Apply(s, Resume(r, failed)).value) && JobsSubmitted(Apply(s, Resume(r, failed)).value)
  {
  }

  lemma ResumeKeepsJobs(s: State, r: nat, failed: bool)
    requires Inv(s) && Apply(s, Resume(r, failed)).Some?
    ensures JobsSound(Apply(s, Resume(r, failed)).value)
  {
    if s.routes[r].lease == s.gate.generation {
      NoneUnfinished(s, s.routes[r].phase.job);
    }
  }

  lemma ResumeKeeps(s: State, r: nat, failed: bool)
    requires Inv(s) && Apply(s, Resume(r, failed)).Some?
    ensures Inv(Apply(s, Resume(r, failed)).value)
  {
    ResumeKeepsRoutes(s, r, failed);
    ResumeKeepsJobs(s, r, failed);
    var s' := Apply(s, Resume(r, failed)).value;
    assert s.routes[s.jobs[s.routes[r].phase.job].lease - 1].submitted;
    if i :| OpenOnCurrent(s, i) {
      assert s'.gate.busy ==> OpenOnCurrent(s', i);
    }
    if i :| HoldsCurrent(s, i) {
      assert s'.gate.busy ==> HoldsCurrent(s', i);
    }
  }

  lemma EnterKeeps(s: State, kind: Kind)
    requires Inv(s) && Apply(s, Enter(kind)).Some?
    ensures Inv(Apply(s, Enter(kind)).value)
  {
    var s' := Apply(s, Enter(kind)).value;
    assert HoldsCurrent(s', |s.routes|);
  }

  lemma StepKeepsInv(s: State, l: Label)
    requires Inv(s) && Apply(s, l).Some?
    ensures Inv(Apply(s, l).value)
  {
    match l
    case Enter(kind) => EnterKeeps(s, kind);
    case Submit(r) => SubmitKeeps(s, r);
    case FailEarly(r) => FailEarlyKeeps(s, r);
    case JobEnds(j) => JobEndsKeeps(s, j);
    case Callback(j) => CallbackKeeps(s, j);
    case Resume(r, failed) => ResumeKeeps(s, r, failed);
  }

  // ------------------------------------------------------------------------- runs

  function RunFrom(s: State, labels: seq<Label>): Option<State>
    decreases |labels|
  {
    if labels == [] then Some(s)
    else
      match Apply(s, labels[0])
      case None => None
      case Some(next) => RunFrom(next, labels[1..])
  }

  lemma {:induction false} RunKeepsInv(s: State, labels: seq<Label>)
    requires Inv(s) && RunFrom(s, labels).Some?
    ensures Inv(RunFrom(s, labels).value)
    decreases |labels|
  {
    if labels != [] {
      StepKeepsInv(s, labels[0]);
      RunKeepsInv(Apply(s, labels[0]).value, labels[1..]);
    }
  }

  ghost predicate Reachable(s: State) {
    exists labels :: RunFrom(INIT, labels) == Some(s)
  }

  lemma ReachableInv(s: State)
    requires Reachable(s)
    ensures Inv(s)
  {
    var labels :| RunFrom(INIT, labels) == Some(s);
    RunKeepsInv(INIT, labels);
  }

  // ---------------------------------------------------------------------- results

  /** While a job is unfinished the holder is busy at that job's generation, so at most one
      job is unfinished. */
  lemma LeaseSafety(s: State, i: nat, j: nat)
    requires Reachable(s) && i < |s.jobs| && j < |s.jobs| && !s.jobs[i].ended && !s.jobs[j].ended
    ensures s.gate == Gate(true, s.jobs[i].lease) && i == j
  {
    ReachableInv(s);
  }

  /** The lease a job reads from the holder is the one its route was given, although it is
      not passed down. */
  lemma JobRunsUnderItsRoutesLease(s: State, r: nat)
    requires Reachable(s) && Apply(s, Submit(r)).Some?
    ensures Apply(s, Submit(r)).value.jobs[|s.jobs|].lease == s.routes[r].lease
    ensures forall j :: 0 <= j < |s.jobs| ==> s.jobs[j].ended
  {
    ReachableInv(s);
  }

  /** Clearing an old lease never frees a newer one, and no clear ever frees a lease whose
      job is unfinished. */
  lemma ClearsFreeOnlyTheirOwn(s: State, l: Label)
    requires Reachable(s) && Apply(s, l).Some? && s.gate.busy && !Apply(s, l).value.gate.busy
    ensures forall j :: 0 <= j < |s.jobs| ==> s.jobs[j].ended
    ensures match l
            case FailEarly(r) => s.routes[r].lease == s.gate.generation
            case Callback(j) => s.jobs[j].lease == s.gate.generation
            case Resume(r, _) => s.routes[r].lease == s.gate.generation
            case _ => false
  {
    ReachableInv(s);
    StepKeepsInv(s, l);
  }

  /** A busy holder has a route that has yet to submit, a job whose callback has yet to
      run, or it is stranded. */
  lemma BusyIsAccounted(s: State)
    requires Reachable(s) && s.gate.busy
    ensures Accounted(s)
  {
    ReachableInv(s);
  }

  lemma StrandedStep(s: State, l: Label)
    requires Inv(s) && Stranded(s) && Apply(s, l).Some?
    ensures Stranded(Apply(s, l).value)
  {
    if l.Callback? {
      assert s.routes[s.jobs[l.j].lease - 1].submitted;
    } else if l.Resume? {
      assert s.routes[s.jobs[s.routes[l.r].phase.job].lease - 1].submitted;
    }
  }

  /** A stranded lease is never cleared: from then on every request is refused. */
  lemma {:induction false} StrandedForever(s: State, labels: seq<Label>)
    requires Inv(s) && Stranded(s) && RunFrom(s, labels).Some?
    ensures RunFrom(s, labels).value.gate.busy
    ensures forall kind :: Apply(RunFrom(s, labels).value, Enter(kind)).None?
    decreases |labels|
  {
    if labels != [] {
      StrandedStep(s, labels[0]);
      StepKeepsInv(s, labels[0]);
      StrandedForever(Apply(s, labels[0]).value, labels[1..]);
    }
  }

  /** A step strands the lease exactly when a transcription fails between admission and
      submission; speech routes never do. */
  lemma StrandsIff(s: State, l: Label)
    requires Reachable(s) && !Stranded(s) && Apply(s, l).Some?
    ensures Stranded(Apply(s, l).value) <==> l.FailEarly? && s.routes[l.r].kind.Transcription?
  {
    ReachableInv(s);
    StepKeepsInv(s, l);
  }

  /** It happens: from any idle state, the next transcription whose submission is refused
      strands the lease. */
  lemma RefusedSubmissionStrands(s: State)
    requires Reachable(s) && !s.gate.busy
    ensures var end := RunFrom(s, [Enter(Transcription), FailEarly(|s.routes|)]);
            end.Some? && Stranded(end.value)
    ensures !INIT.gate.busy && Reachable(INIT)
  {
    ReachableInv(s);
    var labels := [Enter(Transcription), FailEarly(|s.routes|)];
    var s1 := Apply(s, labels[0]).value;
    assert labels[1..] == [FailEarly(|s.routes|)] && labels[1..][1..] == [];
    var s2 := Apply(s1, FailEarly(|s.routes|)).value;
    assert RunFrom(s2, []) == Some(s2) && RunFrom(s1, labels[1..]) == Some(s2);
    assert RunFrom(INIT, []) == Some(INIT);
  }

  /** Unless stranded, a busy holder can be freed: some continuation of every reachable
      state ends idle. */
  lemma LeaseCanBeFreed(s: State) returns (labels: seq<Label>)
    requires Reachable(s) && s.gate.busy && !Stranded(s)
    ensures RunFrom(s, labels).Some? && !RunFrom(s, labels).value.gate.busy
  {
    ReachableInv(s);
    if j :| OpenOnCurrent(s, j) {
      labels := FinishJob(s, j);
    } else {
      var r :| HoldsCurrent(s, r);
      var s1 := Apply(s, Submit(r)).value;
      SubmitKeeps(s, r);
      var rest := FinishJob(s1, |s.jobs|);
      labels := [Submit(r)] + rest;
      assert labels[1..] == rest;
    }
  }

  lemma FinishJob(s: State, j: nat) returns (labels: seq<Label>)
    requires Inv(s) && j < |s.jobs| && s.jobs[j].lease == s.gate.generation && !s.jobs[j].called
    ensures RunFrom(s, labels).Some? && !RunFrom(s, labels).value.gate.busy
  {
    if s.jobs[j].ended {
      var s1 := Apply(s, Callback(j)).value;
      labels := [Callback(j)];
      assert labels[1..] == [] && RunFrom(s1, []) == Some(s1);
    } else {
      var s1 := Apply(s, JobEnds(j)).value;
      var s2 := Apply(s1, Callback(j)).value;
      labels := [JobEnds(j), Callback(j)];
      assert labels[1..] == [Callback(j)] && [Callback(j)][1..] == [];
      assert RunFrom(s2, []) == Some(s2) && RunFrom(s1, [Callback(j)]) == Some(s2);
    }
  }
}
