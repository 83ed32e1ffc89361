/** The single-flight media runner over an unreliable backend, as a step system.  A step
    is the code a task runs between two awaits, or one move of the server.  One job per
    admitted run: its foreground coroutine, its reaper task, its shielded submit task,
    its clean-up tasks, and what the server holds under its prompt id. */
module SingleFlight {
  import opened Options
  import opened SingleFlightSlot

  // ------------------------------------------------------------------- the backend

  /** The server's view of one prompt.  `InFlight`: posted, and possibly accepted
      arbitrarily late.  `Ended` keeps its history entry until we delete it. */
  datatype Server = Unsent | InFlight | Pending | Running | Ended(inHistory: bool) | Removed | Refused | Dropped

  /** The prompt may still occupy, or come to occupy, the GPU. */
  predicate Live(srv: Server) { srv.InFlight? || srv.Pending? || srv.Running? }

  predicate Accepted(srv: Server) { srv.Pending? || srv.Running? || srv.Ended? || srv.Removed? }

  datatype StatusText = Success | Error | Other

  /** The message list of a status: nothing to report, an error reported, or no list at
      all but a number or `true`, over which a loop raises. */
  datatype Messages = Clean | Reports | NotAList

  /** The parts of a history entry that the runner looks at.  `BadStatus`: the status is
      neither an object nor empty, so asking it for a key raises. */
  datatype Entry =
    | BadStatus
    | Entry(completed: bool, text: StatusText, succeeded: bool, messages: Messages, cancelled: bool, hasOutput: bool)

  /** The runner's reading: the entry says that the prompt is done. */
  predicate EntryTerminal(e: Entry) { e.Entry? && (e.completed || e.text != Other) }

  /** The tests that fail a terminal entry before its messages are looked at. */
  predicate FailedOutright(e: Entry)
    requires e.Entry?
  {
    e.cancelled || e.text == Error || (e.completed && !e.succeeded)
  }

  predicate EntryFailed(e: Entry)
    requires e.Entry?
  {
    FailedOutright(e) || e.messages.Reports?
  }

  /** Answer to a history read.  `Malformed` is a JSON body that is not an object, or one
      nested past the parser's depth: neither is caught as a poll error. */
  datatype Reply = Found(entry: Entry) | Nothing | PollError | Malformed

  predicate ProvenTerminal(r: Reply) { r.Found? && EntryTerminal(r.entry) }

  /** Reading the reply for a terminal status raises. */
  predicate Breaks(r: Reply) { r.Malformed? || (r.Found? && r.entry.BadStatus?) }

  /** Reading it in the foreground's wait raises: there a terminal entry's messages are
      looked at too, unless it has failed already. */
  predicate BreaksWait(r: Reply) {
    Breaks(r) || (ProvenTerminal(r) && !FailedOutright(r.entry) && r.entry.messages.NotAList?)
  }

  /** How the server marks an entry of a prompt that has ended. */
  predicate MarkedEnded(e: Entry)
    requires e.Entry?
  {
    e.completed || e.text == Success || e.text == Error
  }

  /** The runner reads an entry as terminal exactly when it is so marked: its test for a
      finished prompt misses no mark and invents none. */
  lemma ReadsTheMark(e: Entry)
    requires e.Entry?
    ensures EntryTerminal(e) <==> MarkedEnded(e)
  {
  }

  /** Replies the server may give: a readable entry is marked ended exactly when it keeps
      one for a prompt that has ended. */
  predicate Truthful(srv: Server, r: Reply) {
    match r
    case Found(BadStatus) => true
    case Found(e) => MarkedEnded(e) <==> srv == Ended(true)
    case Nothing => srv != Ended(true)
    case PollError => true
    case Malformed => true
  }

  /** Answer to the submit request. */
  datatype Response = TransportError | Status(code: nat, body: Body)
  datatype Body = Unparsable | NotObject | PromptId(ours: bool)

  datatype Submit = NoTask | Posting | SubmitOk | SubmitRejected | SubmitUncertain

  /** The client's reading of the answer: only a 4xx is a proven rejection. */
  function Classify(r: Response): Submit {
    match r
    case TransportError => SubmitUncertain
    case Status(code, body) =>
      if code != 200 then (if 400 <= code < 500 then SubmitRejected else SubmitUncertain)
      else if body == PromptId(true) then SubmitOk else SubmitUncertain
  }

  /** Server state after it answered: a 4xx means the prompt was never queued, and our
      own id comes back only for an accepted prompt.  Nothing else is known from an answer. */
  function AfterAnswer(srv: Server, r: Response): Option<Server> {
    match r
    case Status(code, body) =>
      if 400 <= code < 500 then (if srv.InFlight? then Some(Refused) else None)
      else if code == 200 && body == PromptId(true) then (if Accepted(srv) then Some(srv) else None)
      else Some(srv)
    case TransportError => Some(srv)
  }

  // ------------------------------------------------- targeted cancellation of a job

  datatype Stage = First | Poll(left: nat) | Last

  /** Where `cancel_own_job` waits; a history read may already have been answered. */
  datatype Cancel = CDelete | CHistory(stage: Stage, reply: Option<Reply>) | CQueue(stage: Stage) | CInterrupt

  datatype CancelNext = Continue(c: Cancel) | Return(verified: bool) | Raise

  const INTERRUPT_POLLS: nat := 20

  datatype CancelEvent =
    | DeletePosted(applied: bool)
    | HistoryAnswered(r: Reply)
    | HistoryRead
    | QueueRead(running: Option<bool>)
    | InterruptPosted(ok: bool)

  function AfterHistory(stage: Stage, r: Reply): CancelNext {
    if Breaks(r) then Raise
    else if ProvenTerminal(r) then Return(true)
    else match stage
      case First => Continue(CQueue(First))
      case Poll(n) => Continue(CQueue(Poll(n)))
      case Last => Return(false)
  }

  function AfterQueue(stage: Stage, running: Option<bool>): Cancel {
    match stage
    case First => if running == Some(true) then CInterrupt else CHistory(Last, None)
    case Poll(n) =>
      if running == Some(false) || n <= 1 then CHistory(Last, None) else CHistory(Poll(n - 1), None)
    case Last => CHistory(Last, None)
  }

  /** One step of the cancellation; `None` when the event cannot happen there. */
  function CancelStep(c: Cancel, srv: Server, e: CancelEvent): Option<(CancelNext, Server)> {
    match (c, e)
    case (CDelete, DeletePosted(applied)) =>
      Some((Continue(CHistory(First, None)), if applied && srv.Pending? then Removed else srv))
    case (CHistory(stage, None), HistoryAnswered(r)) =>
      if Truthful(srv, r) then Some((Continue(CHistory(stage, Some(r))), srv)) else None
    case (CHistory(stage, Some(r)), HistoryRead) => Some((AfterHistory(stage, r), srv))
    case (CQueue(stage), QueueRead(running)) => Some((Continue(AfterQueue(stage, running)), srv))
    case (CInterrupt, InterruptPosted(ok)) =>
      Some((if ok then Continue(CHistory(Poll(INTERRUPT_POLLS), None)) else Return(false), srv))
    case _ => None
  }

  /** An answered history read that proves the job terminal is about an ended job. */
  predicate CancelSound(c: Cancel, srv: Server) {
    c.CHistory? && c.reply.Some? && ProvenTerminal(c.reply.value) ==> srv.Ended?
  }

  /** `cancel_own_job` returns true only for a job that has ended, and it never makes a
      prompt live. */
  lemma CancelReturnsTrueOnlyWhenEnded(c: Cancel, srv: Server, e: CancelEvent)
    requires CancelSound(c, srv) && CancelStep(c, srv, e).Some?
    ensures var (next, after) := CancelStep(c, srv, e).value;
            && (next == Return(true) ==> after.Ended?)
            && (next.Continue? ==> CancelSound(next.c, after))
            && (Live(after) ==> Live(srv)) && (srv.Ended? ==> after == srv)
  {
  }

  // ---------------------------------------------------------------------- the tasks

  /** The foreground coroutine, by the await it is suspended at. */
  datatype Foreground =
    | Building
    | Submitting
    | Waiting(reply: Option<Reply>)
    | Fetching
    | TimeoutCancel(c: Cancel)
    | TimeoutCheck(reply: Option<Reply>)
    | FgDone

  datatype Reaper =
    | NoReaper
    | Interrupting(c: Cancel)
    | AfterSubmit
    | Reaping(reply: Option<Reply>)
    | ReaperDone

  /** `crashed`: a task of the job died of a history reply it could not read. */
  datatype Job = Job(fg: Foreground, rp: Reaper, sub: Submit, srv: Server, cleanups: nat, crashed: bool)

  predicate FgActive(j: Job) { !j.fg.FgDone? }
  predicate RpActive(j: Job) { !j.rp.NoReaper? && !j.rp.ReaperDone? }

  datatype Action =
    | ServerAccepts | ServerStarts | ServerEnds | ServerDrops
    | SubmitAnswered(resp: Response)
    | BuildSucceeds | BuildFails
    | ForegroundReads(r: Reply) | ForegroundResumes(expired: bool)
    | FetchEnds(good: bool)
    | ForegroundCancelEvent(e: CancelEvent)
    | ClientCancels
    | ReaperReads(r: Reply) | ReaperResumes(expired: bool)
    | ReaperCancelEvent(e: CancelEvent)
    | CleanupRuns(deleted: bool)

  /** The foreground gives up on a job that may be live: quarantine and reap. */
  function Quarantine(slot: Slot, i: nat, j: Job): (Slot, Job) {
    (Retained(slot, i), j.(fg := FgDone, rp := Reaping(None)))
  }

  /** The foreground ends with nothing on the GPU: clean up and free the slot. */
  function FgRelease(slot: Slot, i: nat, j: Job): (Slot, Job) {
    (Released(slot, i), j.(fg := FgDone, cleanups := j.cleanups + 1))
  }

  /** Foreground resumes after its submit task settled. */
  function AfterSubmitted(slot: Slot, i: nat, j: Job): Option<(Slot, Job)> {
    match j.sub
    case SubmitOk => Some((slot, j.(fg := Waiting(None), sub := NoTask)))
    case SubmitRejected => Some(FgRelease(slot, i, j.(sub := NoTask)))
    case SubmitUncertain => Some(Quarantine(slot, i, j.(sub := NoTask)))
    case _ => None
  }

  /** Foreground resumes in `wait_for_terminal` with a history answer. */
  function AfterWait(slot: Slot, i: nat, j: Job, r: Reply, expired: bool): (Slot, Job) {
    if BreaksWait(r) then (slot, j.(fg := FgDone, crashed := true))
    else if r.PollError? then Quarantine(slot, i, j)
    else if ProvenTerminal(r) then
      if EntryFailed(r.entry) then FgRelease(slot, i, j.(cleanups := j.cleanups + 1))
      else if !r.entry.hasOutput then FgRelease(slot, i, j)
      else (slot, j.(fg := Fetching))
    else (slot, j.(fg := if expired then TimeoutCancel(CDelete) else Waiting(None)))
  }

  function AfterTimeoutCheck(slot: Slot, i: nat, j: Job, r: Reply): (Slot, Job) {
    if Breaks(r) then (slot, j.(fg := FgDone, crashed := true))
    else if ProvenTerminal(r) then
      (ReleasedTerminal(slot, i), j.(fg := FgDone, cleanups := j.cleanups + 1))
    else Quarantine(slot, i, j)
  }

  function AfterReap(slot: Slot, i: nat, j: Job, r: Reply, expired: bool): (Slot, Job) {
    if Breaks(r) then (slot, j.(rp := ReaperDone, crashed := true))
    else if ProvenTerminal(r) then
      (ReleasedTerminal(slot, i), j.(rp := ReaperDone, cleanups := j.cleanups + 1))
    else if expired then (Retained(slot, i), j.(rp := ReaperDone))
    else (slot, j.(rp := Reaping(None)))
  }

  /** The reaper of a cancelled submit, once that submit settled. */
  function AfterLateSubmit(slot: Slot, i: nat, j: Job): Option<(Slot, Job)> {
    match j.sub
    case Posting => None
    case SubmitRejected =>
      Some((ReleasedTerminal(slot, i), j.(sub := NoTask, rp := ReaperDone, cleanups := j.cleanups + 1)))
    case _ => Some((Retained(slot, i), j.(sub := NoTask, rp := Reaping(None))))
  }

  /** The client goes away while the foreground is suspended. */
  function AfterCancel(slot: Slot, i: nat, j: Job): Option<(Slot, Job)> {
    match j.fg
    case Building => Some(FgRelease(slot, i, j))
    case Submitting => Some((Retained(slot, i), j.(fg := FgDone, rp := AfterSubmit)))
    case FgDone => None
    case _ => Some((slot, j.(fg := FgDone, rp := Interrupting(CDelete))))
  }

  /** One step on job `i`; `None` when the step cannot happen there. */
  function Perform(slot: Slot, i: nat, j: Job, a: Action): Option<(Slot, Job)> {
    match a
    case ServerAccepts => if j.srv.InFlight? then Some((slot, j.(srv := Pending))) else None
    case ServerStarts => if j.srv.Pending? then Some((slot, j.(srv := Running))) else None
    case ServerEnds => if j.srv.Running? then Some((slot, j.(srv := Ended(true)))) else None
    case ServerDrops => if j.srv.InFlight? then Some((slot, j.(srv := Dropped))) else None
    case SubmitAnswered(resp) =>
      if j.sub.Posting? && AfterAnswer(j.srv, resp).Some? then
        Some((slot, j.(sub := Classify(resp), srv := AfterAnswer(j.srv, resp).value)))
      else None
    case BuildSucceeds =>
      if j.fg.Building? then Some((slot, j.(fg := Submitting, sub := Posting, srv := InFlight))) else None
    case BuildFails => if j.fg.Building? then Some(FgRelease(slot, i, j)) else None
    case ForegroundReads(r) =>
      if !Truthful(j.srv, r) then None
      else if j.fg == Waiting(None) then Some((slot, j.(fg := Waiting(Some(r)))))
      else if j.fg == TimeoutCheck(None) then Some((slot, j.(fg := TimeoutCheck(Some(r)))))
      else None
    case ForegroundResumes(expired) =>
      (match j.fg
       case Submitting => AfterSubmitted(slot, i, j)
       case Waiting(Some(r)) => Some(AfterWait(slot, i, j, r, expired))
       case TimeoutCheck(Some(r)) => Some(AfterTimeoutCheck(slot, i, j, r))
       case _ => None)
    case FetchEnds(good) =>
      if !j.fg.Fetching? then None
      else if good then Some((ReleasedTerminal(slot, i), j.(fg := FgDone, cleanups := j.cleanups + 1)))
      else Some(FgRelease(slot, i, j))
    case ForegroundCancelEvent(e) =>
      if !j.fg.TimeoutCancel? then None
      else
        (match CancelStep(j.fg.c, j.srv, e)
         case None => None
         case Some((Continue(c), srv)) => Some((slot, j.(fg := TimeoutCancel(c), srv := srv)))
         case Some((Return(true), srv)) => Some((slot, j.(fg := TimeoutCheck(None), srv := srv)))
         case Some((_, srv)) => Some(Quarantine(slot, i, j.(srv := srv))))
    case ClientCancels => AfterCancel(slot, i, j)
    case ReaperReads(r) =>
      if j.rp == Reaping(None) && Truthful(j.srv, r) then Some((slot, j.(rp := Reaping(Some(r))))) else None
    case ReaperResumes(expired) =>
      (match j.rp
       case AfterSubmit => AfterLateSubmit(slot, i, j)
       case Reaping(Some(r)) => Some(AfterReap(slot, i, j, r, expired))
       case _ => None)
    case ReaperCancelEvent(e) =>
      if !j.rp.Interrupting? then None
      else
        (match CancelStep(j.rp.c, j.srv, e)
         case None => None
         case Some((Continue(c), srv)) => Some((slot, j.(rp := Interrupting(c), srv := srv)))
         case Some((_, srv)) => Some((slot, j.(rp := Reaping(None), srv := srv))))
    case CleanupRuns(deleted) =>
      if j.cleanups == 0 then None
      else Some((slot, j.(cleanups := j.cleanups - 1,
                          srv := if deleted && j.srv.Ended? then Ended(false) else j.srv)))
  }

  // -------------------------------------------------------------------- the system

  datatype State = State(slot: Slot, jobs: seq<Job>)

  const INIT := State(FREE, [])

  const NEW_JOB := Job(Building, NoReaper, NoTask, Unsent, 0, false)

  /** A new request asks for the slot. */
  function Request(s: State): State {
    if Admit(s.slot).Admitted? then State(Acquired(s.slot, |s.jobs|), s.jobs + [NEW_JOB]) else s
  }

  datatype Label = Arrive | Act(job: nat, action: Action)

  function Apply(s: State, l: Label): Option<State> {
    match l
    case Arrive => Some(Request(s))
    case Act(i, a) =>
      if i >= |s.jobs| then None
      else
        match Perform(s.slot, i, s.jobs[i], a)
        case None => None
        case Some((slot, job)) => Some(State(slot, s.jobs[i := job]))
  }

  /** State after a run of labels; `None` if some step could not happen. */
  function RunFrom(s: State, labels: seq<Label>): Option<State>
    decreases |labels|
  {
    if labels == [] then Some(s)
    else
      match Apply(s, labels[0])
      case None => None
      case Some(next) => RunFrom(next, labels[1..])
  }

  ghost predicate Reachable(s: State) {
    exists labels :: RunFrom(INIT, labels) == Some(s)
  }

  // ------------------------------------------------------------------- the invariant

  predicate Holds(slot: Slot, i: nat) { slot.busy && slot.owner == Some(i) }

  /** A terminal answer that a task is about to act on is about an ended job. */
  predicate RepliesSound(j: Job) {
    && (j.fg.Waiting? && j.fg.reply.Some? && ProvenTerminal(j.fg.reply.value) ==> j.srv.Ended?)
    && (j.fg.Fetching? || j.fg.TimeoutCheck? ==> j.srv.Ended?)
    && (j.fg.TimeoutCancel? ==> CancelSound(j.fg.c, j.srv))
    && (j.rp.Interrupting? ==> CancelSound(j.rp.c, j.srv))
    && (j.rp.Reaping? && j.rp.reply.Some? && ProvenTerminal(j.rp.reply.value) ==> j.srv.Ended?)
  }

  /** The submit task and the prompt follow the tasks that own them. */
  predicate SubmitSound(j: Job) {
    && (j.fg.Building? ==> j.srv.Unsent? && j.sub.NoTask?)
    && (j.fg.Submitting? ==> !j.sub.NoTask?)
    && (!j.sub.NoTask? ==> j.fg.Submitting? || j.rp.AfterSubmit?)
    && (j.sub.SubmitRejected? ==> j.srv.Refused?)
  }

  predicate JobInv(slot: Slot, i: nat, j: Job) {
    && (Live(j.srv) ==> Holds(slot, i))
    && (FgActive(j) ==> Holds(slot, i) && !slot.unhealthy && j.rp.NoReaper?)
    && (RpActive(j) ==> Holds(slot, i))
    && (FgActive(j) || RpActive(j) ==> j.cleanups == 0 && j.srv != Ended(false) && !j.crashed)
    && (Holds(slot, i) ==> FgActive(j) || RpActive(j) || slot.unhealthy || j.crashed)
    && RepliesSound(j) && SubmitSound(j)
  }

  ghost predicate Inv(s: State) {
    && Coherent(s.slot)
    && (s.slot.owner.Some? ==> s.slot.owner.value < |s.jobs|)
    && forall i :: 0 <= i < |s.jobs| ==> JobInv(s.slot, i, s.jobs[i])
  }

  /** The job stays in order, and the slot changes only in the hands of its owner. */
  ghost predicate Kept(slot: Slot, i: nat, slot': Slot, j': Job) {
    && Coherent(slot') && JobInv(slot', i, j')
    && (slot'.owner == slot.owner || (slot.owner == Some(i) && slot'.owner == None))
    && (slot.owner != Some(i) ==> slot' == slot)
  }

  predicate ForegroundAction(a: Action) {
    a.BuildSucceeds? || a.BuildFails? || a.ForegroundReads? || a.ForegroundResumes? || a.FetchEnds?
    || a.ForegroundCancelEvent? || a.ClientCancels?
  }

  predicate ReaperAction(a: Action) {
    a.ReaperReads? || a.ReaperResumes? || a.ReaperCancelEvent?
  }

  lemma ForegroundKeepsJob(slot: Slot, i: nat, j: Job, a: Action)
    requires Coherent(slot) && JobInv(slot, i, j) && ForegroundAction(a) && Perform(slot, i, j, a).Some?
    ensures Kept(slot, i, Perform(slot, i, j, a).value.0, Perform(slot, i, j, a).value.1)
  {
    if a.ForegroundCancelEvent? {
      CancelReturnsTrueOnlyWhenEnded(j.fg.c, j.srv, a.e);
    }
  }

  lemma ReaperKeepsJob(slot: Slot, i: nat, j: Job, a: Action)
    requires Coherent(slot) && JobInv(slot, i, j) && ReaperAction(a) && Perform(slot, i, j, a).Some?
    ensures Kept(slot, i, Perform(slot, i, j, a).value.0, Perform(slot, i, j, a).value.1)
  {
    if a.ReaperCancelEvent? {
      CancelReturnsTrueOnlyWhenEnded(j.rp.c, j.srv, a.e);
    }
  }

  lemma BackendKeepsJob(slot: Slot, i: nat, j: Job, a: Action)
    requires Coherent(slot) && JobInv(slot, i, j) && !ForegroundAction(a) && !ReaperAction(a)
    requires Perform(slot, i, j, a).Some?
    ensures Kept(slot, i, Perform(slot, i, j, a).value.0, Perform(slot, i, j, a).value.1)
  {
  }

  lemma PerformKeepsJob(slot: Slot, i: nat, j: Job, a: Action)
    requires Coherent(slot) && JobInv(slot, i, j) && Perform(slot, i, j, a).Some?
    ensures Kept(slot, i, Perform(slot, i, j, a).value.0, Perform(slot, i, j, a).value.1)
  {
    if ForegroundAction(a) {
      ForegroundKeepsJob(slot, i, j, a);
    } else if ReaperAction(a) {
      ReaperKeepsJob(slot, i, j, a);
    } else {
      BackendKeepsJob(slot, i, j, a);
    }
  }

  /** Another job's step never disturbs a job. */
  lemma OthersUndisturbed(slot: Slot, slot': Slot, i: nat, k: nat, j: Job)
    requires Coherent(slot) && Coherent(slot') && JobInv(slot, k, j) && k != i
    requires slot'.owner == slot.owner || (slot.owner == Some(i) && slot'.owner == None)
    requires slot.owner != Some(i) ==> slot' == slot
    ensures JobInv(slot', k, j)
  {
  }

  /** Every step keeps the invariant. */
  lemma ApplyKeepsInv(s: State, l: Label)
    requires Inv(s) && Apply(s, l).Some?
    ensures Inv(Apply(s, l).value)
  {
    var s' := Apply(s, l).value;
    if l.Act? {
      PerformKeepsJob(s.slot, l.job, s.jobs[l.job], l.action);
      forall k | 0 <= k < |s'.jobs|
        ensures JobInv(s'.slot, k, s'.jobs[k])
      {
        if k != l.job {
          OthersUndisturbed(s.slot, s'.slot, l.job, k, s.jobs[k]);
        }
      }
    } else if Admit(s.slot).Admitted? {
      forall k | 0 <= k < |s'.jobs|
        ensures JobInv(s'.slot, k, s'.jobs[k])
      {
        if k < |s.jobs| {
          assert JobInv(s.slot, k, s.jobs[k]);
        }
      }
    }
  }

  lemma {:induction false} RunKeepsInv(s: State, labels: seq<Label>)
    requires Inv(s) && RunFrom(s, labels).Some?
    ensures Inv(RunFrom(s, labels).value)
    decreases |labels|
  {
    if labels != [] {
      ApplyKeepsInv(s, labels[0]);
      RunKeepsInv(Apply(s, labels[0]).value, labels[1..]);
    }
  }

  lemma ReachableInv(s: State)
    requires Reachable(s)
    ensures Inv(s)
  {
    var labels :| RunFrom(INIT, labels) == Some(s);
    RunKeepsInv(INIT, labels);
  }

  // ------------------------------------------------------------------------ results

  /** Single flight: a prompt that may be live, under any cancellation, timeout or lost
      response, is owned by the run that holds the busy slot; so at most one is live. */
  lemma SingleFlightSafety(s: State)
    requires Reachable(s)
    ensures forall i :: 0 <= i < |s.jobs| && Live(s.jobs[i].srv) ==> s.slot.busy && s.slot.owner == Some(i)
    ensures forall i, k :: 0 <= i < |s.jobs| && 0 <= k < |s.jobs| && Live(s.jobs[i].srv) && Live(s.jobs[k].srv)
              ==> i == k
  {
    ReachableInv(s);
    forall i | 0 <= i < |s.jobs| && Live(s.jobs[i].srv)
      ensures s.slot.busy && s.slot.owner == Some(i)
    {
      assert JobInv(s.slot, i, s.jobs[i]);
    }
  }

  /** A new prompt is admitted only when no earlier prompt may be live. */
  lemma AdmissionMeansIdleBackend(s: State)
    requires Reachable(s) && Admit(s.slot).Admitted?
    ensures forall i :: 0 <= i < |s.jobs| ==> !Live(s.jobs[i].srv) && !FgActive(s.jobs[i]) && !RpActive(s.jobs[i])
  {
    ReachableInv(s);
    forall i | 0 <= i < |s.jobs|
      ensures !Live(s.jobs[i].srv) && !FgActive(s.jobs[i]) && !RpActive(s.jobs[i])
    {
      assert JobInv(s.slot, i, s.jobs[i]);
    }
  }

  /** Nobody is left to release the slot, and it is not even marked unavailable. */
  predicate SlotLost(s: State) {
    && s.slot.busy && !s.slot.unhealthy && s.slot.owner.Some? && s.slot.owner.value < |s.jobs|
    && !FgActive(s.jobs[s.slot.owner.value]) && !RpActive(s.jobs[s.slot.owner.value])
  }

  /** Quarantine implies busy, and a busy slot has a foreground run, a reaper or the
      quarantine mark, except exactly when a task of its owner died of a reply it could
      not read. */
  lemma SlotLostExactlyAfterCrash(s: State)
    requires Reachable(s)
    ensures s.slot.unhealthy ==> s.slot.busy
    ensures s.slot.busy ==> s.slot.owner.Some? && s.slot.owner.value < |s.jobs|
    ensures SlotLost(s) <==>
      s.slot.busy && !s.slot.unhealthy && s.jobs[s.slot.owner.value].crashed
  {
    ReachableInv(s);
    if s.slot.busy {
      assert JobInv(s.slot, s.slot.owner.value, s.jobs[s.slot.owner.value]);
    }
  }

  /** The task that polls history holds a reply whose reading will raise. */
  predicate AboutToDie(j: Job) {
    || (j.fg.Waiting? && j.fg.reply.Some? && BreaksWait(j.fg.reply.value))
    || (j.fg.TimeoutCheck? && j.fg.reply.Some? && Breaks(j.fg.reply.value))
    || (j.rp.Reaping? && j.rp.reply.Some? && Breaks(j.rp.reply.value))
  }

  /** A task dies in exactly one way: it resumes with a reply that its reading breaks on.
      A targeted cancellation survives every reply. */
  lemma DiesIff(slot: Slot, i: nat, j: Job, a: Action)
    requires JobInv(slot, i, j) && !j.crashed && Perform(slot, i, j, a).Some?
    ensures Perform(slot, i, j, a).value.1.crashed <==>
            AboutToDie(j) && ((a.ForegroundResumes? && FgActive(j)) || (a.ReaperResumes? && RpActive(j)))
  {
  }

  /** The step delivers such a reply. */
  predicate Malforms(s: State, l: Label) {
    l.Act? && l.job < |s.jobs| &&
    match l.action
    case ForegroundReads(r) => if s.jobs[l.job].fg.Waiting? then BreaksWait(r) else Breaks(r)
    case ReaperReads(r) => Breaks(r)
    case _ => false
  }

  /** No step of the run does. */
  predicate WellShaped(s: State, labels: seq<Label>)
    decreases |labels|
  {
    labels == [] ||
    (!Malforms(s, labels[0]) &&
     match Apply(s, labels[0])
     case None => true
     case Some(next) => WellShaped(next, labels[1..]))
  }

  /** No task of the job died, or is about to die, of a reply. */
  predicate Unharmed(j: Job) {
    !j.crashed && !AboutToDie(j)
  }

  lemma UnharmedStep(s: State, i: nat, a: Action)
    requires i < |s.jobs| && Unharmed(s.jobs[i]) && !Malforms(s, Act(i, a)) && Perform(s.slot, i, s.jobs[i], a).Some?
    ensures Unharmed(Perform(s.slot, i, s.jobs[i], a).value.1)
  {
  }

  lemma {:induction false} StaysUnharmed(s: State, labels: seq<Label>)
    requires RunFrom(s, labels).Some? && WellShaped(s, labels)
    requires forall i :: 0 <= i < |s.jobs| ==> Unharmed(s.jobs[i])
    ensures var end := RunFrom(s, labels).value;
            forall i :: 0 <= i < |end.jobs| ==> Unharmed(end.jobs[i])
    decreases |labels|
  {
    if labels != [] {
      var next := Apply(s, labels[0]).value;
      forall i | 0 <= i < |next.jobs|
        ensures Unharmed(next.jobs[i])
      {
        if labels[0].Act? && i == labels[0].job {
          UnharmedStep(s, i, labels[0].action);
        }
      }
      StaysUnharmed(next, labels[1..]);
    }
  }

  /** No lost slot: with a backend whose history replies can be read where they are polled
      (bodies are objects, statuses are objects or empty, and a terminal success has a
      list of messages), a busy slot has a foreground run, an outstanding reaper or the
      quarantine mark. */
  lemma NoLostSlot(labels: seq<Label>)
    requires RunFrom(INIT, labels).Some? && WellShaped(INIT, labels)
    ensures !SlotLost(RunFrom(INIT, labels).value)
  {
    var s := RunFrom(INIT, labels).value;
    assert Reachable(s);
    SlotLostExactlyAfterCrash(s);
    StaysUnharmed(INIT, labels);
  }

  // ------------------------------------------------- when a held slot can be freed

  /** The reaper holds a reply that kills it: nothing can come between.  (A foreground run
      in that position can still be cancelled.) */
  predicate ReaperDies(j: Job) {
    j.rp.Reaping? && j.rp.reply.Some? && Breaks(j.rp.reply.value)
  }

  /** Some way is left to free the slot of job `j`: nothing was posted yet, the prompt is
      proven rejected, or it can still reach terminal history before a live task. */
  predicate Freeable(j: Job) {
    || j.fg.Building?
    || ((j.fg.Submitting? || j.rp.AfterSubmit?) && j.sub.SubmitRejected?)
    || ((FgActive(j) || RpActive(j)) && !ReaperDies(j) && (Live(j.srv) || j.srv == Ended(true)))
  }

  lemma StuckStep(s: State, i: nat, l: Label)
    requires Inv(s) && Holds(s.slot, i) && i < |s.jobs| && !Freeable(s.jobs[i]) && Apply(s, l).Some?
    ensures var s' := Apply(s, l).value;
            Holds(s'.slot, i) && i < |s'.jobs| && !Freeable(s'.jobs[i])
  {
    assert JobInv(s.slot, i, s.jobs[i]);
    if l.Act? {
      if l.job == i {
        StuckJob(s.slot, i, s.jobs[i], l.action);
      } else {
        PerformKeepsJob(s.slot, l.job, s.jobs[l.job], l.action);
      }
    }
  }

  lemma StuckJob(slot: Slot, i: nat, j: Job, a: Action)
    requires Coherent(slot) && JobInv(slot, i, j) && Holds(slot, i) && !Freeable(j)
    requires Perform(slot, i, j, a).Some?
    ensures var (slot', j') := Perform(slot, i, j, a).value;
            Holds(slot', i) && !Freeable(j')
  {
    if a.ForegroundCancelEvent? && CancelStep(j.fg.c, j.srv, a.e).Some? {
      CancelReturnsTrueOnlyWhenEnded(j.fg.c, j.srv, a.e);
    }
  }

  lemma {:induction false} StuckForever(s: State, i: nat, labels: seq<Label>)
    requires Inv(s) && Holds(s.slot, i) && i < |s.jobs| && !Freeable(s.jobs[i]) && RunFrom(s, labels).Some?
    ensures Holds(RunFrom(s, labels).value.slot, i)
    decreases |labels|
  {
    if labels != [] {
      StuckStep(s, i, labels[0]);
      ApplyKeepsInv(s, labels[0]);
      StuckForever(Apply(s, labels[0]).value, i, labels[1..]);
    }
  }

  /** A step towards freeing the slot of a freeable job. */
  function Towards(j: Job): Action {
    if j.fg.Building? then BuildFails
    else if j.fg.Submitting? && j.sub.SubmitRejected? then ForegroundResumes(false)
    else if FgActive(j) then ClientCancels
    else match j.rp
      case Interrupting(CDelete) => ReaperCancelEvent(DeletePosted(false))
      case Interrupting(CHistory(_, None)) => ReaperCancelEvent(HistoryAnswered(PollError))
      case Interrupting(CHistory(_, Some(_))) => ReaperCancelEvent(HistoryRead)
      case Interrupting(CQueue(_)) => ReaperCancelEvent(QueueRead(Some(false)))
      case Interrupting(CInterrupt) => ReaperCancelEvent(InterruptPosted(false))
      case AfterSubmit => if j.sub.Posting? then SubmitAnswered(TransportError) else ReaperResumes(false)
      case Reaping(Some(_)) => ReaperResumes(false)
      case _ =>
        match j.srv
        case InFlight => ServerAccepts
        case Pending => ServerStarts
        case Running => ServerEnds
        case _ => ReaperReads(Found(Entry(true, Success, true, Clean, false, true)))
  }

  function CancelRank(c: Cancel): nat {
    match c
    case CDelete => 6
    case CHistory(Last, reply) => if reply.None? then 2 else 1
    case CHistory(_, reply) => if reply.None? then 5 else 4
    case CQueue(_) => 3
    case CInterrupt => 7
  }

  function ServerRank(srv: Server): nat {
    match srv
    case InFlight => 3
    case Pending => 2
    case Running => 1
    case _ => 0
  }

  /** Number of steps `Towards` still needs, at most. */
  function Distance(j: Job): nat {
    if FgActive(j) then 40
    else match j.rp
      case Interrupting(c) => 20 + CancelRank(c)
      case AfterSubmit => if j.sub.Posting? then 21 else 20
      case Reaping(None) => 2 * ServerRank(j.srv) + 1
      case Reaping(Some(r)) => if ProvenTerminal(r) then 0 else 2 * ServerRank(j.srv) + 2
      case _ => 0
  }

  /** The step happens, and it frees the slot or brings that closer. */
  ghost predicate Closer(slot: Slot, i: nat, j: Job) {
    match Perform(slot, i, j, Towards(j))
    case None => false
    case Some((slot', j')) =>
      slot'.owner == None || (Holds(slot', i) && Freeable(j') && Distance(j') < Distance(j))
  }

  lemma ForegroundProgresses(slot: Slot, i: nat, j: Job)
    requires JobInv(slot, i, j) && Holds(slot, i) && Freeable(j) && FgActive(j)
    ensures Closer(slot, i, j)
  {
  }

  lemma InterrupterProgresses(slot: Slot, i: nat, j: Job)
    requires JobInv(slot, i, j) && Holds(slot, i) && Freeable(j) && j.rp.Interrupting?
    ensures Closer(slot, i, j)
  {
  }

  lemma ReaperProgresses(slot: Slot, i: nat, j: Job)
    requires JobInv(slot, i, j) && Holds(slot, i) && Freeable(j) && RpActive(j) && !j.rp.Interrupting?
    ensures Closer(slot, i, j)
  {
  }

  lemma TowardsProgresses(slot: Slot, i: nat, j: Job)
    requires JobInv(slot, i, j) && Holds(slot, i) && Freeable(j)
    ensures Closer(slot, i, j)
  {
    if FgActive(j) {
      ForegroundProgresses(slot, i, j);
    } else if j.rp.Interrupting? {
      InterrupterProgresses(slot, i, j);
    } else {
      ReaperProgresses(slot, i, j);
    }
  }

  lemma FreeingPath(s: State, i: nat) returns (labels: seq<Label>)
    requires Inv(s) && Holds(s.slot, i) && i < |s.jobs| && Freeable(s.jobs[i])
    ensures RunFrom(s, labels).Some? && RunFrom(s, labels).value.slot.owner == None
    decreases Distance(s.jobs[i])
  {
    var j := s.jobs[i];
    assert JobInv(s.slot, i, j);
    TowardsProgresses(s.slot, i, j);
    var l := Act(i, Towards(j));
    var next := Apply(s, l).value;
    ApplyKeepsInv(s, l);
    if next.slot.owner == None {
      labels := [l];
      assert RunFrom(next, []) == Some(next);
      assert labels[1..] == [];
    } else {
      var rest := FreeingPath(next, i);
      labels := [l] + rest;
      assert labels[1..] == rest;
    }
  }

  /** In every reachable state, a held slot can still be freed exactly when its job is
      freeable: in particular never once the prompt was dropped on the way or removed
      from the pending queue by our own cancellation, and never after the reaper gave up. */
  lemma SlotCanBeFreedIff(s: State, i: nat)
    requires Reachable(s) && Holds(s.slot, i)
    ensures i < |s.jobs|
    ensures Freeable(s.jobs[i]) <==>
      exists labels :: RunFrom(s, labels).Some? && !Holds(RunFrom(s, labels).value.slot, i)
  {
    ReachableInv(s);
    if Freeable(s.jobs[i]) {
      var labels := FreeingPath(s, i);
      assert RunFrom(s, labels).Some? && !Holds(RunFrom(s, labels).value.slot, i);
    } else {
      forall labels | RunFrom(s, labels).Some?
        ensures Holds(RunFrom(s, labels).value.slot, i)
      {
        StuckForever(s, i, labels);
      }
    }
  }

  // ------------------------------------------------------------------- concrete runs

  const HELD := Slot(true, false, Some(0))

  /** The first run's prompt is accepted and pending, and its foreground polls for it. */
  const FIRST_PENDING := Job(Waiting(None), NoReaper, NoTask, Pending, 0, false)

  lemma FirstPendingIsReachable()
    ensures Reachable(State(HELD, [FIRST_PENDING]))
  {
    ReachableStart();
    assert INIT.jobs + [NEW_JOB] == [NEW_JOB];
    ReachableStep(INIT, Arrive, State(HELD, [NEW_JOB]));
    var j2 := NEW_JOB.(fg := Submitting, sub := Posting, srv := InFlight);
    SoloStep(HELD, NEW_JOB, BuildSucceeds, HELD, j2);
    SoloStep(HELD, j2, ServerAccepts, HELD, j2.(srv := Pending));
    var j4 := j2.(srv := Pending, sub := SubmitOk);
    SoloStep(HELD, j2.(srv := Pending), SubmitAnswered(Status(200, PromptId(true))), HELD, j4);
    SoloStep(HELD, j4, ForegroundResumes(false), HELD, FIRST_PENDING);
  }

  /** One history reply that cannot be read for a status strands the slot: busy, healthy,
      and nobody left, while the prompt may still run. */
  lemma BrokenReplyLosesSlot(r: Reply)
    requires Breaks(r)
    ensures exists s :: Reachable(s) && SlotLost(s) && |s.jobs| == 1 && Live(s.jobs[0].srv) && !Freeable(s.jobs[0])
  {
    FirstPendingIsReachable();
    var j6 := FIRST_PENDING.(fg := Waiting(Some(r)));
    var j7 := FIRST_PENDING.(fg := FgDone, crashed := true);
    SoloStep(HELD, FIRST_PENDING, ForegroundReads(r), HELD, j6);
    SoloStep(HELD, j6, ForegroundResumes(false), HELD, j7);
    assert SlotLost(State(HELD, [j7]));
  }

  const POLLED_BY_REAPER := FIRST_PENDING.(fg := FgDone, rp := Reaping(None))

  /** The client leaves, and the cancellation ends at a reply it cannot read: the reaper
      swallows that error and starts to poll. */
  lemma PolledByReaperIsReachable(r: Reply)
    requires Breaks(r)
    ensures Reachable(State(HELD, [POLLED_BY_REAPER]))
  {
    FirstPendingIsReachable();
    var j6 := FIRST_PENDING.(fg := FgDone, rp := Interrupting(CDelete));
    SoloStep(HELD, FIRST_PENDING, ClientCancels, HELD, j6);
    var j7 := j6.(rp := Interrupting(CHistory(First, None)));
    SoloStep(HELD, j6, ReaperCancelEvent(DeletePosted(false)), HELD, j7);
    var j8 := j6.(rp := Interrupting(CHistory(First, Some(r))));
    SoloStep(HELD, j7, ReaperCancelEvent(HistoryAnswered(r)), HELD, j8);
    SoloStep(HELD, j8, ReaperCancelEvent(HistoryRead), HELD, POLLED_BY_REAPER);
  }

  /** Met by its poll, the same reply kills the reaper. */
  lemma BrokenReplyKillsReaper(r: Reply)
    requires Breaks(r)
    ensures exists s ::
              Reachable(s) && SlotLost(s) && |s.jobs| == 1 && s.jobs[0].rp.ReaperDone? && !Freeable(s.jobs[0])
  {
    PolledByReaperIsReachable(r);
    var j1 := POLLED_BY_REAPER.(rp := Reaping(Some(r)));
    SoloStep(HELD, POLLED_BY_REAPER, ReaperReads(r), HELD, j1);
    var j2 := POLLED_BY_REAPER.(rp := ReaperDone, crashed := true);
    SoloStep(HELD, j1, ReaperResumes(false), HELD, j2);
    assert SlotLost(State(HELD, [j2]));
  }

  /** A terminal success whose message list is no list strands the slot of a finished job:
      it kills the foreground's wait, and only that. */
  lemma BadMessagesLoseSlot()
    ensures var r := Found(Entry(true, Success, true, NotAList, false, true)); BreaksWait(r) && !Breaks(r)
    ensures exists s ::
              Reachable(s) && SlotLost(s) && |s.jobs| == 1 && s.jobs[0].srv == Ended(true) && !Freeable(s.jobs[0])
  {
    FirstPendingIsReachable();
    var r := Found(Entry(true, Success, true, NotAList, false, true));
    var running := FIRST_PENDING.(srv := Running);
    var ended := FIRST_PENDING.(srv := Ended(true));
    SoloStep(HELD, FIRST_PENDING, ServerStarts, HELD, running);
    SoloStep(HELD, running, ServerEnds, HELD, ended);
    SoloStep(HELD, ended, ForegroundReads(r), HELD, ended.(fg := Waiting(Some(r))));
    var lost := ended.(fg := FgDone, crashed := true);
    SoloStep(HELD, ended.(fg := Waiting(Some(r))), ForegroundResumes(false), HELD, lost);
    assert SlotLost(State(HELD, [lost]));
  }

  /** A client that leaves while its prompt is still pending: our own queue delete removes
      the prompt without a history entry, and the slot can never be freed again. */
  lemma CancelledPendingJobIsNeverFreed()
    ensures exists s ::
              Reachable(s) && Holds(s.slot, 0) && |s.jobs| == 1 && s.jobs[0].srv.Removed? && !Freeable(s.jobs[0])
  {
    FirstPendingIsReachable();
    var j6 := FIRST_PENDING.(fg := FgDone, rp := Interrupting(CDelete));
    var j7 := j6.(rp := Interrupting(CHistory(First, None)), srv := Removed);
    SoloStep(HELD, FIRST_PENDING, ClientCancels, HELD, j6);
    SoloStep(HELD, j6, ReaperCancelEvent(DeletePosted(true)), HELD, j7);
    assert Holds(HELD, 0) && !Freeable(State(HELD, [j7]).jobs[0]);
  }

  lemma SoloStep(slot: Slot, j: Job, a: Action, slot': Slot, j': Job)
    requires Reachable(State(slot, [j])) && Perform(slot, 0, j, a) == Some((slot', j'))
    ensures Reachable(State(slot', [j']))
  {
    assert [j][0 := j'] == [j'];
    ReachableStep(State(slot, [j]), Act(0, a), State(slot', [j']));
  }

  lemma ReachableStart()
    ensures Reachable(INIT)
  {
    assert RunFrom(INIT, []) == Some(INIT);
  }

  lemma ReachableStep(s: State, l: Label, s': State)
    requires Reachable(s) && Apply(s, l) == Some(s')
    ensures Reachable(s')
  {
    var labels :| RunFrom(INIT, labels) == Some(s);
    RunAppend(INIT, labels, l);
  }

  lemma {:induction false} RunAppend(s: State, labels: seq<Label>, l: Label)
    requires RunFrom(s, labels).Some?
    ensures RunFrom(s, labels + [l]) == Apply(RunFrom(s, labels).value, l)
    decreases |labels|
  {
    if labels == [] {
      assert labels + [l] == [l] && [l][1..] == [];
      match Apply(s, l)
      case None =>
      case Some(next) => assert RunFrom(next, []) == Some(next);
    } else {
      RunAppend(Apply(s, labels[0]).value, labels[1..], l);
      assert (labels + [l])[1..] == labels[1..] + [l];
    }
  }
}
