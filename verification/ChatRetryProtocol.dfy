/** The chat session rows and the queue of jobs. Processing one delivery is one step, which may end in a
    crash; every method of the repository of sessions and of the queue is atomic, and a manual retry is
    one step for each of them. */
module ChatRetryProtocol {
  import opened Text
  import opened ChatRetryDecision
  import opened ChatRetryIds

  /** A UUID: it holds no colon. */
  type Sid = s: string | COLON !in s witness ""

  datatype Status = Starting | Running | Completed | Failed | Cancelled
  datatype Phase = StartingUp | Executing | RetryScheduled | Ended

  /** `retry_metadata`. */
  datatype Retry = Retry(attempt: nat, jobId: string, firstFailureAt: real)

  datatype Row = Row(status: Status, phase: Phase, retry: Option<Retry>)

  datatype Job = Job(id: string, sid: Sid, generation: Option<nat>)

  /** What the queue holds under an id: a job to be delivered, at once or after its delay, or one that
      has ended and is retained. */
  datatype Entry = Waiting(job: Job) | Finished(job: Job)

  type Queue = map<string, Entry>

  /** `add`: an id the queue holds already is not added again, whether its job waits or has ended. */
  function Add(queue: Queue, job: Job): Queue {
    if job.id in queue then queue else queue[job.id := Waiting(job)]
  }

  function Remove(queue: Queue, id: string, removed: bool): Queue {
    if removed then queue - {id} else queue
  }

  /** A job that has not ended is delivered again: after a crash, or after an error while it has
      attempts left. */
  function End(queue: Queue, id: string, ended: bool): Queue {
    if ended && id in queue then queue[id := Finished(queue[id].job)] else queue
  }

  predicate Waits(queue: Queue, id: string) {
    id in queue && queue[id].Waiting?
  }

  predicate HeldFinished(queue: Queue, id: string) {
    id in queue && queue[id].Finished?
  }

  /** How far a manual retry has come: it has read its row; it has written over a row; it has queued its
      job. What it wrote over is a history. */
  datatype Stage = Reading | Written(over: Row) | Queued

  datatype ManualRetry = ManualRetry(sid: Sid, row: Row, stage: Stage)

  /** A retry job that passed the check and was executed. A crash before the row is touched is not
      counted: the job may then be delivered again. */
  datatype Execution = Execution(sid: Sid, generation: Option<nat>, attempt: nat, jobId: string)

  /** A retry that was queued and recorded, with the time of the first failure. */
  datatype Scheduling = Scheduling(sid: Sid, attempt: nat, failure: Failure, at: real, since: real)

  /** The two logs, and the set of all jobs given to the queue, are histories. */
  datatype State = State(
    rows: map<Sid, Row>, queue: Queue, retries: map<nat, ManualRetry>,
    sent: set<Job>, executed: seq<Execution>, scheduled: seq<Scheduling>)

  /** How the execution of a delivered job ends. `ran` says whether the row had been set to running;
      `removed`, whether a job whose retry could not be recorded was withdrawn. */
  datatype Outcome =
    | Dispatched
    | Fails(failure: Failure, now: real, capacityFull: bool, enqueued: bool, persisted: bool, removed: bool)
    | Crashes(ran: bool)
    | CrashesAfterEnqueue(ran: bool, failure: Failure, now: real)

  datatype Step =
    | Create(sid: Sid)
    | Submit(job: Job)                     // a first job, or one for an invited participant
    | Process(job: Job, outcome: Outcome, ended: bool)
    | GiveUp(id: string)                   // the queue ends a job whose worker stalled too often
    | Evict(id: string)                    // the queue drops a job that has ended
    | ReadForRetry(op: nat, sid: Sid)
    | WriteForRetry(op: nat, sid: Sid)
    | AddForRetry(op: nat, sid: Sid, now: nat, at: nat, enqueued: bool)
    | RemoveForRetry(op: nat, sid: Sid, removed: bool)
    | KickOffSubagent(sid: Sid)            // unguarded
    | Cancel(sid: Sid)
    | Complete(sid: Sid)                   // the terminal router, unguarded
    | CompleteSubagent(sid: Sid)           // also forgets the retry metadata
    | MarkFailed(sid: Sid)                 // unguarded
    | FailIfNotTerminal(sid: Sid)

  function Attempts(row: Row): nat {
    if row.retry.Some? then row.retry.value.attempt else 0
  }

  function FirstFailureAt(row: Row): Option<real> {
    if row.retry.Some? then Some(row.retry.value.firstFailureAt) else None
  }

  /** `shouldSkipRetryJob`; jobs of other kinds are never skipped. */
  predicate ShouldSkip(rows: map<Sid, Row>, job: Job) {
    IsRetryId(job.id) && !(
      && job.sid in rows
      && rows[job.sid].status == Running
      && rows[job.sid].phase == RetryScheduled
      && rows[job.sid].retry.Some?
      && rows[job.sid].retry.value.jobId == job.id
      && AttemptOf(job.id) == Some(rows[job.sid].retry.value.attempt))
  }

  /** Status and phase change, the retry metadata stays. */
  function Moved(s: State, sid: Sid, status: Status, phase: Phase): State
    requires sid in s.rows
  {
    s.(rows := s.rows[sid := Row(status, phase, s.rows[sid].retry)])
  }

  function Sent(s: State, job: Job): State {
    s.(queue := Add(s.queue, job), sent := s.sent + {job})
  }

  predicate Crashed(outcome: Outcome) {
    outcome.Crashes? || outcome.CrashesAfterEnqueue?
  }

  predicate LeavesNoTrace(outcome: Outcome) {
    Crashed(outcome) && !outcome.ran
  }

  function Logged(s: State, job: Job, outcome: Outcome): State {
    if IsRetryId(job.id) && job.sid in s.rows && !LeavesNoTrace(outcome)
    then s.(executed := s.executed + [Execution(job.sid, job.generation, Attempts(s.rows[job.sid]), job.id)])
    else s
  }

  function RetryJob(s: State, job: Job): Job
    requires job.sid in s.rows
  {
    Job(RetryJobId(job.sid, job.generation, Attempts(s.rows[job.sid]) + 1), job.sid, job.generation)
  }

  /** The retry job is given to the queue and the row says that a retry is scheduled. */
  function Scheduled(s: State, job: Job, failure: Failure, now: real): State
    requires job.sid in s.rows
  {
    var row := s.rows[job.sid];
    var since := if FirstFailureAt(row).Some? then FirstFailureAt(row).value else now;
    Sent(s, RetryJob(s, job)).(
      rows := s.rows[job.sid := Row(Running, RetryScheduled, Some(Retry(Attempts(row) + 1, RetryJob(s, job).id, since)))],
      scheduled := s.scheduled + [Scheduling(job.sid, Attempts(row) + 1, failure, now, since)])
  }

  /** The retry that was not recorded: its job is withdrawn, unless that fails too. */
  function NotRecorded(s: State, job: Job, removed: bool): State
    requires job.sid in s.rows
  {
    var t := Sent(s, RetryJob(s, job));
    t.(queue := Remove(t.queue, RetryJob(s, job).id, removed))
  }

  predicate Retries(s: State, job: Job, failure: Failure, now: real, c: Config) {
    job.sid in s.rows && Decide(failure, Attempts(s.rows[job.sid]), FirstFailureAt(s.rows[job.sid]), now, c).Some?
  }

  function Executed(s: State, job: Job, outcome: Outcome, c: Config): State
    requires job.sid in s.rows
  {
    match outcome
    case Dispatched => Moved(s, job.sid, Running, Executing)
    case Crashes(ran) => if ran then Moved(s, job.sid, Running, Executing) else s
    case CrashesAfterEnqueue(ran, failure, now) =>
      var t := if ran then Moved(s, job.sid, Running, Executing) else s;
      if Retries(s, job, failure, now, c) then Sent(t, RetryJob(s, job)) else t
    case Fails(failure, now, capacityFull, enqueued, persisted, removed) =>
      if !Retries(s, job, failure, now, c) || capacityFull || !enqueued then Moved(s, job.sid, Failed, Ended)
      else if !persisted then Moved(NotRecorded(s, job, removed), job.sid, Failed, Ended)
      else Scheduled(s, job, failure, now)
  }

  predicate Delivers(s: State, step: Step) {
    step.Process? && step.job.id in s.queue && s.queue[step.job.id] == Waiting(step.job)
  }

  predicate Runs(s: State, step: Step) {
    Delivers(s, step) && !ShouldSkip(s.rows, step.job) && step.job.sid in s.rows
  }

  /** One delivery, from the check to the end of the job. */
  function Processed(s: State, step: Step, c: Config): State
    requires Delivers(s, step)
  {
    var t := if Runs(s, step) then Executed(Logged(s, step.job, step.outcome), step.job, step.outcome, c) else s;
    t.(queue := End(t.queue, step.job.id, step.ended && !(Runs(s, step) && Crashed(step.outcome))))
  }

  predicate MayRetryManually(row: Row) {
    row.status == Failed || (row.status == Running && row.phase == RetryScheduled)
  }

  /** The manual retry is that of the session, at its read or after its write. */
  predicate Reads(s: State, op: nat, sid: Sid) {
    op in s.retries && s.retries[op].sid == sid && s.retries[op].stage.Reading? && sid in s.rows
  }

  predicate Writes(s: State, op: nat, sid: Sid) {
    op in s.retries && s.retries[op].sid == sid && s.retries[op].stage.Written?
  }

  predicate Queues(s: State, op: nat, sid: Sid) {
    op in s.retries && s.retries[op].sid == sid && s.retries[op].stage.Queued?
  }

  predicate Terminal(status: Status) {
    status == Completed || status == Failed || status == Cancelled
  }

  function Next(s: State, step: Step, c: Config): State {
    match step
    case Create(sid) => if sid in s.rows then s else s.(rows := s.rows[sid := Row(Starting, StartingUp, None)])
    case Submit(job) => if IsRetryId(job.id) || job.generation.Some? then s else Sent(s, job)
    case Process(job, outcome, ended) => if Delivers(s, step) then Processed(s, step, c) else s
    case GiveUp(id) => s.(queue := End(s.queue, id, true))
    case Evict(id) => s.(queue := Remove(s.queue, id, HeldFinished(s.queue, id)))
    case ReadForRetry(op, sid) =>
      if op in s.retries || sid !in s.rows || !MayRetryManually(s.rows[sid]) then s
      else s.(retries := s.retries[op := ManualRetry(sid, s.rows[sid], Reading)])
    case WriteForRetry(op, sid) =>
      if !Reads(s, op, sid) then s
      else s.(rows := s.rows[sid := Row(Starting, StartingUp, None)],
              retries := s.retries[op := s.retries[op].(stage := Written(s.rows[sid]))])
    case AddForRetry(op, sid, now, at, enqueued) =>
      if !Writes(s, op, sid) then s
      else if enqueued then
        Sent(s, Job(ManualRetryJobId(sid, at), sid, Some(now))).(retries := s.retries[op := s.retries[op].(stage := Queued)])
      else s.(rows := s.rows[sid := s.retries[op].row], retries := s.retries - {op})
    case RemoveForRetry(op, sid, removed) =>
      if !Queues(s, op, sid) then s
      else
        var retry := s.retries[op].row.retry;
        s.(queue := if retry.Some? then Remove(s.queue, retry.value.jobId, removed) else s.queue, retries := s.retries - {op})
    case KickOffSubagent(sid) => if sid in s.rows then Moved(s, sid, Running, Executing) else s
    case Cancel(sid) => if sid in s.rows then Moved(s, sid, Cancelled, Ended) else s
    case Complete(sid) => if sid in s.rows then Moved(s, sid, Completed, Ended) else s
    case CompleteSubagent(sid) => if sid in s.rows then s.(rows := s.rows[sid := Row(Completed, Ended, None)]) else s
    case MarkFailed(sid) => if sid in s.rows then Moved(s, sid, Failed, Ended) else s
    case FailIfNotTerminal(sid) =>
      if sid in s.rows && !Terminal(s.rows[sid].status) then Moved(s, sid, Failed, Ended) else s
  }

  function Run(s: State, steps: seq<Step>, c: Config): State {
    if steps == [] then s else Next(Run(s, steps[..|steps| - 1], c), steps[|steps| - 1], c)
  }

  const EMPTY := State(map[], map[], map[], {}, [], [])

  // ----- what every step keeps -----

  /** A retry job's id names its session, its generation and a positive attempt. */
  predicate WellNamed(job: Job) {
    IsRetryId(job.id) ==>
      AttemptOf(job.id).Some? && job.id == RetryJobId(job.sid, job.generation, AttemptOf(job.id).value)
  }

  /** The retry a row records is named by the session and the attempt; a row that says a retry is
      scheduled is running and records one. */
  ghost predicate RowOk(sid: Sid, row: Row) {
    && (row.retry.Some? ==>
          && AttemptOf(row.retry.value.jobId) == Some(row.retry.value.attempt)
          && exists g: Option<nat> :: row.retry.value.jobId == RetryJobId(sid, g, row.retry.value.attempt))
    && (row.phase == RetryScheduled ==> row.status == Running && row.retry.Some?)
  }

  ghost predicate Consistent(s: State) {
    && (forall job | job in s.sent :: WellNamed(job))
    && (forall id | id in s.queue :: s.queue[id].job.id == id && s.queue[id].job in s.sent)
    && (forall sid | sid in s.rows :: RowOk(sid, s.rows[sid]))
    && (forall op | op in s.retries :: RowOk(s.retries[op].sid, s.retries[op].row))
  }

  lemma {:induction false} RetryJobIsWellNamed(s: State, job: Job)
    requires job.sid in s.rows
    ensures WellNamed(RetryJob(s, job)) && IsRetryId(RetryJob(s, job).id)
    ensures AttemptOf(RetryJob(s, job).id) == Some(Attempts(s.rows[job.sid]) + 1)
  {
    RetryIdsAreRetryIds(job.sid, job.generation, Attempts(s.rows[job.sid]) + 1);
    AttemptReads(job.sid, job.generation, Attempts(s.rows[job.sid]) + 1);
  }

  /** Rows whose retry metadata were there before. */
  lemma {:induction false} MovedKeepsConsistent(s: State, sid: Sid, status: Status, phase: Phase)
    requires Consistent(s) && sid in s.rows && phase != RetryScheduled
    ensures Consistent(Moved(s, sid, status, phase))
  {
    assert RowOk(sid, s.rows[sid]);
  }

  lemma {:induction false} SentKeepsConsistent(s: State, job: Job)
    requires Consistent(s) && WellNamed(job)
    ensures Consistent(Sent(s, job))
  {
  }

  lemma {:induction false} RemoveKeepsConsistent(s: State, id: string, removed: bool)
    requires Consistent(s)
    ensures Consistent(s.(queue := Remove(s.queue, id, removed)))
  {
  }

  lemma {:induction false} EndKeepsConsistent(s: State, id: string, ended: bool)
    requires Consistent(s)
    ensures Consistent(s.(queue := End(s.queue, id, ended)))
  {
  }

  lemma {:induction false} ScheduledKeepsConsistent(s: State, job: Job, failure: Failure, now: real)
    requires Consistent(s) && job.sid in s.rows
    ensures Consistent(Scheduled(s, job, failure, now))
  {
    RetryJobIsWellNamed(s, job);
    SentKeepsConsistent(s, RetryJob(s, job));
    var t := Scheduled(s, job, failure, now);
    assert t.rows[job.sid].retry.value.jobId == RetryJobId(job.sid, job.generation, t.rows[job.sid].retry.value.attempt);
    forall sid | sid in t.rows ensures RowOk(sid, t.rows[sid]) {
      assert sid != job.sid ==> RowOk(sid, s.rows[sid]);
    }
  }

  lemma {:induction false} ExecutedKeepsConsistent(s: State, job: Job, outcome: Outcome, c: Config)
    requires Consistent(s) && job.sid in s.rows
    ensures Consistent(Executed(s, job, outcome, c))
  {
    RetryJobIsWellNamed(s, job);
    SentKeepsConsistent(s, RetryJob(s, job));
    MovedKeepsConsistent(s, job.sid, Running, Executing);
    match outcome {
      case Fails(failure, now, capacityFull, enqueued, persisted, removed) =>
        ScheduledKeepsConsistent(s, job, failure, now);
        MovedKeepsConsistent(s, job.sid, Failed, Ended);
        RemoveKeepsConsistent(Sent(s, RetryJob(s, job)), RetryJob(s, job).id, removed);
        MovedKeepsConsistent(NotRecorded(s, job, removed), job.sid, Failed, Ended);
      case CrashesAfterEnqueue(ran, failure, now) =>
        SentKeepsConsistent(Moved(s, job.sid, Running, Executing), RetryJob(s, job));
      case _ =>
    }
  }

  lemma {:induction false} ProcessedKeepsConsistent(s: State, step: Step, c: Config)
    requires Consistent(s) && Delivers(s, step)
    ensures Consistent(Processed(s, step, c))
  {
    var t := if Runs(s, step) then Executed(Logged(s, step.job, step.outcome), step.job, step.outcome, c) else s;
    if Runs(s, step) {
      ExecutedKeepsConsistent(Logged(s, step.job, step.outcome), step.job, step.outcome, c);
    }
    EndKeepsConsistent(t, step.job.id, step.ended && !(Runs(s, step) && Crashed(step.outcome)));
  }

  lemma {:induction false} RetryStepKeepsConsistent(s: State, step: Step, c: Config)
    requires Consistent(s)
    requires step.ReadForRetry? || step.WriteForRetry? || step.AddForRetry? || step.RemoveForRetry?
    ensures Consistent(Next(s, step, c))
  {
    match step {
      case AddForRetry(op, sid, now, at, enqueued) =>
        ManualIdsAreNot(sid, at);
        SentKeepsConsistent(s, Job(ManualRetryJobId(sid, at), sid, Some(now)));
      case _ =>
    }
  }

  lemma {:induction false} MoveStepMoves(s: State, step: Step, c: Config) returns (status: Status, phase: Phase)
    requires step.KickOffSubagent? || step.Cancel? || step.Complete? || step.MarkFailed? || step.FailIfNotTerminal?
    requires step.sid in s.rows
    ensures phase != RetryScheduled && (Next(s, step, c) == s || Next(s, step, c) == Moved(s, step.sid, status, phase))
  {
    match step
    case KickOffSubagent(_) => status, phase := Running, Executing;
    case Cancel(_) => status, phase := Cancelled, Ended;
    case Complete(_) => status, phase := Completed, Ended;
    case _ => status, phase := Failed, Ended;
  }

  lemma {:induction false} MoveStepKeepsConsistent(s: State, step: Step, c: Config)
    requires Consistent(s)
    requires step.KickOffSubagent? || step.Cancel? || step.Complete? || step.MarkFailed? || step.FailIfNotTerminal?
    ensures Consistent(Next(s, step, c))
  {
    if step.sid in s.rows {
      var status, phase := MoveStepMoves(s, step, c);
      MovedKeepsConsistent(s, step.sid, status, phase);
    }
  }

  lemma {:induction false} QueueStepKeepsConsistent(s: State, step: Step, c: Config)
    requires Consistent(s) && (step.Submit? || step.Process? || step.GiveUp? || step.Evict?)
    ensures Consistent(Next(s, step, c))
  {
    match step {
      case Submit(job) => if !IsRetryId(job.id) { SentKeepsConsistent(s, job); }
      case GiveUp(id) => EndKeepsConsistent(s, id, true);
      case Evict(id) => RemoveKeepsConsistent(s, id, HeldFinished(s.queue, id));
      case _ =>
        if Delivers(s, step) {
          ProcessedKeepsConsistent(s, step, c);
        }
    }
  }

  lemma {:induction false} NextKeepsConsistent(s: State, step: Step, c: Config)
    requires Consistent(s)
    ensures Consistent(Next(s, step, c))
  {
    if step.Submit? || step.Process? || step.GiveUp? || step.Evict? {
      QueueStepKeepsConsistent(s, step, c);
    } else if step.ReadForRetry? || step.WriteForRetry? || step.AddForRetry? || step.RemoveForRetry? {
      RetryStepKeepsConsistent(s, step, c);
    } else if !step.Create? && !step.CompleteSubagent? {
      MoveStepKeepsConsistent(s, step, c);
    }
  }

  lemma {:induction false} ReachableIsConsistent(steps: seq<Step>, c: Config)
    ensures Consistent(Run(EMPTY, steps, c))
    decreases |steps|
  {
    if steps != [] {
      ReachableIsConsistent(steps[..|steps| - 1], c);
      NextKeepsConsistent(Run(EMPTY, steps[..|steps| - 1], c), steps[|steps| - 1], c);
    }
  }

  // ----- what a step logs -----

  lemma {:induction false} ExecutedLogs(s: State, job: Job, outcome: Outcome, c: Config)
    requires job.sid in s.rows
    ensures Executed(s, job, outcome, c).executed == s.executed
  {
  }

  /** A step logs the attempt of the retry job it executes, and nothing else. */
  lemma {:induction false} StepLogs(s: State, step: Step, c: Config)
    ensures Next(s, step, c).executed
         == if Runs(s, step) then Logged(s, step.job, step.outcome).executed else s.executed
  {
    if Runs(s, step) {
      ExecutedLogs(Logged(s, step.job, step.outcome), step.job, step.outcome, c);
    }
  }

  /** The state in which a job is executed differs from the one before in a log only. */
  lemma {:induction false} LoggedSame(s: State, job: Job, outcome: Outcome)
    ensures var l := Logged(s, job, outcome);
            l.rows == s.rows && l.queue == s.queue && l.sent == s.sent && l.retries == s.retries && l.scheduled == s.scheduled
  {
  }
}
