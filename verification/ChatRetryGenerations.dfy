/** What the generation in a retry job's id is for: no id is executed twice across manual retries, unless
    a first or manual job of an earlier generation is processed after the attempts were forgotten. */
module ChatRetryGenerations {
  import opened Text
  import opened ChatRetryDecision
  import opened ChatRetryIds
  import opened ChatRetryProtocol
  import opened ChatRetryQueue

  /** The generation whose attempts a session's row counts: none of first jobs, then the one of the last
      manual retry; between the writes of a manual retry the one before is replaced. `Forgotten` once a
      subagent's completion has dropped the count. */
  datatype Current = Current(generation: Option<nat>) | Forgotten | Replacing(before: Current)

  function CurrentAfterStep(s: State, current: Current, step: Step, sid: Sid): Current {
    match step
    case WriteForRetry(op, x) => if x == sid && Reads(s, op, sid) then Replacing(current) else current
    case AddForRetry(op, x, now, _, enqueued) =>
      if x != sid || !Writes(s, op, sid) then current
      else if enqueued then Current(Some(now))
      else if current.Replacing? then current.before
      else Forgotten
    case CompleteSubagent(x) => if x == sid && sid in s.rows && !current.Replacing? then Forgotten else current
    case _ => current
  }

  function CurrentAfter(steps: seq<Step>, sid: Sid, c: Config): Current {
    if steps == [] then Current(None)
    else
      var before := steps[..|steps| - 1];
      CurrentAfterStep(Run(EMPTY, before, c), CurrentAfter(before, sid, c), steps[|steps| - 1], sid)
  }

  /** A first or manual job is processed whose generation the row does not count. */
  predicate Stale(current: Current, step: Step, sid: Sid) {
    step.Process? && step.job.sid == sid && !IsRetryId(step.job.id) && current != Current(step.job.generation)
  }

  predicate NeverStale(steps: seq<Step>, sid: Sid, c: Config) {
    steps == [] ||
    var before := steps[..|steps| - 1];
    NeverStale(before, sid, c) && !Stale(CurrentAfter(before, sid, c), steps[|steps| - 1], sid)
  }

  /** A manual retry writes while no other one of the session stands between its write and its job, and
      puts back only a row it had read just before its write. */
  predicate Tidy(s: State, step: Step, sid: Sid) {
    match step
    case WriteForRetry(op, x) => x == sid && Reads(s, op, sid) ==> forall other | other in s.retries :: !Writes(s, other, sid)
    case AddForRetry(op, x, _, _, enqueued) =>
      x == sid && Writes(s, op, sid) && !enqueued ==> s.retries[op].row == s.retries[op].stage.over
    case _ => true
  }

  predicate AlwaysTidy(steps: seq<Step>, sid: Sid, c: Config) {
    steps == [] ||
    var before := steps[..|steps| - 1];
    AlwaysTidy(before, sid, c) && Tidy(Run(EMPTY, before, c), steps[|steps| - 1], sid)
  }

  predicate RetriedAt(steps: seq<Step>, sid: Sid, t: nat) {
    exists i | 0 <= i < |steps| :: steps[i].AddForRetry? && steps[i].sid == sid && steps[i].now == t
  }

  /** Manual retries of the session are made at different times. */
  predicate DistinctTimes(steps: seq<Step>, sid: Sid) {
    forall i, j | 0 <= i < j < |steps| && steps[i].AddForRetry? && steps[j].AddForRetry?
                  && steps[i].sid == sid == steps[j].sid :: steps[i].now != steps[j].now
  }

  // ----- every executed retry is named by its generation and attempt -----

  predicate Named(e: Execution) {
    e.jobId == RetryJobId(e.sid, e.generation, e.attempt)
  }

  predicate AllNamed(log: seq<Execution>) {
    forall i | 0 <= i < |log| :: Named(log[i])
  }

  /** A job that is new is a first job, a manual retry's, or of the generation of the job executed. */
  lemma {:induction false} StepSends(s: State, step: Step, c: Config, job: Job)
    requires job in Next(s, step, c).sent && job !in s.sent
    ensures job.generation.None? || (step.AddForRetry? && step.sid == job.sid && Some(step.now) == job.generation)
         || (Runs(s, step) && step.job.sid == job.sid && step.job.generation == job.generation)
  {
    if Runs(s, step) {
      ExecutedSends(Logged(s, step.job, step.outcome), step.job, step.outcome, c);
    }
  }

  lemma {:induction false} ExecutedSends(s: State, job: Job, outcome: Outcome, c: Config)
    requires job.sid in s.rows
    ensures s.sent <= Executed(s, job, outcome, c).sent <= s.sent + {RetryJob(s, job)}
  {
  }

  lemma {:induction false} StepNames(s: State, step: Step, c: Config)
    requires Consistent(s) && AllNamed(s.executed)
    ensures AllNamed(Next(s, step, c).executed)
  {
    StepLogs(s, step, c);
    if Runs(s, step) {
      assert WellNamed(step.job);
    }
  }

  lemma {:induction false} ReachableIsNamed(steps: seq<Step>, c: Config)
    ensures AllNamed(Run(EMPTY, steps, c).executed)
    decreases |steps|
  {
    if steps != [] {
      var before := steps[..|steps| - 1];
      ReachableIsNamed(before, c);
      ReachableIsConsistent(before, c);
      StepNames(Run(EMPTY, before, c), steps[|steps| - 1], c);
    }
  }

  // ----- what is kept while no stale job is processed -----

  /** Generations come from manual retries. */
  predicate Dated(s: State, steps: seq<Step>, sid: Sid) {
    && (forall job | job in s.sent && job.sid == sid && job.generation.Some? :: RetriedAt(steps, sid, job.generation.value))
    && (forall i | 0 <= i < |s.executed| && s.executed[i].sid == sid && s.executed[i].generation.Some? ::
          RetriedAt(steps, sid, s.executed[i].generation.value))
  }

  /** The row counts attempts of the current generation. */
  predicate Counts(row: Row, sid: Sid, current: Current) {
    row.retry.Some? ==>
      current.Current? && row.retry.value.jobId == RetryJobId(sid, current.generation, row.retry.value.attempt)
  }

  /** Attempts of the current generation that were executed are counted and not to come again. */
  predicate Behind(row: Row, e: Execution, current: Current) {
    current == Current(e.generation) ==>
      && row.retry.Some? && e.attempt <= row.retry.value.attempt
      && (row.phase == RetryScheduled ==> e.attempt < row.retry.value.attempt)
  }

  predicate Once(log: seq<Execution>, sid: Sid) {
    forall i, j | 0 <= i < j < |log| && log[i].sid == sid == log[j].sid ::
      log[i].generation != log[j].generation || log[i].attempt != log[j].attempt
  }

  predicate Accounts(row: Row, log: seq<Execution>, current: Current, sid: Sid) {
    && Counts(row, sid, current)
    && (forall i | 0 <= i < |log| && log[i].sid == sid :: Behind(row, log[i], current))
  }

  /** The row accounts for what was executed; so does a row that a manual retry has written over, for the
      generation that is being replaced. */
  predicate Kept(s: State, current: Current, sid: Sid) {
    && Once(s.executed, sid)
    && (sid in s.rows ==> Accounts(s.rows[sid], s.executed, current, sid))
    && (sid !in s.rows ==> forall i | 0 <= i < |s.executed| :: s.executed[i].sid != sid)
    && (forall op | op in s.retries && Writes(s, op, sid) ::
          && current.Replacing? && Accounts(s.retries[op].stage.over, s.executed, current.before, sid)
          && forall other | other in s.retries && Writes(s, other, sid) :: other == op)
  }

  lemma {:induction false} RetriedBefore(steps: seq<Step>, step: Step, sid: Sid, t: nat)
    ensures RetriedAt(steps, sid, t) ==> RetriedAt(steps + [step], sid, t)
    ensures step.AddForRetry? && step.sid == sid && step.now == t ==> RetriedAt(steps + [step], sid, t)
  {
    assert (steps + [step])[|steps|] == step;
    if RetriedAt(steps, sid, t) {
      var i :| 0 <= i < |steps| && steps[i].AddForRetry? && steps[i].sid == sid && steps[i].now == t;
      assert (steps + [step])[i] == steps[i];
    }
  }

  lemma {:induction false} StepIsDated(s: State, steps: seq<Step>, step: Step, sid: Sid, c: Config)
    requires Consistent(s) && Dated(s, steps, sid)
    ensures Dated(Next(s, step, c), steps + [step], sid)
  {
    var t := Next(s, step, c);
    forall job | job in t.sent && job.sid == sid && job.generation.Some?
      ensures RetriedAt(steps + [step], sid, job.generation.value)
    {
      RetriedBefore(steps, step, sid, job.generation.value);
      if job !in s.sent {
        StepSends(s, step, c, job);
      }
    }
    StepLogs(s, step, c);
    forall i | 0 <= i < |t.executed| && t.executed[i].sid == sid && t.executed[i].generation.Some?
      ensures RetriedAt(steps + [step], sid, t.executed[i].generation.value)
    {
      RetriedBefore(steps, step, sid, t.executed[i].generation.value);
    }
  }

  /** A job that is executed belongs to the current generation. */
  lemma {:induction false} JobIsCurrent(s: State, current: Current, step: Step, sid: Sid)
    requires Consistent(s) && Kept(s, current, sid) && !Stale(current, step, sid)
    requires Runs(s, step) && step.job.sid == sid
    ensures current == Current(step.job.generation)
    ensures IsRetryId(step.job.id) ==> s.rows[sid].phase == RetryScheduled && s.rows[sid].retry.Some?
  {
    var job := step.job;
    if IsRetryId(job.id) {
      assert WellNamed(job);
      IdsNameJobs(sid, job.generation, AttemptOf(job.id).value, current.generation, s.rows[sid].retry.value.attempt);
    }
  }

  /** Executing the pending attempt logs it once more than never. */
  lemma {:induction false} LoggedIsKept(s: State, current: Current, job: Job, outcome: Outcome, sid: Sid)
    requires Kept(s, current, sid) && job.sid == sid && sid in s.rows && current == Current(job.generation)
    requires IsRetryId(job.id) ==> s.rows[sid].phase == RetryScheduled && s.rows[sid].retry.Some?
    ensures var l := Logged(s, job, outcome);
            && Once(l.executed, sid)
            && (forall i | 0 <= i < |l.executed| && l.executed[i].sid == sid && current == Current(l.executed[i].generation) ::
                  s.rows[sid].retry.Some? && l.executed[i].attempt <= s.rows[sid].retry.value.attempt)
            && (LeavesNoTrace(outcome) ==> l == s)
  {
  }

  /** An execution leaves the attempt and its name, or counts one attempt more. */
  lemma {:induction false} ExecutedRow(s: State, job: Job, outcome: Outcome, c: Config)
    requires job.sid in s.rows
    ensures var t := Executed(s, job, outcome, c);
            job.sid in t.rows && t.executed == s.executed && t.retries == s.retries
            && var r := t.rows[job.sid];
              || (r.retry == s.rows[job.sid].retry && (r.phase != RetryScheduled || (LeavesNoTrace(outcome) && r == s.rows[job.sid])))
              || (r.retry.Some? && r.retry.value.jobId == RetryJob(s, job).id && r.retry.value.attempt == Attempts(s.rows[job.sid]) + 1)
  {
  }

  lemma {:induction false} ExecutedIsKept(s: State, current: Current, step: Step, sid: Sid, c: Config)
    requires Kept(s, current, sid) && Runs(s, step) && step.job.sid == sid && current == Current(step.job.generation)
    requires IsRetryId(step.job.id) ==> s.rows[sid].phase == RetryScheduled && s.rows[sid].retry.Some?
    ensures Kept(Next(s, step, c), current, sid)
  {
    LoggedIsKept(s, current, step.job, step.outcome, sid);
    LoggedSame(s, step.job, step.outcome);
    ExecutedRow(Logged(s, step.job, step.outcome), step.job, step.outcome, c);
  }

  lemma {:induction false} ExecutedRetries(s: State, step: Step, c: Config)
    requires Delivers(s, step)
    ensures Next(s, step, c).retries == s.retries
  {
    if Runs(s, step) {
      LoggedSame(s, step.job, step.outcome);
      ExecutedRow(Logged(s, step.job, step.outcome), step.job, step.outcome, c);
    }
  }

  /** A delivery that executes nothing of the session. */
  lemma {:induction false} OtherIsKept(s: State, current: Current, step: Step, sid: Sid, c: Config)
    requires Kept(s, current, sid) && Delivers(s, step) && (step.job.sid != sid || !Runs(s, step))
    ensures Kept(Next(s, step, c), current, sid)
  {
    StepLogs(s, step, c);
    ExecutedRetries(s, step, c);
    if step.job.sid != sid {
      ProcessedOthers(s, step, c, sid);
    }
  }

  lemma {:induction false} ProcessIsKept(s: State, current: Current, step: Step, sid: Sid, c: Config)
    requires Consistent(s) && Kept(s, current, sid) && !Stale(current, step, sid) && step.Process?
    ensures Kept(Next(s, step, c), current, sid)
  {
    if Runs(s, step) && step.job.sid == sid {
      JobIsCurrent(s, current, step, sid);
      ExecutedIsKept(s, current, step, sid, c);
    } else if Delivers(s, step) {
      OtherIsKept(s, current, step, sid, c);
    }
  }

  lemma {:induction false} WriteIsKept(s: State, current: Current, op: nat, sid: Sid, c: Config)
    requires Kept(s, current, sid) && Reads(s, op, sid) && Tidy(s, WriteForRetry(op, sid), sid)
    ensures Kept(Next(s, WriteForRetry(op, sid), c), Replacing(current), sid)
  {
  }

  lemma {:induction false} AddIsKept(s: State, current: Current, steps: seq<Step>, step: Step, sid: Sid, c: Config)
    requires Kept(s, current, sid) && Dated(s, steps, sid) && Tidy(s, step, sid)
    requires step.AddForRetry? && step.sid == sid && Writes(s, step.op, sid) && !RetriedAt(steps, sid, step.now)
    ensures Kept(Next(s, step, c), CurrentAfterStep(s, current, step, sid), sid)
  {
  }

  /** Of another session, or a read or a removal. */
  lemma {:induction false} RetryStepIsKept(s: State, current: Current, step: Step, sid: Sid, c: Config)
    requires Kept(s, current, sid)
    requires step.ReadForRetry? || step.RemoveForRetry?
             || (step.WriteForRetry? && !(step.sid == sid && Reads(s, step.op, sid)))
             || (step.AddForRetry? && !(step.sid == sid && Writes(s, step.op, sid)))
    ensures Kept(Next(s, step, c), current, sid)
  {
  }

  /** Any other step keeps the retry metadata of a row or drops them, and schedules nothing. */
  lemma {:induction false} OtherStepFrame(s: State, step: Step, sid: Sid, c: Config)
    requires !step.Process?
    requires !step.ReadForRetry? && !step.WriteForRetry? && !step.AddForRetry? && !step.RemoveForRetry?
    ensures var t := Next(s, step, c);
            && t.executed == s.executed && t.retries == s.retries && (sid in s.rows ==> sid in t.rows)
            && (sid in s.rows ==> t.rows[sid] == s.rows[sid] || t.rows[sid].phase != RetryScheduled)
            && (sid in t.rows ==>
                  t.rows[sid].retry == if sid !in s.rows || (step.CompleteSubagent? && step.sid == sid) then None else s.rows[sid].retry)
  {
  }

  lemma {:induction false} OtherStepIsKept(s: State, current: Current, step: Step, sid: Sid, c: Config)
    requires Kept(s, current, sid) && !step.Process?
    requires !step.ReadForRetry? && !step.WriteForRetry? && !step.AddForRetry? && !step.RemoveForRetry?
    ensures Kept(Next(s, step, c), CurrentAfterStep(s, current, step, sid), sid)
  {
    OtherStepFrame(s, step, sid, c);
  }

  lemma {:induction false} NeverStaleIsKept(steps: seq<Step>, sid: Sid, c: Config)
    requires DistinctTimes(steps, sid) && NeverStale(steps, sid, c) && AlwaysTidy(steps, sid, c)
    ensures Dated(Run(EMPTY, steps, c), steps, sid)
    ensures Kept(Run(EMPTY, steps, c), CurrentAfter(steps, sid, c), sid)
    decreases |steps|
  {
    if steps != [] {
      var before, step := steps[..|steps| - 1], steps[|steps| - 1];
      var s, current := Run(EMPTY, before, c), CurrentAfter(before, sid, c);
      NeverStaleIsKept(before, sid, c);
      ReachableIsConsistent(before, c);
      assert steps == before + [step];
      StepIsDated(s, before, step, sid, c);
      StepIsKept(s, current, before, step, sid, c);
    }
  }

  lemma {:induction false} StepIsKept(s: State, current: Current, steps: seq<Step>, step: Step, sid: Sid, c: Config)
    requires Consistent(s) && Kept(s, current, sid) && Dated(s, steps, sid) && Tidy(s, step, sid) && !Stale(current, step, sid)
    requires step.AddForRetry? && step.sid == sid ==> !RetriedAt(steps, sid, step.now)
    ensures Kept(Next(s, step, c), CurrentAfterStep(s, current, step, sid), sid)
  {
    if step.Process? {
      ProcessIsKept(s, current, step, sid, c);
    } else if step.WriteForRetry? && step.sid == sid && Reads(s, step.op, sid) {
      WriteIsKept(s, current, step.op, sid, c);
    } else if step.AddForRetry? && step.sid == sid && Writes(s, step.op, sid) {
      AddIsKept(s, current, steps, step, sid, c);
    } else if step.ReadForRetry? || step.WriteForRetry? || step.AddForRetry? || step.RemoveForRetry? {
      RetryStepIsKept(s, current, step, sid, c);
    } else {
      OtherStepIsKept(s, current, step, sid, c);
    }
  }

  /** Over every run with tidy manual retries at different times, no retry id of a session is executed twice
      as long as no first or manual job of a generation the row no longer counts is processed. */
  lemma {:induction false} RetryIdsExecutedOnce(steps: seq<Step>, sid: Sid, c: Config, i: nat, j: nat)
    requires DistinctTimes(steps, sid) && NeverStale(steps, sid, c) && AlwaysTidy(steps, sid, c)
    requires i < j < |Run(EMPTY, steps, c).executed|
    requires Run(EMPTY, steps, c).executed[i].sid == sid == Run(EMPTY, steps, c).executed[j].sid
    ensures Run(EMPTY, steps, c).executed[i].jobId != Run(EMPTY, steps, c).executed[j].jobId
  {
    NeverStaleIsKept(steps, sid, c);
    ReachableIsNamed(steps, c);
    var x, y := Run(EMPTY, steps, c).executed[i], Run(EMPTY, steps, c).executed[j];
    assert Named(x) && Named(y);
    if x.jobId == y.jobId {
      IdsNameJobs(sid, x.generation, x.attempt, y.generation, y.attempt);
    }
  }

  // ----- where that stops -----

  predicate ExecutedBefore(s: State, sid: Sid, id: string) {
    exists i | 0 <= i < |s.executed| :: s.executed[i].sid == sid && s.executed[i].jobId == id
  }

  predicate AttemptExecutedBefore(s: State, sid: Sid, generation: Option<nat>, attempt: nat) {
    exists i | 0 <= i < |s.executed| ::
      s.executed[i].sid == sid && s.executed[i].generation == generation && s.executed[i].attempt == attempt
  }

  lemma {:induction false} BeforeByName(s: State, sid: Sid, generation: Option<nat>, attempt: nat)
    requires AllNamed(s.executed)
    ensures ExecutedBefore(s, sid, RetryJobId(sid, generation, attempt)) <==> AttemptExecutedBefore(s, sid, generation, attempt)
  {
    forall i | 0 <= i < |s.executed| && s.executed[i].sid == sid
      ensures s.executed[i].jobId == RetryJobId(sid, generation, attempt)
         <==> s.executed[i].generation == generation && s.executed[i].attempt == attempt
    {
      var e := s.executed[i];
      assert Named(e);
      if e.jobId == RetryJobId(sid, generation, attempt) {
        IdsNameJobs(sid, e.generation, e.attempt, generation, attempt);
      }
    }
  }

  function Failing(job: Job, failure: Failure, now: real, ended: bool): Step {
    Process(job, Fails(failure, now, false, true, true, false), ended)
  }

  /** A first or manual job that fails and is retried makes the next attempt of its generation be executed,
      unless the queue holds its id as finished; it is an id executed before exactly when that attempt of
      the generation was, whatever generation the row counts. */
  lemma {:induction false} StaleFailureRepeats(steps: seq<Step>, c: Config, job: Job, failure: Failure, now: real, ended: bool)
    requires var s := Run(EMPTY, steps, c);
             Runs(s, Failing(job, failure, now, ended)) && !IsRetryId(job.id) && Retries(s, job, failure, now, c)
    ensures var s := Run(EMPTY, steps, c);
            var retry, n := RetryJob(s, job), Attempts(s.rows[job.sid]) + 1;
            var u := Next(Next(s, Failing(job, failure, now, ended), c), Process(retry, Dispatched, true), c);
            && u.executed == s.executed
               + (if HeldFinished(s.queue, retry.id) then [] else [Execution(job.sid, job.generation, n, retry.id)])
            && (ExecutedBefore(s, job.sid, retry.id) <==> AttemptExecutedBefore(s, job.sid, job.generation, n))
  {
    var s := Run(EMPTY, steps, c);
    var step := Failing(job, failure, now, ended);
    var t := Next(s, step, c);
    ReachableIsNamed(steps, c);
    BeforeByName(s, job.sid, job.generation, Attempts(s.rows[job.sid]) + 1);
    RecordingIsLive(steps, step, c);
    LogsNothing(s, step, c);
    RetryRuns(s, step, c);
  }

  lemma {:induction false} LogsNothing(s: State, step: Step, c: Config)
    requires Runs(s, step) && !IsRetryId(step.job.id)
    ensures Next(s, step, c).executed == s.executed
  {
    StepLogs(s, step, c);
  }

  lemma {:induction false} RetryRuns(s: State, step: Step, c: Config)
    requires Records(s, step, c)
    ensures var t, retry := Next(s, step, c), RetryJob(s, step.job);
            Next(t, Process(retry, Dispatched, true), c).executed
            == t.executed + if Live(t, retry) then [Execution(retry.sid, retry.generation, Attempts(s.rows[step.job.sid]) + 1, retry.id)] else []
  {
    var t, retry := Next(s, step, c), RetryJob(s, step.job);
    RecordsStep(s, step, c);
    RetryJobIsWellNamed(s, step.job);
    StepLogs(t, Process(retry, Dispatched, true), c);
  }

  /** The first job waits with no attempt recorded; its retry, if the queue holds it, waits too. */
  predicate BeforeAttempt(s: State, sid: Sid) {
    && sid in s.rows && s.rows[sid].retry == None
    && sid in s.queue && s.queue[sid] == Waiting(FirstJob(sid))
    && (FirstRetry(sid).id in s.queue ==> s.queue[FirstRetry(sid).id] == Waiting(FirstRetry(sid)))
  }

  predicate FirstRetryPending(s: State, sid: Sid) {
    && sid in s.rows && s.rows[sid] == Row(Running, RetryScheduled, Some(Retry(1, FirstRetry(sid).id, 0.0)))
    && sid in s.queue && s.queue[sid] == Waiting(FirstJob(sid))
    && FirstRetry(sid).id in s.queue && s.queue[FirstRetry(sid).id] == Waiting(FirstRetry(sid))
  }

  lemma {:induction false} FirstJobFails(s: State, sid: Sid, c: Config)
    requires BeforeAttempt(s, sid) && c.enabled && c.maxAttempts >= 1
    ensures FirstRetryPending(Next(s, FirstFails(sid, false), c), sid)
    ensures var t := Next(s, FirstFails(sid, false), c); t.executed == s.executed && t.retries == s.retries
  {
    PlainIdsAreNot(sid);
    assert RetryJob(s, FirstJob(sid)) == FirstRetry(sid);
    assert Records(s, FirstFails(sid, false), c);
    RecordsStep(s, FirstFails(sid, false), c);
    LogsNothing(s, FirstFails(sid, false), c);
    ExecutedRetries(s, FirstFails(sid, false), c);
  }

  /** The retry fails for good; the queue has attempts left for its job and keeps it waiting. */
  function RetryFails(sid: Sid): Step {
    Process(FirstRetry(sid), Fails(Generic, 1.0, false, true, true, false), false)
  }

  lemma {:induction false} FirstRetryRuns(s: State, sid: Sid, step: Step, c: Config)
    requires FirstRetryPending(s, sid) && (step == RetryFails(sid) || step == Process(FirstRetry(sid), Dispatched, true))
    ensures Next(s, step, c).executed == s.executed + [Execution(sid, None, 1, FirstRetry(sid).id)]
  {
    RetryIdsAreRetryIds(sid, None, 1);
    AttemptReads(sid, None, 1);
    StepLogs(s, step, c);
  }

  lemma {:induction false} FirstRetryFails(s: State, sid: Sid, c: Config)
    requires FirstRetryPending(s, sid)
    ensures var t := Next(s, RetryFails(sid), c);
            && sid in t.rows && t.rows[sid].status == Failed && t.queue == s.queue && t.retries == s.retries
  {
    RetryIdsAreRetryIds(sid, None, 1);
    AttemptReads(sid, None, 1);
    assert Runs(s, RetryFails(sid)) && !Retries(s, FirstRetry(sid), Generic, 1.0, c);
  }

  function RetriesManually(sid: Sid): seq<Step> {
    [ReadForRetry(0, sid), WriteForRetry(0, sid), AddForRetry(0, sid, 2, 2, true)]
  }

  lemma {:induction false} ManualRetryForgets(s: State, sid: Sid, c: Config)
    requires sid in s.rows && s.rows[sid].status == Failed && 0 !in s.retries
    requires sid in s.queue && s.queue[sid] == Waiting(FirstJob(sid))
    requires FirstRetry(sid).id in s.queue && s.queue[FirstRetry(sid).id] == Waiting(FirstRetry(sid))
    ensures var t := Run(s, RetriesManually(sid), c);
            BeforeAttempt(t, sid) && t.executed == s.executed
  {
    var x := RetriesManually(sid);
    RunThree(s, x[0], x[1], x[2], c);
    var r := Next(s, x[0], c);
    assert r == s.(retries := s.retries[0 := ManualRetry(sid, s.rows[sid], Reading)]);
    var w := Next(r, x[1], c);
    assert w.rows[sid] == Row(Starting, StartingUp, None) && Writes(w, 0, sid) && w.queue == s.queue;
  }

  /** A retry fails for good and a user retries the session by hand; when the first job is delivered once more
      it fails and schedules a retry under the id that was executed before, which the queue still has
      waiting: it is executed a second time. */
  lemma {:induction false} RetryExecutedTwice(sid: Sid, c: Config) returns (steps: seq<Step>)
    requires c.enabled && c.maxAttempts >= 1
    ensures var log := Run(EMPTY, steps, c).executed;
            |log| == 2 && log[0] == log[1] && log[0].sid == sid
  {
    var fails, dispatched := FirstFails(sid, false), Process(FirstRetry(sid), Dispatched, true);
    var s := Run(EMPTY, Start(sid), c);
    StartStarts(sid, c);
    FirstJobFails(s, sid, c);
    var t := Next(s, fails, c);
    FirstRetryRuns(t, sid, RetryFails(sid), c);
    FirstRetryFails(t, sid, c);
    var u := Next(t, RetryFails(sid), c);
    ManualRetryForgets(u, sid, c);
    var v := Run(u, RetriesManually(sid), c);
    FirstJobFails(v, sid, c);
    FirstRetryRuns(Next(v, fails, c), sid, dispatched, c);
    RunTwo(s, fails, RetryFails(sid), c);
    RunTwo(v, fails, dispatched, c);
    RunOn(EMPTY, Start(sid), [fails, RetryFails(sid)], c);
    RunOn(EMPTY, Start(sid) + [fails, RetryFails(sid)], RetriesManually(sid), c);
    steps := Start(sid) + [fails, RetryFails(sid)] + RetriesManually(sid);
    RunOn(EMPTY, steps, [fails, dispatched], c);
    steps := steps + [fails, dispatched];
  }

  lemma {:induction false} RunTwo(s: State, a: Step, b: Step, c: Config)
    ensures Run(s, [a, b], c) == Next(Next(s, a, c), b, c)
  {
    assert [a, b] == [] + [a] + [b];
    RunAppend(s, [], a, c);
    RunAppend(s, [] + [a], b, c);
  }

  predicate RetryWaits(s: State, sid: Sid, row: Row) {
    && sid in s.rows && s.rows[sid] == row
    && FirstRetry(sid).id in s.queue && s.queue[FirstRetry(sid).id] == Waiting(FirstRetry(sid))
  }

  lemma {:induction false} RetryDispatched(s: State, sid: Sid, row: Row, c: Config)
    requires row == Row(Running, RetryScheduled, Some(Retry(1, FirstRetry(sid).id, 0.0))) && RetryWaits(s, sid, row)
    ensures var t := Next(s, Process(FirstRetry(sid), Dispatched, false), c);
            && RetryWaits(t, sid, row.(phase := Executing)) && t.retries == s.retries
            && t.executed == s.executed + [Execution(sid, None, 1, FirstRetry(sid).id)]
  {
    RetryIdsAreRetryIds(sid, None, 1);
    AttemptReads(sid, None, 1);
    StepLogs(s, Process(FirstRetry(sid), Dispatched, false), c);
  }

  function RollsBack(sid: Sid): seq<Step> {
    [WriteForRetry(0, sid), AddForRetry(0, sid, 2, 2, false)]
  }

  /** A manual retry that cannot queue its job puts back the row it read, over whatever happened since. */
  lemma {:induction false} RollbackRestores(s: State, sid: Sid, row: Row, c: Config)
    requires sid in s.rows && RetryWaits(s, sid, s.rows[sid]) && 0 in s.retries && s.retries[0] == ManualRetry(sid, row, Reading)
    ensures var t := Run(s, RollsBack(sid), c); RetryWaits(t, sid, row) && t.executed == s.executed
  {
    RunTwo(s, RollsBack(sid)[0], RollsBack(sid)[1], c);
    var w := Next(s, RollsBack(sid)[0], c);
    assert Writes(w, 0, sid) && w.retries[0].row == row && w.queue == s.queue;
  }

  /** Without tidiness an id is executed twice though no job is stale: a manual retry reads a session that
      waits for its first retry; the retry is executed, and its worker crashes before the queue knows; the
      manual retry fails to queue its job and puts back the row it read. */
  lemma {:induction false} RollbackRepeats(sid: Sid, c: Config) returns (steps: seq<Step>)
    requires c.enabled && c.maxAttempts >= 1
    ensures var log := Run(EMPTY, steps, c).executed;
            |log| == 2 && log[0] == log[1] && log[0].sid == sid
  {
    var pending := Row(Running, RetryScheduled, Some(Retry(1, FirstRetry(sid).id, 0.0)));
    var fails, read, dispatched := FirstFails(sid, false), ReadForRetry(0, sid), Process(FirstRetry(sid), Dispatched, false);
    var s := Run(EMPTY, Start(sid), c);
    StartStarts(sid, c);
    FirstJobFails(s, sid, c);
    var t := Next(Next(s, fails, c), read, c);
    assert t.retries[0] == ManualRetry(sid, pending, Reading) && RetryWaits(t, sid, pending);
    RetryDispatched(t, sid, pending, c);
    var u := Next(t, dispatched, c);
    RollbackRestores(u, sid, pending, c);
    var v := Run(u, RollsBack(sid), c);
    RetryDispatched(v, sid, pending, c);
    RunThree(s, fails, read, dispatched, c);
    RunOn(EMPTY, Start(sid), [fails, read, dispatched], c);
    steps := Start(sid) + [fails, read, dispatched];
    RunOn(EMPTY, steps, RollsBack(sid), c);
    steps := steps + RollsBack(sid);
    RunAppend(EMPTY, steps, dispatched, c);
    steps := steps + [dispatched];
  }
}
