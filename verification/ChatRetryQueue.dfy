/** Whether the queue still has the job of a retry that a session's row says is scheduled. */
module ChatRetryQueue {
  import opened Text
  import opened ChatRetryDecision
  import opened ChatRetryIds
  import opened ChatRetryProtocol

  predicate Pending(s: State, sid: Sid) {
    sid in s.rows && s.rows[sid].phase == RetryScheduled
  }

  /** The row says that this retry is scheduled. */
  predicate Recorded(s: State, sid: Sid, id: string) {
    Pending(s, sid) && s.rows[sid].retry.Some? && s.rows[sid].retry.value.jobId == id
  }

  /** A retry job that is executed when the queue delivers it, as it may now. */
  predicate Live(s: State, job: Job) {
    job.id in s.queue && s.queue[job.id] == Waiting(job) && IsRetryId(job.id) && !ShouldSkip(s.rows, job)
  }

  // ----- one live retry at most -----

  /** An id names its job. */
  lemma {:induction false} SameIdSameJob(j1: Job, j2: Job)
    requires WellNamed(j1) && WellNamed(j2) && IsRetryId(j1.id) && j1.id == j2.id
    ensures j1 == j2
  {
    var a := AttemptOf(j1.id).value;
    IdsNameSessions(j1.sid, j1.generation, a, j2.sid, j2.generation, a);
    IdsNameJobs(j1.sid, j1.generation, a, j2.generation, a);
  }

  /** A recorded id is named by its session. */
  lemma {:induction false} RecordedId(s: State, sid: Sid, id: string) returns (g: Option<nat>, n: nat)
    requires Consistent(s) && Recorded(s, sid, id)
    ensures id == RetryJobId(sid, g, n) && n == s.rows[sid].retry.value.attempt
    ensures IsRetryId(id) && AttemptOf(id) == Some(n)
  {
    assert RowOk(sid, s.rows[sid]);
    n := s.rows[sid].retry.value.attempt;
    g :| id == RetryJobId(sid, g, n);
    RetryIdsAreRetryIds(sid, g, n);
  }

  /** A retry job in the queue is the session's whose row names it. */
  lemma {:induction false} RecordedJob(s: State, sid: Sid, id: string)
    requires Consistent(s) && Recorded(s, sid, id)
    ensures IsRetryId(id) && AttemptOf(id) == Some(s.rows[sid].retry.value.attempt)
    ensures id in s.queue ==> s.queue[id].job.id == id && s.queue[id].job.sid == sid && WellNamed(s.queue[id].job)
  {
    var g, n := RecordedId(s, sid, id);
    if id in s.queue {
      var job := s.queue[id].job;
      assert WellNamed(job);
      IdsNameSessions(sid, g, n, job.sid, job.generation, AttemptOf(id).value);
    }
  }

  /** The live retry jobs of a session are the one its row names, if the queue has it waiting. */
  lemma {:induction false} LiveIsRecorded(s: State, job: Job)
    requires Consistent(s)
    ensures Live(s, job) <==> Recorded(s, job.sid, job.id) && job.id in s.queue && s.queue[job.id] == Waiting(job)
  {
    if Recorded(s, job.sid, job.id) {
      RecordedJob(s, job.sid, job.id);
      assert RowOk(job.sid, s.rows[job.sid]);
    }
  }

  /** In every reachable state a session has at most one retry job that would be executed, and it has one
      exactly when its row says a retry is scheduled and the queue has the job it names waiting. */
  lemma {:induction false} OneLiveRetry(steps: seq<Step>, c: Config, sid: Sid)
    ensures var s := Run(EMPTY, steps, c);
            forall j1, j2 | Live(s, j1) && Live(s, j2) && j1.sid == sid == j2.sid :: j1 == j2
    ensures var s := Run(EMPTY, steps, c);
            (exists job :: Live(s, job) && job.sid == sid)
            <==> Pending(s, sid) && s.rows[sid].retry.Some? && Waits(s.queue, s.rows[sid].retry.value.jobId)
  {
    var s := Run(EMPTY, steps, c);
    ReachableIsConsistent(steps, c);
    forall j1, j2 | Live(s, j1) && Live(s, j2) && j1.sid == sid == j2.sid ensures j1 == j2 {
      LiveIsRecorded(s, j1);
      LiveIsRecorded(s, j2);
    }
    if job :| Live(s, job) && job.sid == sid {
      LiveIsRecorded(s, job);
    }
    if Pending(s, sid) && s.rows[sid].retry.Some? && Waits(s.queue, s.rows[sid].retry.value.jobId) {
      var id := s.rows[sid].retry.value.jobId;
      RecordedJob(s, sid, id);
      LiveIsRecorded(s, s.queue[id].job);
    }
  }

  // ----- recording a retry -----

  /** The step queues a retry and records it. */
  predicate Records(s: State, step: Step, c: Config) {
    && Runs(s, step) && step.outcome.Fails? && Retries(s, step.job, step.outcome.failure, step.outcome.now, c)
    && !step.outcome.capacityFull && step.outcome.enqueued && step.outcome.persisted
  }

  lemma {:induction false} RetryIsAnother(s: State, job: Job)
    requires job.sid in s.rows && !ShouldSkip(s.rows, job)
    ensures RetryJob(s, job).id != job.id
  {
    RetryJobIsWellNamed(s, job);
  }

  /** What recording a retry leaves in the row and in the queue. */
  lemma {:induction false} RecordsStep(s: State, step: Step, c: Config)
    requires Records(s, step, c)
    ensures var t, job := Next(s, step, c), RetryJob(s, step.job);
            && Recorded(t, job.sid, job.id) && t.queue.Keys == s.queue.Keys + {job.id}
            && t.queue[job.id] == if job.id in s.queue then s.queue[job.id] else Waiting(job)
  {
    RetryIsAnother(s, step.job);
  }

  /** In every reachable state a retry that is recorded has a job that will be executed if and only if the
      queue does not hold its id as finished: such an id is not added again. */
  lemma {:induction false} RecordingIsLive(steps: seq<Step>, step: Step, c: Config)
    requires Records(Run(EMPTY, steps, c), step, c)
    ensures var s := Run(EMPTY, steps, c);
            var t, job := Next(s, step, c), RetryJob(s, step.job);
            && Recorded(t, job.sid, job.id)
            && (Live(t, job) <==> !HeldFinished(s.queue, job.id))
  {
    var s := Run(EMPTY, steps, c);
    var job := RetryJob(s, step.job);
    ReachableIsConsistent(steps, c);
    NextKeepsConsistent(s, step, c);
    RecordsStep(s, step, c);
    RetryJobIsWellNamed(s, step.job);
    LiveIsRecorded(Next(s, step, c), job);
    if job.id in s.queue {
      SameIdSameJob(s.queue[job.id].job, job);
    }
  }

  // ----- which steps keep every scheduled retry in the queue -----

  /** If the row says a retry is scheduled, its job waits in the queue. */
  predicate Backed(s: State, sid: Sid) {
    Pending(s, sid) ==> s.rows[sid].retry.Some? && Waits(s.queue, s.rows[sid].retry.value.jobId)
  }

  predicate AllBacked(s: State) {
    forall sid | sid in s.rows :: Backed(s, sid)
  }

  predicate RecordedBySome(s: State, id: string) {
    exists sid | sid in s.rows :: Recorded(s, sid, id)
  }

  /** The step records no retry whose id is held as finished, ends or removes no job that a row still
      waits for, and puts no row back that waits for a job that is gone. */
  predicate Safe(s: State, step: Step, c: Config) {
    match step
    case Process(job, _, _) => Records(s, step, c) ==> !HeldFinished(s.queue, RetryJob(s, job).id)
    case GiveUp(id) => !RecordedBySome(s, id)
    case AddForRetry(op, sid, _, _, enqueued) =>
      Writes(s, op, sid) && !enqueued && s.retries[op].row.phase == RetryScheduled ==>
        s.retries[op].row.retry.Some? && Waits(s.queue, s.retries[op].row.retry.value.jobId)
    case RemoveForRetry(op, sid, removed) =>
      Queues(s, op, sid) && removed && s.retries[op].row.retry.Some? ==>
        !RecordedBySome(s, s.retries[op].row.retry.value.jobId)
    case _ => true
  }

  predicate SameEntry(q: Queue, r: Queue, id: string) {
    (id in q <==> id in r) && (id in q ==> q[id] == r[id])
  }

  predicate SameRow(s: State, t: State, sid: Sid) {
    (sid in s.rows <==> sid in t.rows) && (sid in s.rows ==> s.rows[sid] == t.rows[sid])
  }

  lemma {:induction false} ExecutedElsewhere(s: State, job: Job, outcome: Outcome, c: Config, id: string)
    requires job.sid in s.rows && id != RetryJob(s, job).id
    ensures SameEntry(s.queue, Executed(s, job, outcome, c).queue, id)
  {
  }

  lemma {:induction false} ExecutedOthers(s: State, job: Job, outcome: Outcome, c: Config, sid: Sid)
    requires job.sid in s.rows && sid != job.sid
    ensures SameRow(s, Executed(s, job, outcome, c), sid)
  {
  }

  /** A delivery touches the entries of its own job and of the retry it queues, and its session's row. */
  lemma {:induction false} ProcessedElsewhere(s: State, step: Step, c: Config, id: string)
    requires Delivers(s, step) && id != step.job.id
    requires step.job.sid in s.rows ==> id != RetryJob(s, step.job).id
    ensures SameEntry(s.queue, Processed(s, step, c).queue, id)
  {
    if Runs(s, step) {
      LoggedSame(s, step.job, step.outcome);
      ExecutedElsewhere(Logged(s, step.job, step.outcome), step.job, step.outcome, c, id);
    }
  }

  lemma {:induction false} ProcessedOthers(s: State, step: Step, c: Config, sid: Sid)
    requires Delivers(s, step) && sid != step.job.sid
    ensures SameRow(s, Processed(s, step, c), sid)
  {
    if Runs(s, step) {
      LoggedSame(s, step.job, step.outcome);
      ExecutedOthers(Logged(s, step.job, step.outcome), step.job, step.outcome, c, sid);
    }
  }

  lemma {:induction false} IdsApart(s: State, sid: Sid, id: string, job: Job)
    requires Consistent(s) && Recorded(s, sid, id) && job.sid != sid && WellNamed(job)
    ensures id != job.id && (job.sid in s.rows ==> id != RetryJob(s, job).id)
  {
    var g, n := RecordedId(s, sid, id);
    if id == job.id {
      IdsNameSessions(sid, g, n, job.sid, job.generation, AttemptOf(job.id).value);
    }
    if job.sid in s.rows && id == RetryJob(s, job).id {
      IdsNameSessions(sid, g, n, job.sid, job.generation, Attempts(s.rows[job.sid]) + 1);
    }
  }

  lemma {:induction false} OtherStaysBacked(s: State, step: Step, c: Config, sid: Sid)
    requires Consistent(s) && Delivers(s, step) && sid in s.rows && sid != step.job.sid && Backed(s, sid)
    ensures Backed(Processed(s, step, c), sid)
  {
    ProcessedOthers(s, step, c, sid);
    if Pending(s, sid) {
      var id := s.rows[sid].retry.value.jobId;
      IdsApart(s, sid, id, step.job);
      ProcessedElsewhere(s, step, c, id);
    }
  }

  /** An execution that records no retry leaves its session waiting only if it crashed before touching the row. */
  lemma {:induction false} ExecutedOwn(s: State, job: Job, outcome: Outcome, c: Config)
    requires job.sid in s.rows
    requires outcome.Fails? ==> !Retries(s, job, outcome.failure, outcome.now, c) || outcome.capacityFull
                                || !outcome.enqueued || !outcome.persisted
    ensures var t := Executed(s, job, outcome, c);
            job.sid in t.rows
            && (Pending(t, job.sid) ==> LeavesNoTrace(outcome) && t.rows[job.sid] == s.rows[job.sid])
  {
  }

  /** The delivery's own session, recording apart: its row stops waiting, or nothing happens to the job it
      waits for. */
  lemma {:induction false} OwnStaysBacked(s: State, step: Step, c: Config)
    requires Consistent(s) && Delivers(s, step) && step.job.sid in s.rows && Backed(s, step.job.sid)
    requires !Records(s, step, c)
    ensures Backed(Processed(s, step, c), step.job.sid)
  {
    var sid := step.job.sid;
    if Runs(s, step) {
      LoggedSame(s, step.job, step.outcome);
      ExecutedOwn(Logged(s, step.job, step.outcome), step.job, step.outcome, c);
    }
    if Pending(Processed(s, step, c), sid) {
      var id := s.rows[sid].retry.value.jobId;
      RetryIdIsNext(s, sid, id, step.job);
      if id != step.job.id {
        ProcessedElsewhere(s, step, c, id);
      } else {
        OwnJobWaits(s, step, c, id);
      }
    }
  }

  /** The job that the session waits for runs, so it ends only together with the waiting. */
  lemma {:induction false} OwnJobWaits(s: State, step: Step, c: Config, id: string)
    requires Consistent(s) && Delivers(s, step) && Recorded(s, step.job.sid, id) && id == step.job.id
    requires Runs(s, step) ==> LeavesNoTrace(step.outcome)
    ensures Waits(Processed(s, step, c).queue, id)
  {
    LiveIsRecorded(s, step.job);
    RetryIdIsNext(s, step.job.sid, id, step.job);
    LoggedSame(s, step.job, step.outcome);
    ExecutedElsewhere(Logged(s, step.job, step.outcome), step.job, step.outcome, c, id);
  }

  lemma {:induction false} RetryIdIsNext(s: State, sid: Sid, id: string, job: Job)
    requires Consistent(s) && Recorded(s, sid, id) && job.sid == sid
    ensures RetryJob(s, job).id != id
  {
    RecordedJob(s, sid, id);
    RetryJobIsWellNamed(s, job);
  }

  lemma {:induction false} ProcessKeepsBacked(s: State, step: Step, c: Config)
    requires Consistent(s) && AllBacked(s) && step.Process?
    ensures AllBacked(Next(s, step, c)) <==> Safe(s, step, c)
  {
    var t := Next(s, step, c);
    if Delivers(s, step) {
      forall sid | sid in t.rows && sid != step.job.sid ensures Backed(t, sid) {
        ProcessedOthers(s, step, c, sid);
        OtherStaysBacked(s, step, c, sid);
      }
      if Records(s, step, c) {
        RecordsStep(s, step, c);
        assert step.job.sid in t.rows;
      } else if step.job.sid in s.rows {
        OwnStaysBacked(s, step, c);
      }
    }
  }

  lemma {:induction false} RemovalKeepsBacked(s: State, t: State, id: string)
    requires Consistent(s) && AllBacked(s) && t.rows == s.rows
    requires forall x :: x != id ==> (x in t.queue <==> x in s.queue) && (x in s.queue ==> t.queue[x] == s.queue[x])
    requires !Waits(t.queue, id)
    ensures AllBacked(t) <==> !RecordedBySome(s, id)
  {
    if sid :| sid in s.rows && Recorded(s, sid, id) {
      assert !Backed(t, sid);
    } else {
      forall sid | sid in t.rows ensures Backed(t, sid) {
        assert Backed(s, sid);
      }
    }
  }

  lemma {:induction false} RemoveStepKeepsBacked(s: State, op: nat, sid: Sid, removed: bool, c: Config)
    requires Consistent(s) && AllBacked(s)
    ensures AllBacked(Next(s, RemoveForRetry(op, sid, removed), c)) <==> Safe(s, RemoveForRetry(op, sid, removed), c)
  {
    var t := Next(s, RemoveForRetry(op, sid, removed), c);
    if Queues(s, op, sid) && removed && s.retries[op].row.retry.Some? {
      RemovalKeepsBacked(s, t, s.retries[op].row.retry.value.jobId);
    } else {
      RowsStay(s, t);
    }
  }

  lemma {:induction false} RowsStay(s: State, t: State)
    requires AllBacked(s) && t.rows == s.rows && forall id | Waits(s.queue, id) :: Waits(t.queue, id)
    ensures AllBacked(t)
  {
    forall sid | sid in t.rows ensures Backed(t, sid) {
      assert Backed(s, sid);
    }
  }

  /** One row changes and the queue loses nothing. */
  lemma {:induction false} RowChanges(s: State, t: State, sid: Sid)
    requires AllBacked(s) && sid in t.rows && forall x | x in t.rows && x != sid :: x in s.rows && t.rows[x] == s.rows[x]
    requires forall id | Waits(s.queue, id) :: Waits(t.queue, id)
    ensures AllBacked(t) <==> Backed(t, sid)
  {
    forall x | x in t.rows && x != sid ensures Backed(t, x) {
      assert Backed(s, x);
    }
  }

  /** Every step keeps the scheduled retries in the queue if and only if it is safe. */
  lemma {:induction false} NextKeepsBacked(s: State, step: Step, c: Config)
    requires Consistent(s) && AllBacked(s)
    ensures AllBacked(Next(s, step, c)) <==> Safe(s, step, c)
  {
    var t := Next(s, step, c);
    match step {
      case Process(_, _, _) => ProcessKeepsBacked(s, step, c);
      case RemoveForRetry(op, sid, removed) => RemoveStepKeepsBacked(s, op, sid, removed, c);
      case GiveUp(id) => RemovalKeepsBacked(s, t, id);
      case Evict(id) => EvictKeepsBacked(s, id, c);
      case Submit(job) =>
        forall sid | sid in t.rows ensures Backed(t, sid) {
          assert Backed(s, sid);
        }
      case _ => RowStepKeepsBacked(s, step, c);
    }
  }

  lemma {:induction false} EvictKeepsBacked(s: State, id: string, c: Config)
    requires AllBacked(s)
    ensures AllBacked(Next(s, Evict(id), c))
  {
    var t := Next(s, Evict(id), c);
    forall sid | sid in t.rows ensures Backed(t, sid) {
      assert Backed(s, sid);
    }
  }

  lemma {:induction false} RowStepFrame(s: State, step: Step, c: Config)
    requires !step.Process? && !step.RemoveForRetry? && !step.GiveUp? && !step.Evict? && !step.Submit?
    ensures var t := Next(s, step, c);
            && (forall x | x in t.rows && x != step.sid :: x in s.rows && t.rows[x] == s.rows[x])
            && (forall id | Waits(s.queue, id) :: Waits(t.queue, id))
            && (step.sid !in t.rows ==> t.rows == s.rows)
  {
  }

  lemma {:induction false} RowStepKeepsBacked(s: State, step: Step, c: Config)
    requires AllBacked(s)
    requires !step.Process? && !step.RemoveForRetry? && !step.GiveUp? && !step.Evict? && !step.Submit?
    ensures AllBacked(Next(s, step, c)) <==> Safe(s, step, c)
  {
    var t := Next(s, step, c);
    RowStepFrame(s, step, c);
    if step.sid in t.rows {
      assert step.sid in s.rows ==> Backed(s, step.sid);
      RowChanges(s, t, step.sid);
    } else {
      RowsStay(s, t);
    }
  }

  predicate SafeRun(steps: seq<Step>, c: Config) {
    steps == [] ||
    var before := steps[..|steps| - 1];
    SafeRun(before, c) && Safe(Run(EMPTY, before, c), steps[|steps| - 1], c)
  }

  predicate BackedUpTo(steps: seq<Step>, c: Config) {
    forall n | 0 <= n <= |steps| :: AllBacked(Run(EMPTY, steps[..n], c))
  }

  lemma {:induction false} BackedOneMore(steps: seq<Step>, c: Config)
    requires steps != []
    ensures BackedUpTo(steps, c) <==> BackedUpTo(steps[..|steps| - 1], c) && AllBacked(Run(EMPTY, steps, c))
  {
    var before := steps[..|steps| - 1];
    assert steps[..|steps|] == steps;
    assert forall n | 0 <= n < |steps| :: before[..n] == steps[..n];
    if BackedUpTo(before, c) && AllBacked(Run(EMPTY, steps, c)) {
      forall n | 0 <= n <= |steps| ensures AllBacked(Run(EMPTY, steps[..n], c)) {
        assert n < |steps| ==> before[..n] == steps[..n];
      }
    }
  }

  /** In every state of a run each session whose row says a retry is scheduled has that retry's job waiting
      in the queue, if and only if every step was safe. */
  lemma {:induction false} BackedThroughout(steps: seq<Step>, c: Config)
    ensures BackedUpTo(steps, c) <==> SafeRun(steps, c)
    ensures BackedUpTo(steps, c) ==> AllBacked(Run(EMPTY, steps, c))
    decreases |steps|
  {
    if steps != [] {
      var before := steps[..|steps| - 1];
      BackedThroughout(before, c);
      ReachableIsConsistent(before, c);
      BackedOneMore(steps, c);
      if BackedUpTo(before, c) {
        NextKeepsBacked(Run(EMPTY, before, c), steps[|steps| - 1], c);
      }
    }
  }

  /** After safe steps a session has a job that will be executed exactly when its row says so. */
  lemma {:induction false} SafeRunsAgree(steps: seq<Step>, c: Config, sid: Sid)
    requires SafeRun(steps, c)
    ensures var s := Run(EMPTY, steps, c);
            (exists job :: Live(s, job) && job.sid == sid) <==> Pending(s, sid)
  {
    var s := Run(EMPTY, steps, c);
    BackedThroughout(steps, c);
    OneLiveRetry(steps, c, sid);
    assert sid in s.rows ==> Backed(s, sid);
  }

  // ----- a retry without a job -----

  /** The step leaves the session to the queue: its own retries may be delivered, and anything may happen
      to other sessions. */
  predicate LeavesAlone(step: Step, sid: Sid) {
    match step
    case Process(job, _, _) => job.sid == sid ==> IsRetryId(job.id)
    case Submit(_) => true
    case GiveUp(_) => true
    case Evict(_) => true
    case _ => step.sid != sid
  }

  predicate LeftAlone(steps: seq<Step>, sid: Sid) {
    forall i | 0 <= i < |steps| :: LeavesAlone(steps[i], sid)
  }

  function ExecutionsOf(log: seq<Execution>, sid: Sid): nat {
    if log == [] then 0 else ExecutionsOf(log[..|log| - 1], sid) + if log[|log| - 1].sid == sid then 1 else 0
  }

  /** The session waits for a job that the queue does not deliver. */
  predicate Stuck(s: State, sid: Sid) {
    Pending(s, sid) && s.rows[sid].retry.Some? && !Waits(s.queue, s.rows[sid].retry.value.jobId)
  }

  predicate StillStuck(s: State, t: State, sid: Sid) {
    Stuck(t, sid) && SameRow(s, t, sid) && ExecutionsOf(t.executed, sid) == ExecutionsOf(s.executed, sid)
  }

  lemma {:induction false} LogOfOthers(s: State, step: Step, c: Config, sid: Sid)
    requires Delivers(s, step) && step.job.sid != sid
    ensures ExecutionsOf(Processed(s, step, c).executed, sid) == ExecutionsOf(s.executed, sid)
  {
    StepLogs(s, step, c);
  }

  lemma {:induction false} DeliveryKeepsStuck(s: State, step: Step, c: Config, sid: Sid)
    requires Consistent(s) && Stuck(s, sid) && Delivers(s, step) && LeavesAlone(step, sid)
    ensures StillStuck(s, Processed(s, step, c), sid)
  {
    var id := s.rows[sid].retry.value.jobId;
    if step.job.sid == sid {
      assert !Runs(s, step);
    } else {
      IdsApart(s, sid, id, step.job);
      ProcessedElsewhere(s, step, c, id);
      ProcessedOthers(s, step, c, sid);
      LogOfOthers(s, step, c, sid);
    }
  }

  lemma {:induction false} QueueStepKeepsStuck(s: State, step: Step, c: Config, sid: Sid)
    requires Stuck(s, sid) && IsRetryId(s.rows[sid].retry.value.jobId)
    requires step.Submit? || step.GiveUp? || step.Evict?
    ensures StillStuck(s, Next(s, step, c), sid)
  {
  }

  lemma {:induction false} RowStepKeepsStuck(s: State, step: Step, c: Config, sid: Sid)
    requires Stuck(s, sid) && IsRetryId(s.rows[sid].retry.value.jobId)
    requires !step.Process? && !step.Submit? && !step.GiveUp? && !step.Evict? && step.sid != sid
    ensures StillStuck(s, Next(s, step, c), sid)
  {
    if step.AddForRetry? {
      ManualIdsAreNot(step.sid, step.at);
    }
  }

  lemma {:induction false} StepKeepsStuck(s: State, step: Step, c: Config, sid: Sid)
    requires Consistent(s) && Stuck(s, sid) && LeavesAlone(step, sid)
    ensures StillStuck(s, Next(s, step, c), sid)
  {
    RecordedJob(s, sid, s.rows[sid].retry.value.jobId);
    if step.Process? {
      if Delivers(s, step) {
        DeliveryKeepsStuck(s, step, c, sid);
      }
    } else if step.Submit? || step.GiveUp? || step.Evict? {
      QueueStepKeepsStuck(s, step, c, sid);
    } else {
      RowStepKeepsStuck(s, step, c, sid);
    }
  }

  lemma {:induction false} StuckForEver(s: State, steps: seq<Step>, c: Config, sid: Sid)
    requires Consistent(s) && Stuck(s, sid) && LeftAlone(steps, sid)
    ensures StillStuck(s, Run(s, steps, c), sid) && Consistent(Run(s, steps, c))
    decreases |steps|
  {
    if steps != [] {
      var before := steps[..|steps| - 1];
      StuckForEver(s, before, c, sid);
      StepKeepsStuck(Run(s, before, c), steps[|steps| - 1], c, sid);
      NextKeepsConsistent(Run(s, before, c), steps[|steps| - 1], c);
    }
  }

  /** Left to the queue, the session's retry is executed some time. */
  ghost predicate CanRun(s: State, sid: Sid, c: Config) {
    exists steps :: LeftAlone(steps, sid) && ExecutionsOf(Run(s, steps, c).executed, sid) > ExecutionsOf(s.executed, sid)
  }

  lemma {:induction false} DeliverRecorded(s: State, sid: Sid, c: Config) returns (step: Step)
    requires Consistent(s) && Pending(s, sid) && s.rows[sid].retry.Some?
    requires Waits(s.queue, s.rows[sid].retry.value.jobId)
    ensures LeavesAlone(step, sid) && ExecutionsOf(Next(s, step, c).executed, sid) == ExecutionsOf(s.executed, sid) + 1
  {
    var id := s.rows[sid].retry.value.jobId;
    var job := s.queue[id].job;
    RecordedJob(s, sid, id);
    LiveIsRecorded(s, job);
    step := Process(job, Dispatched, true);
    var log := Next(s, step, c).executed;
    assert log == s.executed + [log[|s.executed|]] && log[..|s.executed|] == s.executed;
  }

  /** In every reachable state a session whose row says a retry is scheduled is retried in some continuation
      that leaves it to the queue if and only if the queue has the job waiting: otherwise it waits until a
      user or another service intervenes. */
  lemma {:induction false} WaitsInVain(before: seq<Step>, c: Config, sid: Sid)
    requires Pending(Run(EMPTY, before, c), sid)
    ensures var s := Run(EMPTY, before, c);
            s.rows[sid].retry.Some? && (CanRun(s, sid, c) <==> Waits(s.queue, s.rows[sid].retry.value.jobId))
  {
    var s := Run(EMPTY, before, c);
    ReachableIsConsistent(before, c);
    assert RowOk(sid, s.rows[sid]);
    if Waits(s.queue, s.rows[sid].retry.value.jobId) {
      var step := DeliverRecorded(s, sid, c);
      assert [step][..0] == [];
      assert LeftAlone([step], sid) && Run(s, [step], c) == Next(s, step, c);
    } else {
      forall steps | LeftAlone(steps, sid)
        ensures ExecutionsOf(Run(s, steps, c).executed, sid) == ExecutionsOf(s.executed, sid)
      {
        StuckForEver(s, steps, c, sid);
      }
    }
  }

  // ----- how it comes to that -----

  function FirstJob(sid: Sid): Job {
    Job(sid, sid, None)
  }

  function FirstRetry(sid: Sid): Job {
    Job(RetryJobId(sid, None, 1), sid, None)
  }

  lemma {:induction false} RunAppend(s: State, steps: seq<Step>, step: Step, c: Config)
    ensures Run(s, steps + [step], c) == Next(Run(s, steps, c), step, c)
  {
  }

  lemma {:induction false} RunThree(s: State, a: Step, b: Step, d: Step, c: Config)
    ensures Run(s, [a, b, d], c) == Next(Next(Next(s, a, c), b, c), d, c)
  {
    assert [a, b, d] == [] + [a] + [b] + [d];
    RunAppend(s, [], a, c);
    RunAppend(s, [] + [a], b, c);
    RunAppend(s, [] + [a] + [b], d, c);
  }

  lemma {:induction false} RunOn(s: State, steps: seq<Step>, more: seq<Step>, c: Config)
    ensures Run(s, steps + more, c) == Run(Run(s, steps, c), more, c)
    decreases |more|
  {
    if more == [] {
      assert steps + more == steps;
    } else {
      assert (steps + more)[..|steps + more| - 1] == steps + more[..|more| - 1];
      RunOn(s, steps, more[..|more| - 1], c);
    }
  }

  /** The session is new and its first job waits. */
  predicate Started(s: State, sid: Sid) {
    && s.rows == map[sid := Row(Starting, StartingUp, None)] && s.queue == map[sid := Waiting(FirstJob(sid))]
    && s.retries == map[] && s.executed == []
  }

  function Start(sid: Sid): seq<Step> {
    [Create(sid), Submit(FirstJob(sid))]
  }

  lemma {:induction false} StartStarts(sid: Sid, c: Config)
    ensures Started(Run(EMPTY, Start(sid), c), sid)
  {
    PlainIdsAreNot(sid);
    assert Start(sid) == [] + [Create(sid)] + [Submit(FirstJob(sid))];
    RunAppend(EMPTY, [], Create(sid), c);
    RunAppend(EMPTY, [] + [Create(sid)], Submit(FirstJob(sid)), c);
  }

  function FirstFails(sid: Sid, ended: bool): Step {
    Process(FirstJob(sid), Fails(Overload, 0.0, false, true, true, false), ended)
  }

  function FirstCrashes(sid: Sid): Step {
    Process(FirstJob(sid), CrashesAfterEnqueue(true, Overload, 0.0), false)
  }

  /** The first job waits, and no attempt is recorded. */
  predicate Unrecorded(s: State, sid: Sid) {
    && sid in s.rows && s.rows[sid].retry == None && s.rows[sid].phase != RetryScheduled
    && sid in s.queue && s.queue[sid] == Waiting(FirstJob(sid))
  }

  lemma {:induction false} CrashLeavesJob(s: State, sid: Sid, c: Config)
    requires c.enabled && c.maxAttempts >= 1 && Started(s, sid)
    ensures var t := Next(s, FirstCrashes(sid), c);
            Unrecorded(t, sid) && FirstRetry(sid).id in t.queue && t.queue[FirstRetry(sid).id] == Waiting(FirstRetry(sid))
  {
    PlainIdsAreNot(sid);
    RetryIdsAreRetryIds(sid, None, 1);
    assert Runs(s, FirstCrashes(sid)) && Retries(s, FirstJob(sid), Overload, 0.0, c);
    assert RetryJob(s, FirstJob(sid)) == FirstRetry(sid);
  }

  lemma {:induction false} SkipFinishes(s: State, sid: Sid, c: Config)
    requires Unrecorded(s, sid) && FirstRetry(sid).id in s.queue && s.queue[FirstRetry(sid).id] == Waiting(FirstRetry(sid))
    ensures var t := Next(s, Process(FirstRetry(sid), Dispatched, true), c);
            Unrecorded(t, sid) && HeldFinished(t.queue, FirstRetry(sid).id)
  {
    PlainIdsAreNot(sid);
    RetryIdsAreRetryIds(sid, None, 1);
  }

  lemma {:induction false} RecordsInVain(s: State, sid: Sid, c: Config)
    requires c.enabled && c.maxAttempts >= 1 && Unrecorded(s, sid) && HeldFinished(s.queue, FirstRetry(sid).id)
    ensures Stuck(Next(s, FirstFails(sid, true), c), sid)
  {
    PlainIdsAreNot(sid);
    assert RetryJob(s, FirstJob(sid)) == FirstRetry(sid);
    RecordsStep(s, FirstFails(sid, true), c);
  }

  /** A worker that crashes after queueing a retry leaves its job behind; the job is delivered, skipped and
      retained as finished, and when the first job is delivered again its retry is recorded under the
      same id: the session waits for ever. No manual retry is needed. */
  lemma {:induction false} SkippedRetryBlocksId(sid: Sid, c: Config) returns (steps: seq<Step>)
    requires c.enabled && c.maxAttempts >= 1
    ensures Stuck(Run(EMPTY, steps, c), sid)
    ensures forall i | 0 <= i < |steps| :: steps[i].Create? || steps[i].Submit? || steps[i].Process?
  {
    var more := [FirstCrashes(sid), Process(FirstRetry(sid), Dispatched, true), FirstFails(sid, true)];
    steps := Start(sid) + more;
    var s := Run(EMPTY, Start(sid), c);
    StartStarts(sid, c);
    RunOn(EMPTY, Start(sid), more, c);
    RunThree(s, more[0], more[1], more[2], c);
    CrashLeavesJob(s, sid, c);
    var t := Next(s, more[0], c);
    SkipFinishes(t, sid, c);
    RecordsInVain(Next(t, more[1], c), sid, c);
  }
}
