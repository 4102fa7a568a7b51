/** The worker's own code: the check of a retry job, the execution of a session, and on a failure the
    retry or the final status, written to the row and the queue step by step. */
module ChatExecution {
  import opened Text
  import opened ChatRetryDecision
  import opened ChatRetryIds
  import opened ChatRetryProtocol

  /** The retry that was not recorded: its job may be in the queue all the same. */
  function NotScheduled(s: State, job: Job, failure: Failure, now: real, capacityFull: bool, enqueued: bool,
          removed: bool, c: Config): State
    requires job.sid in s.rows
  {
    if Retries(s, job, failure, now, c) && !capacityFull && enqueued then NotRecorded(s, job, removed) else s
  }

  lemma {:induction false} MovedTwice(s: State, sid: Sid, status: Status, phase: Phase)
    requires sid in s.rows
    ensures Moved(Moved(s, sid, Running, Executing), sid, status, phase) == Moved(s, sid, status, phase)
  {
    var rows := s.rows[sid := Row(Running, Executing, s.rows[sid].retry)];
    assert rows[sid := Row(status, phase, s.rows[sid].retry)] == s.rows[sid := Row(status, phase, s.rows[sid].retry)];
  }

  lemma {:induction false} ScheduledMoved(s: State, job: Job, failure: Failure, now: real)
    requires job.sid in s.rows
    ensures Scheduled(Moved(s, job.sid, Running, Executing), job, failure, now) == Scheduled(s, job, failure, now)
  {
    var t, u := Scheduled(s, job, failure, now), Scheduled(Moved(s, job.sid, Running, Executing), job, failure, now);
    assert t.rows == u.rows;
  }

  lemma {:induction false} NotRecordedMoved(s: State, job: Job, removed: bool)
    requires job.sid in s.rows
    ensures NotRecorded(Moved(s, job.sid, Running, Executing), job, removed) == Moved(NotRecorded(s, job, removed), job.sid, Running, Executing)
  {
  }

  /** Whether a failing execution had set the row to running first makes no difference. */
  lemma {:induction false} RanMakesNoDifference(s: State, job: Job, outcome: Outcome, c: Config)
    requires job.sid in s.rows && outcome.Fails?
    ensures Executed(Moved(s, job.sid, Running, Executing), job, outcome, c) == Executed(s, job, outcome, c)
  {
    var recorded := NotRecorded(s, job, outcome.removed);
    MovedTwice(s, job.sid, Failed, Ended);
    NotRecordedMoved(s, job, outcome.removed);
    MovedTwice(recorded, job.sid, Failed, Ended);
    ScheduledMoved(s, job, outcome.failure, outcome.now);
  }

  /** How a method ends: it returns, throws, or is stopped by a crash. */
  datatype Ending = Returned | Threw | Stopped

  class ChatWorker {
    var rows: map<Sid, Row>
    var queue: Queue
    var retries: map<nat, ManualRetry>
    ghost var sent: set<Job>
    ghost var executed: seq<Execution>
    ghost var scheduled: seq<Scheduling>

    constructor ()
      ensures Tables() == EMPTY
    {
      rows, queue, retries, sent, executed, scheduled := map[], map[], map[], {}, [], [];
    }

    ghost function Tables(): State
      reads this
    {
      State(rows, queue, retries, sent, executed, scheduled)
    }

    method Update(sid: Sid, status: Status, phase: Phase)
      requires sid in rows
      modifies this`rows
      ensures rows == old(rows)[sid := Row(status, phase, old(rows)[sid].retry)]
    {
      rows := rows[sid := Row(status, phase, rows[sid].retry)];
    }

    method AddJob(job: Job)
      modifies this`queue, this`sent
      ensures queue == Add(old(queue), job) && sent == old(sent) + {job}
    {
      if job.id !in queue {
        queue := queue[job.id := Waiting(job)];
      }
      sent := sent + {job};
    }

    /** Queues the next attempt and records it. When the record cannot be written the job is withdrawn. */
    method TryScheduleRetry(job: Job, failure: Failure, now: real, capacityFull: bool, enqueued: bool,
            persisted: bool, removed: bool, c: Config)
      returns (retryScheduled: bool)
      requires job.sid in rows
      modifies this`rows, this`queue, this`sent, this`scheduled
      ensures retryScheduled
         <==> Retries(old(Tables()), job, failure, now, c) && !capacityFull && enqueued && persisted
      ensures retryScheduled ==> Tables() == Scheduled(old(Tables()), job, failure, now)
      ensures !retryScheduled ==>
                Tables() == NotScheduled(old(Tables()), job, failure, now, capacityFull, enqueued, removed, c)
    {
      var row := rows[job.sid];
      var currentAttempts := Attempts(row);
      var firstFailureAt := FirstFailureAt(row);
      var decision := Decide(failure, currentAttempts, firstFailureAt, now, c);
      if decision == None {
        return false;
      }
      if capacityFull {
        return false;
      }
      var nextAttempt := currentAttempts + 1;
      var retryJobId := RetryJobId(job.sid, job.generation, nextAttempt);
      if !enqueued {
        return false;
      }
      AddJob(Job(retryJobId, job.sid, job.generation));
      if !persisted {
        if removed {
          queue := queue - {retryJobId};
        }
        return false;
      }
      var since := if firstFailureAt.Some? then firstFailureAt.value else now;
      rows := rows[job.sid := Row(Running, RetryScheduled, Some(Retry(nextAttempt, retryJobId, since)))];
      scheduled := scheduled + [Scheduling(job.sid, nextAttempt, failure, now, since)];
      return true;
    }

    /** The handling of an error: a retry, or the final status and the error thrown on. */
    method RetryOrFail(job: Job, outcome: Outcome, c: Config) returns (ending: Ending)
      requires job.sid in rows && outcome.Fails?
      modifies this`rows, this`queue, this`sent, this`scheduled
      ensures Tables() == Executed(old(Tables()), job, outcome, c)
      ensures job.sid in rows && (if rows[job.sid].status == Failed then ending == Threw else ending == Returned)
    {
      var retryScheduled := TryScheduleRetry(job, outcome.failure, outcome.now, outcome.capacityFull, outcome.enqueued,
                                             outcome.persisted, outcome.removed, c);
      if retryScheduled {
        return Returned;
      }
      Update(job.sid, Failed, Ended);
      return Threw;
    }

    /** `ran` says whether a failing execution had set the row to running first. A crash stops the method
        where it is. */
    method ExecuteChatSession(job: Job, ran: bool, outcome: Outcome, c: Config) returns (ending: Ending)
      modifies this`rows, this`queue, this`sent, this`scheduled
      ensures job.sid !in old(rows) ==> ending == Threw && Tables() == old(Tables())
      ensures job.sid in old(rows) ==> Tables() == Executed(old(Tables()), job, outcome, c)
      ensures job.sid in old(rows) ==> (ending == Stopped <==> Crashed(outcome))
      ensures job.sid in old(rows) && ending != Stopped ==> (ending == Threw <==> rows[job.sid].status == Failed)
    {
      if job.sid !in rows {
        return Threw;
      }
      match outcome
      case Dispatched =>
        Update(job.sid, Running, Executing);
        return Returned;
      case Fails(_, _, _, _, _, _) =>
        if ran {
          RanMakesNoDifference(Tables(), job, outcome, c);
          Update(job.sid, Running, Executing);
        }
        ending := RetryOrFail(job, outcome, c);
      case Crashes(running) =>
        if running {
          Update(job.sid, Running, Executing);
        }
        return Stopped;
      case CrashesAfterEnqueue(running, failure, now) =>
        if running {
          Update(job.sid, Running, Executing);
        }
        var row := rows[job.sid];
        if Decide(failure, Attempts(row), FirstFailureAt(row), now, c).Some? {
          AddJob(Job(RetryJobId(job.sid, job.generation, Attempts(row) + 1), job.sid, job.generation));
        }
        return Stopped;
    }

    method ShouldSkipRetryJob(job: Job) returns (skip: bool)
      ensures skip <==> ShouldSkip(rows, job)
    {
      if !IsRetryId(job.id) {
        return false;
      }
      if job.sid !in rows {
        return true;
      }
      var session := rows[job.sid];
      if Terminal(session.status) {
        return true;
      }
      if session.status != Running {
        return true;
      }
      if session.phase != RetryScheduled {
        return true;
      }
      var expectedAttempt := AttemptOf(job.id);
      if session.retry.None? || session.retry.value.jobId != job.id || Some(session.retry.value.attempt) != expectedAttempt {
        return true;
      }
      return false;
    }

    /** The worker's handler: the check, then the execution. */
    method HandleJob(job: Job, ran: bool, outcome: Outcome, c: Config) returns (ending: Ending)
      modifies this`rows, this`queue, this`sent, this`executed, this`scheduled
      ensures var s := old(Tables());
              Tables() == if ShouldSkip(s.rows, job) || job.sid !in s.rows then s else Executed(Logged(s, job, outcome), job, outcome, c)
      ensures ending == Stopped <==> !ShouldSkip(old(rows), job) && job.sid in old(rows) && Crashed(outcome)
      ensures ending == Threw ==> job.sid !in rows || rows[job.sid].status == Failed
    {
      var skip := ShouldSkipRetryJob(job);
      if skip {
        return Returned;
      }
      executed := Logged(Tables(), job, outcome).executed;
      ending := ExecuteChatSession(job, ran, outcome, c);
    }

    /** One delivery by the queue is the protocol's step: unless the worker crashed the job may have ended. */
    method Process(job: Job, ran: bool, outcome: Outcome, ended: bool, c: Config) returns (ending: Ending)
      requires job.id in queue && queue[job.id] == Waiting(job)
      modifies this
      ensures Tables() == Next(old(Tables()), Step.Process(job, outcome, ended), c)
    {
      ending := HandleJob(job, ran, outcome, c);
      if ended && ending != Stopped && job.id in queue {
        queue := queue[job.id := Finished(queue[job.id].job)];
      }
    }
  }
}
