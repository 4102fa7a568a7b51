/** What one delivery of a job means for its session, and what it leaves alone. */
module ChatDeliveries {
  import opened Text
  import opened ChatRetryDecision
  import opened ChatRetryIds
  import opened ChatRetryProtocol

  /** A worker that crashes before it has touched the row has done nothing: the next delivery of the job
      finds everything as the first one did. */
  lemma {:induction false} CrashBeforeRunIsNothing(s: State, job: Job, ended: bool, c: Config)
    requires Runs(s, Process(job, Crashes(false), ended))
    ensures Next(s, Process(job, Crashes(false), ended), c) == s
  {
  }

  ghost predicate SameBut(s: State, t: State, sid: Sid, ids: set<string>) {
    && t.retries == s.retries && t.rows.Keys == s.rows.Keys
    && (forall other | other in s.rows && other != sid :: t.rows[other] == s.rows[other])
    && (forall id | id !in ids :: id in t.queue <==> id in s.queue)
    && (forall id | id in s.queue && id !in ids :: t.queue[id] == s.queue[id])
  }

  lemma {:induction false} ExecutedIsLocal(s: State, job: Job, outcome: Outcome, c: Config)
    requires job.sid in s.rows
    ensures SameBut(s, Executed(s, job, outcome, c), job.sid, {RetryJob(s, job).id})
  {
    match outcome
    case Dispatched =>
    case Crashes(ran) =>
    case CrashesAfterEnqueue(ran, failure, now) =>
    case Fails(failure, now, capacityFull, enqueued, persisted, removed) =>
  }

  /** A delivery touches no session but that of the job, and in the queue nothing but the job itself and the
      next retry of the session. */
  lemma {:induction false} DeliveryIsLocal(s: State, step: Step, c: Config)
    requires step.Process? && step.job.sid in s.rows
    ensures SameBut(s, Next(s, step, c), step.job.sid, {step.job.id, RetryJob(s, step.job).id})
  {
    if Runs(s, step) {
      var l := Logged(s, step.job, step.outcome);
      LoggedSame(s, step.job, step.outcome);
      ExecutedIsLocal(l, step.job, step.outcome, c);
    }
  }

  /** A worker that crashes between queueing the next retry and recording it leaves the row as it was, or as
      running if it had got that far, and the retry in the queue. */
  lemma {:induction false} CrashAfterQueueing(s: State, job: Job, ran: bool, failure: Failure, now: real, ended: bool, c: Config)
    requires Consistent(s) && Runs(s, Process(job, CrashesAfterEnqueue(ran, failure, now), ended))
    ensures var t := Next(s, Process(job, CrashesAfterEnqueue(ran, failure, now), ended), c);
            var row := s.rows[job.sid];
            && t.rows == s.rows[job.sid := if ran then Row(Running, Executing, row.retry) else row]
            && t.queue == if Retries(s, job, failure, now, c) then Add(s.queue, RetryJob(s, job)) else s.queue
  {
    var l := Logged(s, job, CrashesAfterEnqueue(ran, failure, now));
    LoggedSame(s, job, CrashesAfterEnqueue(ran, failure, now));
    assert s.rows[job.sid := s.rows[job.sid]] == s.rows;
  }

  /** A session's next retry is not the job that is being executed. */
  lemma {:induction false} NextRetryIsNew(s: State, step: Step)
    requires Consistent(s) && Runs(s, step)
    ensures RetryJob(s, step.job).id != step.job.id
  {
    RetryJobIsWellNamed(s, step.job);
  }

  /** A job is delivered until it ends: one that is skipped or has run to its end does when the queue says so,
      one whose worker crashed while executing it never does. */
  lemma {:induction false} DeliveryEnds(s: State, step: Step, c: Config)
    requires Consistent(s) && Delivers(s, step)
    ensures var t := Next(s, step, c); var crashed := step.outcome.Crashes? || step.outcome.CrashesAfterEnqueue?;
            && step.job.id in t.queue
            && t.queue[step.job.id] == if step.ended && (crashed ==> !Runs(s, step)) then Finished(step.job) else Waiting(step.job)
  {
    if Runs(s, step) {
      var l := Logged(s, step.job, step.outcome);
      LoggedSame(s, step.job, step.outcome);
      ExecutedIsLocal(l, step.job, step.outcome, c);
      NextRetryIsNew(s, step);
      assert RetryJob(l, step.job) == RetryJob(s, step.job);
    }
  }

  /** A session whose job fails waits for its next retry if one is due and could be queued and recorded, and
      otherwise has failed; either way it keeps the time of its first failure. */
  lemma {:induction false} FailureOutcome(s: State, job: Job, failure: Failure, now: real, full: bool, enqueued: bool,
          persisted: bool, removed: bool, ended: bool, c: Config)
    requires Runs(s, Process(job, Fails(failure, now, full, enqueued, persisted, removed), ended))
    ensures var t := Next(s, Process(job, Fails(failure, now, full, enqueued, persisted, removed), ended), c);
            var retry := s.rows[job.sid].retry;
            var attempt, since := if retry.Some? then retry.value.attempt else 0, if retry.Some? then retry.value.firstFailureAt else now;
            && job.sid in t.rows
            && t.rows[job.sid]
               == if Decide(failure, attempt, if retry.Some? then Some(since) else None, now, c).Some? && !full && enqueued && persisted
                  then Row(Running, RetryScheduled, Some(Retry(attempt + 1, RetryJobId(job.sid, job.generation, attempt + 1), since)))
                  else Row(Failed, Ended, retry)
  {
    LoggedSame(s, job, Fails(failure, now, full, enqueued, persisted, removed));
  }

  /** A manual retry is begun for a session that has failed or waits for a retry, and for no other. */
  lemma {:induction false} ManualRetryAllowed(s: State, op: nat, sid: Sid, c: Config)
    requires op !in s.retries
    ensures var t := Next(s, ReadForRetry(op, sid), c);
            && (op in t.retries <==>
                  sid in s.rows && (s.rows[sid].status == Failed || (s.rows[sid].status == Running && s.rows[sid].phase == RetryScheduled)))
            && t.rows == s.rows && t.queue == s.queue
  {
  }

  /** What the rest of the system does to a session: only the completion of a subagent forgets the retry, and
      only the guarded failure leaves a session alone that has ended. */
  lemma {:induction false} SessionMoves(s: State, sid: Sid, c: Config)
    requires sid in s.rows
    ensures var row := s.rows[sid];
            && Next(s, KickOffSubagent(sid), c) == s.(rows := s.rows[sid := Row(Running, Executing, row.retry)])
            && Next(s, Cancel(sid), c) == s.(rows := s.rows[sid := Row(Cancelled, Ended, row.retry)])
            && Next(s, Complete(sid), c) == s.(rows := s.rows[sid := Row(Completed, Ended, row.retry)])
            && Next(s, CompleteSubagent(sid), c) == s.(rows := s.rows[sid := Row(Completed, Ended, None)])
            && Next(s, MarkFailed(sid), c) == s.(rows := s.rows[sid := Row(Failed, Ended, row.retry)])
            && Next(s, FailIfNotTerminal(sid), c)
               == (if row.status in {Completed, Failed, Cancelled} then s else s.(rows := s.rows[sid := Row(Failed, Ended, row.retry)]))
            && Next(s, Create(sid), c) == s
  {
  }
}
