/** When the id of a retry is new to the queue, so that its job is added: over all runs in which no attempt is
    queued without being recorded and no stale job is processed. */
module ChatRetryFreshness {
  import opened Text
  import opened ChatRetryDecision
  import opened ChatRetryIds
  import opened ChatRetryProtocol
  import opened ChatRetryQueue
  import opened ChatRetryGenerations

  /** The step queues a retry that it does not record, and leaves the job there. */
  predicate LeavesOrphan(s: State, step: Step, c: Config) {
    && Runs(s, step)
    && match step.outcome
       case CrashesAfterEnqueue(_, failure, now) => Retries(s, step.job, failure, now, c)
       case Fails(failure, now, capacityFull, enqueued, persisted, removed) =>
         Retries(s, step.job, failure, now, c) && !capacityFull && enqueued && !persisted && !removed
       case _ => false
  }

  predicate NoOrphans(steps: seq<Step>, c: Config) {
    steps == [] ||
    var before := steps[..|steps| - 1];
    NoOrphans(before, c) && !LeavesOrphan(Run(EMPTY, before, c), steps[|steps| - 1], c)
  }

  predicate OfGeneration(job: Job, current: Current, sid: Sid) {
    job.sid == sid && IsRetryId(job.id) && current == Current(job.generation)
  }

  /** Every attempt of the current generation that the queue holds is counted. */
  predicate Covers(retry: Option<Retry>, queue: Queue, current: Current, sid: Sid) {
    forall id | id in queue && OfGeneration(queue[id].job, current, sid) :: Counted(retry, queue[id].job)
  }

  predicate Counted(retry: Option<Retry>, job: Job) {
    retry.Some? && AttemptOf(job.id).Some? && AttemptOf(job.id).value <= retry.value.attempt
  }

  function RetryOf(s: State, sid: Sid): Option<Retry> {
    if sid in s.rows then s.rows[sid].retry else None
  }

  /** So does a row that a manual retry has written over, for the generation that is being replaced. */
  predicate Covered(s: State, current: Current, sid: Sid) {
    && Covers(RetryOf(s, sid), s.queue, current, sid)
    && (forall op | op in s.retries && Writes(s, op, sid) ::
          current.Replacing? && Covers(s.retries[op].stage.over.retry, s.queue, current.before, sid))
  }

  /** Nothing of the session's retries is added to the queue. */
  predicate AddsNone(q: Queue, r: Queue, sid: Sid) {
    forall id | id in r :: (id in q && r[id].job == q[id].job) || r[id].job.sid != sid || !IsRetryId(r[id].job.id)
  }

  lemma {:induction false} CoversFewer(retry: Option<Retry>, later: Option<Retry>, q: Queue, r: Queue, current: Current, sid: Sid)
    requires Covers(retry, q, current, sid) && AddsNone(q, r, sid)
    requires later == retry || (later.Some? && (retry.Some? ==> later.value.attempt >= retry.value.attempt))
    ensures Covers(later, r, current, sid)
  {
  }

  lemma {:induction false} ExecutedAdds(s: State, job: Job, outcome: Outcome, c: Config)
    requires job.sid in s.rows
    ensures var t := Executed(s, job, outcome, c);
            forall id | id in t.queue :: (id in s.queue && t.queue[id] == s.queue[id]) || t.queue[id].job == RetryJob(s, job)
  {
  }

  /** A delivery that leaves no orphan adds a retry only when it records it. */
  lemma {:induction false} ExecutedAddsRecorded(s: State, step: Step, c: Config)
    requires Runs(s, step) && !LeavesOrphan(s, step, c) && !Records(s, step, c)
    ensures var t := Executed(s, step.job, step.outcome, c);
            forall id | id in t.queue :: id in s.queue && t.queue[id] == s.queue[id]
  {
  }

  lemma {:induction false} ProcessAdds(s: State, step: Step, c: Config)
    requires Delivers(s, step)
    ensures var t := Next(s, step, c);
            forall id | id in t.queue ::
              || (id in s.queue && t.queue[id].job == s.queue[id].job)
              || (Runs(s, step) && t.queue[id].job == RetryJob(s, step.job) && (LeavesOrphan(s, step, c) || Records(s, step, c)))
  {
    if Runs(s, step) {
      var l := Logged(s, step.job, step.outcome);
      LoggedSame(s, step.job, step.outcome);
      ExecutedAdds(l, step.job, step.outcome, c);
      if !LeavesOrphan(s, step, c) && !Records(s, step, c) {
        ExecutedAddsRecorded(l, step, c);
      }
    }
  }

  lemma {:induction false} RecordsAttempt(s: State, step: Step, c: Config)
    requires Records(s, step, c)
    ensures var t, sid := Next(s, step, c), step.job.sid;
            sid in t.rows && t.rows[sid].retry.Some? && t.rows[sid].retry.value.attempt == Attempts(s.rows[sid]) + 1
  {
  }

  /** A delivery keeps the attempts of a session or counts more. */
  lemma {:induction false} ProcessAttempts(s: State, step: Step, c: Config, sid: Sid)
    requires Delivers(s, step)
    ensures var t := Next(s, step, c);
            var r, u := RetryOf(s, sid), RetryOf(t, sid);
            t.retries == s.retries && (u == r || (u.Some? && (r.Some? ==> u.value.attempt >= r.value.attempt)))
  {
    ExecutedRetries(s, step, c);
    if sid != step.job.sid {
      ProcessedOthers(s, step, c, sid);
    } else if Runs(s, step) {
      LoggedSame(s, step.job, step.outcome);
      ExecutedRow(Logged(s, step.job, step.outcome), step.job, step.outcome, c);
    }
  }

  /** Recording an attempt of the current generation counts it. */
  lemma {:induction false} RecordIsCovered(s: State, current: Current, step: Step, sid: Sid, c: Config)
    requires Consistent(s) && Kept(s, current, sid) && Covered(s, current, sid)
    requires Records(s, step, c) && step.job.sid == sid && !Stale(current, step, sid)
    ensures Covered(Next(s, step, c), current, sid)
  {
    var t := Next(s, step, c);
    JobIsCurrent(s, current, step, sid);
    ExecutedRetries(s, step, c);
    ProcessAdds(s, step, c);
    RecordsAttempt(s, step, c);
    RetryJobIsWellNamed(s, step.job);
    forall id | id in t.queue && OfGeneration(t.queue[id].job, current, sid) ensures Counted(RetryOf(t, sid), t.queue[id].job) {
      if id in s.queue && t.queue[id].job == s.queue[id].job {
        assert Counted(RetryOf(s, sid), s.queue[id].job);
      }
    }
  }

  lemma {:induction false} ProcessIsCovered(s: State, current: Current, step: Step, sid: Sid, c: Config)
    requires Consistent(s) && Kept(s, current, sid) && Covered(s, current, sid)
    requires step.Process? && !Stale(current, step, sid) && !LeavesOrphan(s, step, c)
    ensures Covered(Next(s, step, c), current, sid)
  {
    if Records(s, step, c) && step.job.sid == sid {
      RecordIsCovered(s, current, step, sid, c);
    } else if Delivers(s, step) {
      ProcessAdds(s, step, c);
      ProcessAttempts(s, step, c, sid);
      AddingNoneIsCovered(s, Next(s, step, c), current, sid);
    }
  }

  lemma {:induction false} AddingNoneIsCovered(s: State, t: State, current: Current, sid: Sid)
    requires Covered(s, current, sid) && AddsNone(s.queue, t.queue, sid)
    requires forall op | op in t.retries && Writes(t, op, sid) :: op in s.retries && t.retries[op] == s.retries[op]
    requires var r, u := RetryOf(s, sid), RetryOf(t, sid); u == r || (u.Some? && (r.Some? ==> u.value.attempt >= r.value.attempt))
    ensures Covered(t, current, sid)
  {
    CoversFewer(RetryOf(s, sid), RetryOf(t, sid), s.queue, t.queue, current, sid);
    forall op | op in t.retries && Writes(t, op, sid)
      ensures current.Replacing? && Covers(t.retries[op].stage.over.retry, t.queue, current.before, sid)
    {
      var over := s.retries[op].stage.over.retry;
      assert Writes(s, op, sid);
      CoversFewer(over, over, s.queue, t.queue, current.before, sid);
    }
  }

  /** A step that is no delivery adds no retry to the queue. */
  lemma {:induction false} OtherStepAdds(s: State, step: Step, c: Config, sid: Sid)
    requires !step.Process?
    ensures AddsNone(s.queue, Next(s, step, c).queue, sid)
  {
    if step.AddForRetry? {
      ManualIdsAreNot(step.sid, step.at);
    }
  }

  /** A generation that is new has no retries yet. */
  lemma {:induction false} NewGeneration(s: State, steps: seq<Step>, sid: Sid, now: nat)
    requires Consistent(s) && Dated(s, steps, sid) && !RetriedAt(steps, sid, now)
    ensures Covers(None, s.queue, Current(Some(now)), sid)
  {
    forall id | id in s.queue ensures !OfGeneration(s.queue[id].job, Current(Some(now)), sid) {
      assert s.queue[id].job in s.sent;
    }
  }

  lemma {:induction false} WriteIsCovered(s: State, current: Current, op: nat, sid: Sid, c: Config)
    requires Covered(s, current, sid) && Tidy(s, WriteForRetry(op, sid), sid) && Reads(s, op, sid)
    ensures Covered(Next(s, WriteForRetry(op, sid), c), Replacing(current), sid)
  {
  }

  /** The new generation has no attempts, and no other manual retry of the session stands at its write. */
  lemma {:induction false} AddIsCovered(s: State, current: Current, steps: seq<Step>, step: Step, sid: Sid, c: Config)
    requires Consistent(s) && Kept(s, current, sid) && Dated(s, steps, sid)
    requires step.AddForRetry? && step.sid == sid && Writes(s, step.op, sid) && step.enqueued && !RetriedAt(steps, sid, step.now)
    ensures Covered(Next(s, step, c), Current(Some(step.now)), sid)
  {
    var t := Next(s, step, c);
    OtherStepAdds(s, step, c, sid);
    NewGeneration(s, steps, sid, step.now);
    CoversFewer(None, RetryOf(t, sid), s.queue, t.queue, Current(Some(step.now)), sid);
    OnlyOneWrites(s, t, current, step.op, sid);
  }

  lemma {:induction false} OnlyOneWrites(s: State, t: State, current: Current, op: nat, sid: Sid)
    requires Kept(s, current, sid) && op in s.retries && Writes(s, op, sid) && !Writes(t, op, sid)
    requires forall x | x != op :: x in t.retries ==> x in s.retries && t.retries[x] == s.retries[x]
    ensures forall x | x in t.retries :: !Writes(t, x, sid)
  {
  }

  lemma {:induction false} RollbackIsCovered(s: State, current: Current, step: Step, sid: Sid, c: Config)
    requires Kept(s, current, sid) && Covered(s, current, sid) && Tidy(s, step, sid)
    requires step.AddForRetry? && step.sid == sid && Writes(s, step.op, sid) && !step.enqueued
    ensures Covered(Next(s, step, c), CurrentAfterStep(s, current, step, sid), sid)
  {
    OnlyOneWrites(s, Next(s, step, c), current, step.op, sid);
  }

  /** Any other step that is no delivery keeps or drops the attempts, and touches no write of the session. */
  lemma {:induction false} RowStepIsCovered(s: State, current: Current, step: Step, sid: Sid, c: Config)
    requires Covered(s, current, sid) && !step.Process?
    requires step.WriteForRetry? ==> !(step.sid == sid && Reads(s, step.op, sid))
    requires step.AddForRetry? ==> !(step.sid == sid && Writes(s, step.op, sid))
    ensures Covered(Next(s, step, c), CurrentAfterStep(s, current, step, sid), sid)
  {
    var t := Next(s, step, c);
    OtherStepAdds(s, step, c, sid);
    if step.CompleteSubagent? && step.sid == sid && sid in s.rows {
      ForgottenIsCovered(s, current, t, sid);
    } else {
      RetryStays(s, step, sid, c);
      AddingNoneIsCovered(s, t, current, sid);
    }
  }

  lemma {:induction false} RetryStays(s: State, step: Step, sid: Sid, c: Config)
    requires !step.Process? && !(step.CompleteSubagent? && step.sid == sid && sid in s.rows)
    requires step.WriteForRetry? ==> !(step.sid == sid && Reads(s, step.op, sid))
    requires step.AddForRetry? ==> !(step.sid == sid && Writes(s, step.op, sid))
    ensures var t := Next(s, step, c);
            && RetryOf(t, sid) == RetryOf(s, sid)
            && forall op | op in t.retries && Writes(t, op, sid) :: op in s.retries && t.retries[op] == s.retries[op]
  {
  }

  lemma {:induction false} ForgottenIsCovered(s: State, current: Current, t: State, sid: Sid)
    requires Covered(s, current, sid) && t.queue == s.queue && t.retries == s.retries && RetryOf(t, sid) == None
    ensures Covered(t, if current.Replacing? then current else Forgotten, sid)
  {
  }

  lemma {:induction false} StepIsCovered(s: State, current: Current, steps: seq<Step>, step: Step, sid: Sid, c: Config)
    requires Consistent(s) && Kept(s, current, sid) && Covered(s, current, sid) && Dated(s, steps, sid)
    requires Tidy(s, step, sid) && !Stale(current, step, sid) && !LeavesOrphan(s, step, c)
    requires step.AddForRetry? && step.sid == sid ==> !RetriedAt(steps, sid, step.now)
    ensures Covered(Next(s, step, c), CurrentAfterStep(s, current, step, sid), sid)
  {
    if step.Process? {
      ProcessIsCovered(s, current, step, sid, c);
    } else if step.WriteForRetry? && step.sid == sid && Reads(s, step.op, sid) {
      WriteIsCovered(s, current, step.op, sid, c);
    } else if step.AddForRetry? && step.sid == sid && Writes(s, step.op, sid) {
      if step.enqueued {
        AddIsCovered(s, current, steps, step, sid, c);
      } else {
        RollbackIsCovered(s, current, step, sid, c);
      }
    } else {
      RowStepIsCovered(s, current, step, sid, c);
    }
  }

  /** Manual retries are tidy and made at different times, no stale job is processed, no orphan is left. */
  predicate Orderly(steps: seq<Step>, sid: Sid, c: Config) {
    DistinctTimes(steps, sid) && NeverStale(steps, sid, c) && AlwaysTidy(steps, sid, c) && NoOrphans(steps, c)
  }

  lemma {:induction false} OrderlyIsCovered(steps: seq<Step>, sid: Sid, c: Config)
    requires Orderly(steps, sid, c)
    ensures Covered(Run(EMPTY, steps, c), CurrentAfter(steps, sid, c), sid)
    decreases |steps|
  {
    if steps != [] {
      var before, step := steps[..|steps| - 1], steps[|steps| - 1];
      OrderlyIsCovered(before, sid, c);
      NeverStaleIsKept(before, sid, c);
      ReachableIsConsistent(before, c);
      StepIsCovered(Run(EMPTY, before, c), CurrentAfter(before, sid, c), before, step, sid, c);
    }
  }

  lemma {:induction false} NextIsNotHeld(s: State, current: Current, job: Job)
    requires Consistent(s) && Covered(s, current, job.sid) && current == Current(job.generation) && job.sid in s.rows
    ensures RetryJob(s, job).id !in s.queue
  {
    var retry := RetryJob(s, job);
    RetryJobIsWellNamed(s, job);
    if retry.id in s.queue {
      SameIdSameJob(s.queue[retry.id].job, retry);
    }
  }

  /** In an orderly run every retry that is recorded has an id the queue does not hold, so its job is added
      and will be executed. */
  lemma {:induction false} RecordedIdIsFresh(before: seq<Step>, step: Step, c: Config)
    requires Records(Run(EMPTY, before, c), step, c)
    requires Orderly(before, step.job.sid, c) && !Stale(CurrentAfter(before, step.job.sid, c), step, step.job.sid)
    ensures var s := Run(EMPTY, before, c);
            RetryJob(s, step.job).id !in s.queue && Live(Next(s, step, c), RetryJob(s, step.job))
  {
    var s, sid := Run(EMPTY, before, c), step.job.sid;
    var current := CurrentAfter(before, sid, c);
    OrderlyIsCovered(before, sid, c);
    NeverStaleIsKept(before, sid, c);
    ReachableIsConsistent(before, c);
    JobIsCurrent(s, current, step, sid);
    NextIsNotHeld(s, current, step.job);
    RecordingIsLive(before, step, c);
  }

  lemma {:induction false} OrderlyBefore(steps: seq<Step>, sid: Sid, c: Config)
    requires steps != [] && Orderly(steps, sid, c)
    ensures var before := steps[..|steps| - 1];
            Orderly(before, sid, c) && !Stale(CurrentAfter(before, sid, c), steps[|steps| - 1], sid)
  {
  }

  /** So orderly runs in which no step but a delivery is unsafe keep every scheduled retry in the queue. */
  lemma {:induction false} OrderlyRunsAreSafe(steps: seq<Step>, c: Config)
    requires forall sid: Sid :: Orderly(steps, sid, c)
    requires forall n | 0 <= n < |steps| && !steps[n].Process? :: Safe(Run(EMPTY, steps[..n], c), steps[n], c)
    ensures SafeRun(steps, c)
    decreases |steps|
  {
    if steps != [] {
      var before, step := steps[..|steps| - 1], steps[|steps| - 1];
      assert forall n | 0 <= n < |before| :: before[..n] == steps[..n];
      forall sid: Sid ensures Orderly(before, sid, c) {
        OrderlyBefore(steps, sid, c);
      }
      OrderlyRunsAreSafe(before, c);
      if step.Process? && Records(Run(EMPTY, before, c), step, c) {
        OrderlyBefore(steps, step.job.sid, c);
        RecordedIdIsFresh(before, step, c);
      }
    }
  }
}
