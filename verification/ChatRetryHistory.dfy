/** What the logs of a run say: attempts, their number and their time window. The writes of a manual retry
    and the completion of a subagent forget the retry metadata; the laws hold between two such steps. */
module ChatRetryHistory {
  import opened Text
  import opened ChatRetryDecision
  import opened ChatRetryIds
  import opened ChatRetryProtocol
  import opened ChatRetryQueue

  predicate Forgets(step: Step, sid: Sid) {
    match step
    case WriteForRetry(_, x) => x == sid
    case AddForRetry(_, x, _, _, enqueued) => x == sid && !enqueued
    case CompleteSubagent(x) => x == sid
    case _ => false
  }

  predicate Remembers(steps: seq<Step>, sid: Sid) {
    forall i | 0 <= i < |steps| :: !Forgets(steps[i], sid)
  }

  function AttemptsAt(s: State, sid: Sid): nat {
    if sid in s.rows then Attempts(s.rows[sid]) else 0
  }

  function FirstFailureOf(s: State, sid: Sid): Option<real> {
    if sid in s.rows then FirstFailureAt(s.rows[sid]) else None
  }

  /** One execution more, or none: of the pending attempt, which is not pending afterwards. */
  predicate ExecutionStep(s: State, t: State, sid: Sid) {
    || t.executed == s.executed
    || (&& |t.executed| == |s.executed| + 1
        && t.executed[..|s.executed|] == s.executed
        && (t.executed[|s.executed|].sid == sid ==>
              && Pending(s, sid)
              && t.executed[|s.executed|].attempt == AttemptsAt(s, sid)
              && (Pending(t, sid) ==> AttemptsAt(t, sid) == AttemptsAt(s, sid) + 1)))
  }

  predicate Unaffected(s: State, t: State, sid: Sid) {
    && AttemptsAt(t, sid) == AttemptsAt(s, sid)
    && FirstFailureOf(t, sid) == FirstFailureOf(s, sid)
    && (Pending(t, sid) ==> Pending(s, sid))
  }

  /** One scheduling more, of the next attempt, or none and then nothing becomes pending. */
  predicate SchedulingStep(s: State, t: State, sid: Sid, c: Config) {
    || (t.scheduled == s.scheduled && Unaffected(s, t, sid))
    || (&& |t.scheduled| == |s.scheduled| + 1
        && t.scheduled[..|s.scheduled|] == s.scheduled
        && if t.scheduled[|s.scheduled|].sid == sid
           then SchedulesNext(s, t, t.scheduled[|s.scheduled|], c)
           else Unaffected(s, t, sid))
  }

  predicate SchedulesNext(s: State, t: State, x: Scheduling, c: Config) {
    && x.attempt == AttemptsAt(s, x.sid) + 1 == AttemptsAt(t, x.sid)
    && Pending(t, x.sid)
    && FirstFailureOf(t, x.sid) == Some(x.since)
    && (if FirstFailureOf(s, x.sid).None? then x.since == x.at else FirstFailureOf(s, x.sid) == Some(x.since))
    && (x.failure.Overload? ==> x.attempt <= c.maxAttempts)
    && (x.failure.RateLimit? ==> x.at == x.since || x.at - x.since < c.maxDurationMs)
    && !x.failure.Generic?
  }

  lemma {:induction false} Effect(s: State, step: Step, c: Config, sid: Sid)
    requires !Forgets(step, sid)
    ensures ExecutionStep(s, Next(s, step, c), sid)
    ensures SchedulingStep(s, Next(s, step, c), sid, c)
  {
    StepLogs(s, step, c);
    if Runs(s, step) {
      LoggedSame(s, step.job, step.outcome);
      ProcessSchedules(Logged(s, step.job, step.outcome), step.job, step.outcome, c, sid);
      PendingAfter(Logged(s, step.job, step.outcome), step.job, step.outcome, c);
    } else {
      QuietEffect(s, step, c, sid);
    }
  }

  lemma {:induction false} QuietEffect(s: State, step: Step, c: Config, sid: Sid)
    requires !Forgets(step, sid) && !Runs(s, step)
    ensures Next(s, step, c).scheduled == s.scheduled && Unaffected(s, Next(s, step, c), sid)
  {
  }

  /** After an execution its session waits for the next attempt, or for the same as before if the row was
      not touched, or for none. */
  lemma {:induction false} PendingAfter(s: State, job: Job, outcome: Outcome, c: Config)
    requires job.sid in s.rows
    ensures var t := Executed(s, job, outcome, c);
            Pending(t, job.sid) ==> LeavesNoTrace(outcome) || AttemptsAt(t, job.sid) == AttemptsAt(s, job.sid) + 1
  {
  }

  lemma {:induction false} ProcessSchedules(s: State, job: Job, outcome: Outcome, c: Config, sid: Sid)
    requires job.sid in s.rows
    ensures SchedulingStep(s, Executed(s, job, outcome, c), sid, c)
  {
  }

  function CountOf(log: seq<Scheduling>, sid: Sid): nat {
    if log == [] then 0 else CountOf(log[..|log| - 1], sid) + if log[|log| - 1].sid == sid then 1 else 0
  }

  /** The steps from `s` to `t` keep the logs and only raise the number of attempts, by as much as
      retries were scheduled. */
  predicate Counted(s: State, t: State, sid: Sid) {
    && s.executed <= t.executed && s.scheduled <= t.scheduled
    && AttemptsAt(t, sid) - AttemptsAt(s, sid) == CountOf(t.scheduled, sid) - CountOf(s.scheduled, sid) >= 0
  }

  lemma {:induction false} CountStep(s: State, t: State, u: State, sid: Sid, c: Config)
    requires Counted(s, t, sid) && ExecutionStep(t, u, sid) && SchedulingStep(t, u, sid, c)
    ensures Counted(s, u, sid)
  {
  }

  /** The attempts executed since `s` increase, and none of them is still to come. */
  predicate Increasing(s: State, t: State, sid: Sid) {
    && |s.executed| <= |t.executed|
    && (forall i | |s.executed| <= i < |t.executed| && t.executed[i].sid == sid ::
          t.executed[i].attempt <= AttemptsAt(t, sid) && (Pending(t, sid) ==> t.executed[i].attempt < AttemptsAt(t, sid)))
    && (forall i, j | |s.executed| <= i < j < |t.executed| && t.executed[i].sid == sid && t.executed[j].sid == sid ::
          t.executed[i].attempt < t.executed[j].attempt)
  }

  lemma {:induction false} IncreasingStep(s: State, t: State, u: State, sid: Sid, c: Config)
    requires Increasing(s, t, sid) && ExecutionStep(t, u, sid) && SchedulingStep(t, u, sid, c)
    ensures Increasing(s, u, sid)
  {
  }

  /** What is scheduled since `s`: overloads within the number of attempts, rate limits within the
      duration after one first failure. */
  predicate Bounded(s: State, t: State, sid: Sid, c: Config) {
    && |s.scheduled| <= |t.scheduled|
    && (forall i | |s.scheduled| <= i < |t.scheduled| && t.scheduled[i].sid == sid ::
          && FirstFailureOf(t, sid) == Some(t.scheduled[i].since)
          && (t.scheduled[i].failure.Overload? ==> t.scheduled[i].attempt <= c.maxAttempts)
          && (t.scheduled[i].failure.RateLimit? ==>
                t.scheduled[i].at == t.scheduled[i].since || t.scheduled[i].at - t.scheduled[i].since < c.maxDurationMs))
  }

  lemma {:induction false} BoundedStep(s: State, t: State, u: State, sid: Sid, c: Config)
    requires Bounded(s, t, sid, c) && SchedulingStep(t, u, sid, c)
    ensures Bounded(s, u, sid, c)
  {
  }

  lemma {:induction false} History(s: State, steps: seq<Step>, c: Config, sid: Sid)
    requires Remembers(steps, sid)
    ensures Counted(s, Run(s, steps, c), sid)
    ensures Increasing(s, Run(s, steps, c), sid)
    ensures Bounded(s, Run(s, steps, c), sid, c)
    decreases |steps|
  {
    if steps != [] {
      var before, step := steps[..|steps| - 1], steps[|steps| - 1];
      History(s, before, c, sid);
      var t := Run(s, before, c);
      Effect(t, step, c, sid);
      CountStep(s, t, Next(t, step, c), sid, c);
      IncreasingStep(s, t, Next(t, step, c), sid, c);
      BoundedStep(s, t, Next(t, step, c), sid, c);
    }
  }

  /** From any state on, as long as the metadata is not forgotten, the executed attempts of a session
      strictly increase, so no attempt is executed twice, however often its job is delivered. */
  lemma {:induction false} AttemptsIncrease(s: State, steps: seq<Step>, c: Config, sid: Sid, i: nat, j: nat)
    requires Remembers(steps, sid)
    requires |s.executed| <= i < j < |Run(s, steps, c).executed|
    requires Run(s, steps, c).executed[i].sid == sid == Run(s, steps, c).executed[j].sid
    ensures Run(s, steps, c).executed[i].attempt < Run(s, steps, c).executed[j].attempt
  {
    History(s, steps, c, sid);
  }

  predicate NoRateLimit(step: Step, sid: Sid) {
    step.Process? && step.job.sid == sid && step.outcome.Fails? ==> !step.outcome.failure.RateLimit?
  }

  function Larger(x: int, y: int): int {
    if x < y then y else x
  }

  /** Without rate limits a session is given at most the configured number of attempts, and that many
      less the attempts already made are scheduled at most. */
  lemma {:induction false} OverloadsAreCapped(s: State, steps: seq<Step>, c: Config, sid: Sid)
    requires Remembers(steps, sid) && forall i | 0 <= i < |steps| :: NoRateLimit(steps[i], sid)
    ensures AttemptsAt(Run(s, steps, c), sid) <= Larger(AttemptsAt(s, sid), c.maxAttempts)
    ensures CountOf(Run(s, steps, c).scheduled, sid) - CountOf(s.scheduled, sid) <= Larger(0, c.maxAttempts - AttemptsAt(s, sid))
    decreases |steps|
  {
    History(s, steps, c, sid);
    if steps != [] {
      var before, step := steps[..|steps| - 1], steps[|steps| - 1];
      OverloadsAreCapped(s, before, c, sid);
      var t := Run(s, before, c);
      Effect(t, step, c, sid);
      NewSchedulingFailure(t, step, c);
      assert NoRateLimit(step, sid);
    }
  }

  lemma {:induction false} NewSchedulingFailure(s: State, step: Step, c: Config)
    ensures var t := Next(s, step, c);
            |t.scheduled| > |s.scheduled| ==>
              && step.Process? && step.outcome.Fails?
              && t.scheduled[|s.scheduled|].sid == step.job.sid
              && t.scheduled[|s.scheduled|].failure == step.outcome.failure
  {
    if Runs(s, step) {
      LoggedSame(s, step.job, step.outcome);
      ExecutedSchedules(Logged(s, step.job, step.outcome), step.job, step.outcome, c);
    } else {
      NotRunning(s, step, c);
    }
  }

  lemma {:induction false} NotRunning(s: State, step: Step, c: Config)
    requires !Runs(s, step)
    ensures Next(s, step, c).scheduled == s.scheduled
  {
  }

  lemma {:induction false} ExecutedSchedules(s: State, job: Job, outcome: Outcome, c: Config)
    requires job.sid in s.rows
    ensures var t := Executed(s, job, outcome, c);
            t.scheduled == s.scheduled
            || (outcome.Fails? && |t.scheduled| == |s.scheduled| + 1
                && t.scheduled[|s.scheduled|].sid == job.sid && t.scheduled[|s.scheduled|].failure == outcome.failure)
  {
  }

  /** With retries switched off none is ever scheduled. */
  lemma {:induction false} OffSchedulesNothing(s: State, steps: seq<Step>, c: Config)
    requires !c.enabled
    ensures Run(s, steps, c).scheduled == s.scheduled
    decreases |steps|
  {
    if steps != [] {
      var t, step := Run(s, steps[..|steps| - 1], c), steps[|steps| - 1];
      OffSchedulesNothing(s, steps[..|steps| - 1], c);
      if Runs(t, step) {
        LoggedSame(t, step.job, step.outcome);
        OffExecutes(Logged(t, step.job, step.outcome), step.job, step.outcome, c);
      } else {
        NotRunning(t, step, c);
      }
    }
  }

  lemma {:induction false} OffExecutes(s: State, job: Job, outcome: Outcome, c: Config)
    requires job.sid in s.rows && !c.enabled
    ensures Executed(s, job, outcome, c).scheduled == s.scheduled && Executed(s, job, outcome, c).queue == s.queue
  {
  }

  /** The row records this retry as scheduled. */
  predicate WasRecorded(s: State, e: Execution) {
    && e.sid in s.rows && s.rows[e.sid].status == Running && s.rows[e.sid].phase == RetryScheduled
    && s.rows[e.sid].retry.Some? && s.rows[e.sid].retry.value.jobId == e.jobId
    && s.rows[e.sid].retry.value.attempt == e.attempt && AttemptOf(e.jobId) == Some(e.attempt)
  }

  /** Every retry executed in a run was executed at a step before which its session was running, had a
      retry scheduled and named that job and that attempt. */
  lemma {:induction false} ExecutedWasRecorded(steps: seq<Step>, c: Config, i: nat) returns (n: nat)
    requires i < |Run(EMPTY, steps, c).executed|
    ensures n < |steps| && steps[n].Process? && steps[n].job.id == Run(EMPTY, steps, c).executed[i].jobId
    ensures |Run(EMPTY, steps[..n], c).executed| == i && Delivers(Run(EMPTY, steps[..n], c), steps[n])
    ensures WasRecorded(Run(EMPTY, steps[..n], c), Run(EMPTY, steps, c).executed[i])
    decreases |steps|
  {
    var last := |steps| - 1;
    var s := Run(EMPTY, steps[..last], c);
    ProcessLogs(s, steps[last], c);
    if i < |s.executed| {
      n := ExecutedWasRecorded(steps[..last], c, i);
      assert steps[..last][..n] == steps[..n];
    } else {
      n := last;
    }
  }

  lemma {:induction false} ProcessLogs(s: State, step: Step, c: Config)
    ensures var t := Next(s, step, c);
            t.executed != s.executed ==>
              && Delivers(s, step) && |t.executed| == |s.executed| + 1 && t.executed[|s.executed|].jobId == step.job.id
              && WasRecorded(s, t.executed[|s.executed|])
    ensures s.executed <= Next(s, step, c).executed
  {
    StepLogs(s, step, c);
  }

  // ----- where the laws stop -----

  predicate OwnIds(ids: set<string>, sid: Sid, n: nat) {
    forall id | id in ids :: id == sid || exists k: nat | k <= n :: id == RetryJobId(sid, None, k)
  }

  /** The n-th attempt is to come: the first job, or the n-th retry. */
  predicate Upcoming(s: State, sid: Sid, n: nat) {
    && sid in s.rows && AttemptsAt(s, sid) == n && FirstFailureOf(s, sid) == (if n == 0 then None else Some(0.0))
    && OwnIds(s.queue.Keys, sid, n)
    && if n == 0 then sid in s.queue && s.queue[sid] == Waiting(FirstJob(sid)) else Live(s, NthRetry(sid, n))
  }

  function NthRetry(sid: Sid, n: nat): Job {
    Job(RetryJobId(sid, None, n), sid, None)
  }

  lemma {:induction false} NextIdIsNew(ids: set<string>, sid: Sid, n: nat)
    requires OwnIds(ids, sid, n)
    ensures RetryJobId(sid, None, n + 1) !in ids
    ensures OwnIds(ids + {RetryJobId(sid, None, n + 1)}, sid, n + 1)
  {
    PlainIdsAreNot(sid);
    RetryIdsAreRetryIds(sid, None, n + 1);
    forall k: nat | k <= n ensures RetryJobId(sid, None, k) != RetryJobId(sid, None, n + 1) {
      if RetryJobId(sid, None, k) == RetryJobId(sid, None, n + 1) {
        IdsNameJobs(sid, None, k, None, n + 1);
      }
    }
  }

  function AttemptJob(sid: Sid, n: nat): Job {
    if n == 0 then FirstJob(sid) else NthRetry(sid, n)
  }

  function RateLimited(sid: Sid, n: nat): Step {
    Process(AttemptJob(sid, n), Fails(RateLimit(None), 0.0, false, true, true, false), true)
  }

  lemma {:induction false} RateLimitRecords(s: State, sid: Sid, n: nat, c: Config)
    requires c.enabled && c.maxDurationMs > 0.0 && Upcoming(s, sid, n)
    ensures Records(s, RateLimited(sid, n), c)
  {
    PlainIdsAreNot(sid);
  }

  /** What is recorded under an id that is new to the queue is live. */
  lemma {:induction false} NewIsLive(s: State, step: Step, c: Config)
    requires Records(s, step, c) && RetryJob(s, step.job).id !in s.queue
    ensures Live(Next(s, step, c), RetryJob(s, step.job))
  {
    RetryJobIsWellNamed(s, step.job);
    RecordsStep(s, step, c);
    RecordsRow(s, step, c);
  }

  lemma {:induction false} OneMore(s: State, sid: Sid, n: nat, c: Config)
    requires c.enabled && c.maxDurationMs > 0.0 && Upcoming(s, sid, n)
    ensures Upcoming(Next(s, RateLimited(sid, n), c), sid, n + 1)
  {
    var step := RateLimited(sid, n);
    RateLimitRecords(s, sid, n, c);
    NextIdIsNew(s.queue.Keys, sid, n);
    assert RetryJob(s, step.job) == NthRetry(sid, n + 1);
    RecordsStep(s, step, c);
    RecordsRow(s, step, c);
    NewIsLive(s, step, c);
  }

  lemma {:induction false} RecordsRow(s: State, step: Step, c: Config)
    requires Records(s, step, c)
    ensures var t, sid := Next(s, step, c), step.job.sid;
            && sid in t.rows && t.rows[sid].status == Running && AttemptsAt(t, sid) == AttemptsAt(s, sid) + 1
            && FirstFailureOf(t, sid) == if FirstFailureOf(s, sid).Some? then FirstFailureOf(s, sid) else Some(step.outcome.now)
  {
  }

  /** Rate limits alone are retried any number of times, whatever the number of attempts allowed. */
  lemma {:induction false} RateLimitsAreUncapped(sid: Sid, c: Config, n: nat) returns (steps: seq<Step>)
    requires c.enabled && c.maxDurationMs > 0.0
    ensures Remembers(steps, sid) && Upcoming(Run(EMPTY, steps, c), sid, n)
  {
    if n == 0 {
      StartStarts(sid, c);
      steps := Start(sid);
    } else {
      var before := RateLimitsAreUncapped(sid, c, n - 1);
      OneMore(Run(EMPTY, before, c), sid, n - 1, c);
      RunAppend(EMPTY, before, RateLimited(sid, n - 1), c);
      steps := before + [RateLimited(sid, n - 1)];
    }
  }
}
