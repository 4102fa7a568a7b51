/** What becomes of a due time: who can take it away from the poller that claimed it, and when it is
    lost. A due time is dispatched at most once and not always: the protocol has no retry. */
module ScheduledLosses {
  import opened Text
  import opened ScheduleExpression
  import opened ScheduledDispatch
  import opened ScheduledClaims

  predicate InHand(s: System, p: nat, key: Key) { Awaits(s, p, key) || Holds(s, p, key) }

  /** Claimed, not dispatched, and in no poller's hands. */
  ghost predicate Lost(s: System, key: Key) {
    WasClaimed(s, key) && key !in s.store.started && forall p :: !InHand(s, p, key)
  }

  lemma {:induction false} ClaimedStays(s: System, step: Step, key: Key, cron: CronClock)
    requires WasClaimed(s, key)
    ensures WasClaimed(Next(s, step, cron), key)
  {
    var t := Next(s, step, cron);
    var i :| 0 <= i < |s.claims| && s.claims[i].key == key;
    if t.claims != s.claims {
      ClaimFindsActive(s, step, cron);
      assert t.claims[i] == t.claims[..|s.claims|][i];
    }
    assert t.claims[i].key == key;
  }

  /** A poller comes to a due time only by claiming it, which the row must allow. */
  lemma {:induction false} NewlyAwaited(s: System, step: Step, p: nat, key: Key, cron: CronClock)
    requires Awaits(Next(s, step, cron), p, key) && !Awaits(s, p, key)
    ensures Claimable(s.store.jobs, key.0, key.1)
  {
  }

  lemma {:induction false} NewlyHeld(s: System, step: Step, p: nat, key: Key, cron: CronClock)
    requires Holds(Next(s, step, cron), p, key) && !Holds(s, p, key)
    ensures Awaits(s, p, key)
  {
  }

  lemma {:induction false} NewlyStarted(s: System, step: Step, key: Key, cron: CronClock) returns (p: nat)
    requires key in Next(s, step, cron).store.started && key !in s.store.started
    ensures Holds(s, p, key)
  {
    assert step.Start?;
    p := step.p;
  }

  lemma {:induction false} StepKeepsLost(s: System, step: Step, key: Key, cron: CronClock)
    requires Orderly(s) && Lost(s, key)
    ensures Lost(Next(s, step, cron), key)
  {
    var t := Next(s, step, cron);
    ClaimedStays(s, step, key, cron);
    if key in t.store.started {
      var p := NewlyStarted(s, step, key, cron);
      assert InHand(s, p, key);
      assert false;
    }
    forall p ensures !InHand(t, p, key) {
      assert !InHand(s, p, key);
      if Holds(t, p, key) {
        NewlyHeld(s, step, p, key, cron);
      }
      if Awaits(t, p, key) {
        NewlyAwaited(s, step, p, key, cron);
        assert false;
      }
    }
  }

  lemma {:induction false} LostForGood(s: System, steps: seq<Step>, key: Key, cron: CronClock)
    requires Advances(cron) && Orderly(s) && Lost(s, key) && CarefulRun(s, steps, cron)
    ensures Lost(Run(s, steps, cron), key)
    decreases steps
  {
    if steps != [] {
      StepKeepsLost(s, steps[0], key, cron);
      CarefulKeepsOrderly(s, steps[0], cron);
      LostForGood(Next(s, steps[0], cron), steps[1..], key, cron);
    }
  }

  /** A run from the start in which edits are careful and no run is made by hand. */
  ghost predicate Regular(jobs: map<JobId, Job>, steps: seq<Step>, cron: CronClock) {
    Advances(cron) && CarefulRun(Initial(jobs), steps, cron) && forall x | x in steps :: !x.RunManually?
  }

  /** In such runs a due time that was claimed is in one poller's hands until it is dispatched. */
  lemma {:induction false} OneHand(jobs: map<JobId, Job>, steps: seq<Step>, cron: CronClock, p: nat, key: Key)
    requires Regular(jobs, steps, cron)
    ensures var s := Run(Initial(jobs), steps, cron);
      Orderly(s)
      && (InHand(s, p, key) ==>
            WasClaimed(s, key) && key !in s.store.started && forall q | InHand(s, q, key) :: q == p)
  {
    CarefulRunsAreOrderly(Initial(jobs), steps, cron);
    RunKeepsRuns(Initial(jobs), steps, cron);
    AtMostOneDispatch(Initial(jobs), steps, cron);
  }

  /** Whether a claimed due time is dispatched hangs on its poller: it does so with its next steps, and
      if it crashes before, no run of the system dispatches that due time any more. */
  lemma {:induction false} CrashLosesDueTime(jobs: map<JobId, Job>, steps: seq<Step>, cron: CronClock, p: nat, key: Key,
          answer: EngineAnswer, more: seq<Step>)
    requires Regular(jobs, steps, cron) && InHand(Run(Initial(jobs), steps, cron), p, key)
    ensures var s := Run(Initial(jobs), steps, cron);
      && key in Run(s, if Awaits(s, p, key) then [Insert(p), Start(p, answer)] else [Start(p, answer)], cron).store.started
      && (CarefulRun(Next(s, Crash(p), cron), more, cron) ==>
            key !in Run(Next(s, Crash(p), cron), more, cron).store.started)
  {
    var s := Run(Initial(jobs), steps, cron);
    OneHand(jobs, steps, cron, p, key);
    if Awaits(s, p, key) {
      InsertNeverRefuses(jobs, steps, cron, p, key);
      Dispatches(Next(s, Insert(p), cron), p, key, answer, cron);
      assert [Insert(p), Start(p, answer)][1..] == [Start(p, answer)];
    } else {
      Dispatches(s, p, key, answer, cron);
    }
    var t := Next(s, Crash(p), cron);
    if CarefulRun(t, more, cron) {
      CarefulKeepsOrderly(s, Crash(p), cron);
      ClaimedStays(s, Crash(p), key, cron);
      forall q ensures !InHand(t, q, key) {
        assert InHand(t, q, key) ==> InHand(s, q, key) && q != p;
      }
      LostForGood(t, more, key, cron);
    }
  }

  lemma {:induction false} Dispatches(s: System, p: nat, key: Key, answer: EngineAnswer, cron: CronClock)
    requires Holds(s, p, key)
    ensures Run(s, [Start(p, answer)], cron).store.started == s.store.started + [key]
  {
    RunOne(s, Start(p, answer), cron);
  }

  lemma {:induction false} ManualThenInsert(s: System, p: nat, key: Key, answer: EngineAnswer, cron: CronClock)
    requires Awaits(s, p, key) && key !in s.store.runs && key !in s.store.started
    ensures var m := Next(s, RunManually(key.0, key.1, answer), cron);
      var t := Next(m, Insert(p), cron);
      && t.store == s.store.(runs := t.store.runs) && key in t.store.runs && m.claims == s.claims == t.claims
      && t.store.runs[key] == (if answer == RunId then Running else if answer == NoRun then Skipped else Failed)
      && !InHand(t, p, key) && forall q | q != p :: InHand(t, q, key) <==> InHand(s, q, key)
  {
  }

  /** A run made by hand at a due time that waits for its insert takes its place for good: the run
      table has the answer to the manual start, and polling never starts that due time. */
  lemma {:induction false} ManualRunTakesPlace(jobs: map<JobId, Job>, steps: seq<Step>, cron: CronClock, p: nat, key: Key,
          answer: EngineAnswer, more: seq<Step>)
    requires Regular(jobs, steps, cron) && Awaits(Run(Initial(jobs), steps, cron), p, key)
    ensures var s := Run(Initial(jobs), steps, cron);
      var t := Next(Next(s, RunManually(key.0, key.1, answer), cron), Insert(p), cron);
      && key in t.store.runs && t.store.started == s.store.started
      && t.store.runs[key] == (if answer == RunId then Running else if answer == NoRun then Skipped else Failed)
      && (CarefulRun(t, more, cron) ==> key !in Run(t, more, cron).store.started)
  {
    var s := Run(Initial(jobs), steps, cron);
    var m := Next(s, RunManually(key.0, key.1, answer), cron);
    var t := Next(m, Insert(p), cron);
    assert InHand(s, p, key);
    OneHand(jobs, steps, cron, p, key);
    RunKeepsRuns(Initial(jobs), steps, cron);
    ManualThenInsert(s, p, key, answer, cron);
    assert Lost(t, key);
    if CarefulRun(t, more, cron) {
      CarefulKeepsOrderly(s, RunManually(key.0, key.1, answer), cron);
      CarefulKeepsOrderly(m, Insert(p), cron);
      LostForGood(t, more, key, cron);
    }
  }

  /** A run that is there is not made again by hand. */
  lemma {:induction false} ManualRunKeepsRuns(s: System, key: Key, answer: EngineAnswer, cron: CronClock)
    ensures var t := Next(s, RunManually(key.0, key.1, answer), cron);
      (key in s.store.runs ==> t == s)
      && t.store.jobs == s.store.jobs && t.store.started == s.store.started
      && forall k | k != key :: (k in t.store.runs <==> k in s.store.runs) && (k in s.store.runs ==> t.store.runs[k] == s.store.runs[k])
  {
  }

  /** From the pause of a job to its next resume no poller claims it. */
  lemma {:induction false} PauseStopsClaims(s: System, id: JobId, steps: seq<Step>, cron: CronClock)
    requires id in s.store.jobs && NeverResumed(Next(s, Pause(id), cron), steps, id, cron)
    ensures ClaimsOf(Run(Next(s, Pause(id), cron), steps, cron).claims, id) == ClaimsOf(s.claims, id)
  {
    PausedJobIsNotClaimed(Next(s, Pause(id), cron), steps, id, cron);
  }

  /** A new active job is claimed when it is due; creating one under a name that is taken changes nothing. */
  lemma {:induction false} NewJobIsClaimed(s: System, id: JobId, job: Job, due: int, p: nat, cron: CronClock) returns (steps: seq<Step>)
    requires p !in s.pollers && job.status == Active && job.nextRunAt == Some(due)
    requires job.schedule.Interval? ==> job.schedule.seconds >= 5
    ensures id in s.store.jobs ==> Next(s, Create(id, job), cron) == s
    ensures id !in s.store.jobs ==>
      Run(Next(s, Create(id, job), cron), steps, cron).claims == s.claims + [Claim((id, due), due)]
  {
    steps := [];
    if id !in s.store.jobs {
      steps := PollClaims(Next(s, Create(id, job), cron), id, due, p, cron);
    }
  }

  /** A resume makes the job active and starts its schedule anew; a one-time date that has passed or an
      interval under five seconds is refused. */
  lemma {:induction false} ResumeStartsAnew(s: System, e: nat, now: int, cron: CronClock)
    requires e in s.editors && s.editors[e].id in s.store.jobs
    ensures var id, schedule := s.editors[e].id, s.editors[e].row.schedule;
      var t := Next(s, WriteResume(e, now), cron);
      if (schedule.OneTime? && schedule.at <= now) || (schedule.Interval? && schedule.seconds < 5) then t == s
      else
        && t.store.jobs.Keys == s.store.jobs.Keys && t.store.jobs[id].status == Active
        && t.store.jobs[id].schedule == s.store.jobs[id].schedule
        && t.store.jobs[id].nextRunAt
           == Some(match schedule case OneTime(at) => at case Interval(n) => now + n * 1000 case Cron(x) => cron(x, now))
        && forall other | other in s.store.jobs && other != id :: t.store.jobs[other] == s.store.jobs[other]
  {
  }
}
