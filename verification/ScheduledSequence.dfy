/** Which due times a job that is not edited is claimed at: all of them follow from its first next run. */
module ScheduledSequence {
  import opened Text
  import opened ScheduleExpression
  import opened ScheduledDispatch

  /** The next run after a claim: none for a one-time job, the next firing after the claimed due time for a
      cron job, and for an interval job the first point of the claimed due time's grid that lies after that
      time and after the clock of the poll. */
  ghost predicate Follows(schedule: Schedule, c: Claim, next: Option<int>, cron: CronClock) {
    match schedule
    case OneTime(_) => next == None
    case Cron(e) => next == Some(cron(e, c.key.1))
    case Interval(n) =>
      && next.Some? && OnGrid(next.value, c.key.1, n * 1000) && next.value > c.now && next.value > c.key.1
      && forall k | k >= 1 && GridPoint(c.key.1, n * 1000, k) > c.now :: next.value <= GridPoint(c.key.1, n * 1000, k)
  }

  lemma {:induction false} AdvanceFollows(schedule: Schedule, c: Claim, cron: CronClock)
    requires NextAfterExecution(schedule, c.now, c.key.1, cron).Some?
    ensures Follows(schedule, c, NextAfterExecution(schedule, c.now, c.key.1, cron).value, cron)
  {
    if schedule.Interval? {
      NextIsLeastGridPoint(schedule.seconds, c.now, c.key.1, cron);
    }
  }

  /** The claims start at the first next run, each follows from the one before, and the next run from the last. */
  ghost predicate Chained(schedule: Schedule, first: Option<int>, cs: seq<Claim>, next: Option<int>, cron: CronClock) {
    if cs == [] then next == first
    else
      && first == Some(cs[0].key.1)
      && (forall i | 0 <= i < |cs| - 1 :: Follows(schedule, cs[i], Some(cs[i + 1].key.1), cron))
      && Follows(schedule, cs[|cs| - 1], next, cron)
  }

  lemma {:induction false} OneMoreClaim(schedule: Schedule, first: Option<int>, cs: seq<Claim>, c: Claim,
          next: Option<int>, cron: CronClock)
    requires Chained(schedule, first, cs, Some(c.key.1), cron) && Follows(schedule, c, next, cron)
    ensures Chained(schedule, first, cs + [c], next, cron)
  {
    var ds := cs + [c];
    forall i | 0 <= i < |ds| - 1 ensures Follows(schedule, ds[i], Some(ds[i + 1].key.1), cron) {
      assert ds[i] == cs[i] && (i + 1 < |cs| ==> ds[i + 1] == cs[i + 1]);
    }
  }

  /** An edit of the job, if any, leaves its schedule and its next run. */
  predicate Leaves(s: System, step: Step, id: JobId, cron: CronClock) {
    Edits(step) && step.e in s.editors && s.editors[step.e].id == id && WrittenRow(s, step, cron).Some? ==>
      && WrittenRow(s, step, cron).value.schedule == s.store.jobs[id].schedule
      && WrittenRow(s, step, cron).value.nextRunAt == s.store.jobs[id].nextRunAt
  }

  predicate LeftAlone(s: System, steps: seq<Step>, id: JobId, cron: CronClock)
    decreases steps
  {
    steps == [] || (Leaves(s, steps[0], id, cron) && LeftAlone(Next(s, steps[0], cron), steps[1..], id, cron))
  }

  predicate Reading(s: System, p: nat, r: Read) { p in s.pollers && r in s.pollers[p].rest }

  /** The job has this schedule, and so has every row of it that a poller still holds. */
  ghost predicate Scheduled(s: System, id: JobId, schedule: Schedule) {
    && id in s.store.jobs && s.store.jobs[id].schedule == schedule
    && forall p, r | Reading(s, p, r) && r.id == id :: r.row.schedule == schedule
  }

  lemma {:induction false} NewReads(s: System, step: Step, cron: CronClock, id: JobId)
    ensures forall p, r | Reading(Next(s, step, cron), p, r) && r.id == id ::
              Reading(s, p, r) || (id in s.store.jobs && r.row == s.store.jobs[id])
  {
    var t := Next(s, step, cron);
    forall p, r | Reading(t, p, r) && r.id == id && !Reading(s, p, r) ensures id in s.store.jobs && r.row == s.store.jobs[id] {
      assert step.Poll? && p == step.p && r in ReadRows(s.store.jobs, step.ids, step.now);
    }
  }

  lemma {:induction false} StaysScheduled(s: System, step: Step, id: JobId, schedule: Schedule, cron: CronClock)
    requires Scheduled(s, id, schedule) && Leaves(s, step, id, cron)
    ensures Scheduled(Next(s, step, cron), id, schedule)
  {
    NewReads(s, step, cron, id);
  }

  /** A step claims the job at its next run, which moves on as the schedule says, or leaves both. */
  lemma {:induction false} StepFollows(s: System, step: Step, id: JobId, schedule: Schedule, cron: CronClock)
    requires Scheduled(s, id, schedule) && Leaves(s, step, id, cron)
    ensures var t := Next(s, step, cron);
            var before, after := s.store.jobs[id].nextRunAt, t.store.jobs[id].nextRunAt;
            || (t.claims == s.claims && after == before)
            || (|t.claims| == |s.claims| + 1 && t.claims == s.claims + [t.claims[|s.claims|]]
                && var c := t.claims[|s.claims|];
                   if c.key.0 == id then before == Some(c.key.1) && Follows(schedule, c, after, cron) else after == before)
  {
    StaysScheduled(s, step, id, schedule, cron);
    if step.TryClaim? {
      ClaimFollows(s, step.p, id, schedule, cron);
    }
  }

  lemma {:induction false} ClaimFollows(s: System, p: nat, id: JobId, schedule: Schedule, cron: CronClock)
    requires Scheduled(s, id, schedule) && id in Next(s, TryClaim(p), cron).store.jobs
    ensures var t := Next(s, TryClaim(p), cron);
            var before, after := s.store.jobs[id].nextRunAt, t.store.jobs[id].nextRunAt;
            || (t.claims == s.claims && after == before)
            || (|t.claims| == |s.claims| + 1 && t.claims == s.claims + [t.claims[|s.claims|]]
                && var c := t.claims[|s.claims|];
                   if c.key.0 == id then before == Some(c.key.1) && Follows(schedule, c, after, cron) else after == before)
  {
    var t := Next(s, TryClaim(p), cron);
    if t != s && s.pollers[p].rest[0].row.nextRunAt.Some? {
      var w := s.pollers[p];
      var head, due := w.rest[0], w.rest[0].row.nextRunAt.value;
      assert Reading(s, p, head);
      var next := NextAfterExecution(head.row.schedule, w.now, due, cron);
      if next.Some? {
        AdvanceFollows(head.row.schedule, Claim((head.id, due), w.now), cron);
      }
    }
  }

  lemma {:induction false} ClaimsOfMore(claims: seq<Claim>, c: Claim, id: JobId)
    ensures ClaimsOf(claims + [c], id) == ClaimsOf(claims, id) + (if c.key.0 == id then [c] else [])
  {
    assert (claims + [c])[..|claims|] == claims;
  }

  /** However pollers, stale batches, pauses, manual runs and edits of other jobs interleave: as long as no edit
      changes the job's schedule or next run, the due times it is claimed at are its next run at the start and
      then those its schedule gives, one after the other, none left out and none twice. */
  lemma {:induction false} JobFollowsSchedule(s: System, steps: seq<Step>, id: JobId, schedule: Schedule, earlier: seq<Claim>,
          first: Option<int>, cron: CronClock)
    requires Scheduled(s, id, schedule) && LeftAlone(s, steps, id, cron)
    requires earlier <= s.claims
    requires Chained(schedule, first, ClaimsOf(s.claims[|earlier|..], id), s.store.jobs[id].nextRunAt, cron)
    ensures var t := Run(s, steps, cron);
            && earlier <= t.claims && id in t.store.jobs
            && Chained(schedule, first, ClaimsOf(t.claims[|earlier|..], id), t.store.jobs[id].nextRunAt, cron)
    decreases steps
  {
    if steps != [] {
      var t := Next(s, steps[0], cron);
      StaysScheduled(s, steps[0], id, schedule, cron);
      StepFollows(s, steps[0], id, schedule, cron);
      if t.claims != s.claims {
        var c := t.claims[|s.claims|];
        assert t.claims[|earlier|..] == s.claims[|earlier|..] + [c];
        ClaimsOfMore(s.claims[|earlier|..], c, id);
        if c.key.0 == id {
          OneMoreClaim(schedule, first, ClaimsOf(s.claims[|earlier|..], id), c, t.store.jobs[id].nextRunAt, cron);
        }
      }
      JobFollowsSchedule(t, steps[1..], id, schedule, earlier, first, cron);
    }
  }

  /** The claims of a job made in a run. */
  function NewClaims(s: System, steps: seq<Step>, id: JobId, cron: CronClock): seq<Claim> {
    var claims := Run(s, steps, cron).claims;
    ClaimsOf(if |s.claims| <= |claims| then claims[|s.claims|..] else [], id)
  }

  lemma {:induction false} ClaimsFollowSchedule(s: System, steps: seq<Step>, id: JobId, cron: CronClock)
    requires id in s.store.jobs && Scheduled(s, id, s.store.jobs[id].schedule) && LeftAlone(s, steps, id, cron)
    ensures id in Run(s, steps, cron).store.jobs
    ensures Chained(s.store.jobs[id].schedule, s.store.jobs[id].nextRunAt, NewClaims(s, steps, id, cron),
                    Run(s, steps, cron).store.jobs[id].nextRunAt, cron)
  {
    assert s.claims[|s.claims|..] == [];
    JobFollowsSchedule(s, steps, id, s.store.jobs[id].schedule, s.claims, s.store.jobs[id].nextRunAt, cron);
  }

  lemma {:induction false} NothingFollows(schedule: Schedule, c: Claim, t: int, cron: CronClock)
    requires schedule.OneTime?
    ensures !Follows(schedule, c, Some(t), cron)
  {
  }

  /** A one-time job is claimed at most once, at its next run, and then has none. */
  lemma {:induction false} OneTimeRunsOnce(s: System, steps: seq<Step>, id: JobId, cron: CronClock)
    requires id in s.store.jobs && s.store.jobs[id].schedule.OneTime?
    requires Scheduled(s, id, s.store.jobs[id].schedule) && LeftAlone(s, steps, id, cron)
    ensures id in Run(s, steps, cron).store.jobs
    ensures var cs := NewClaims(s, steps, id, cron);
            && |cs| <= 1
            && (|cs| == 1 ==> s.store.jobs[id].nextRunAt == Some(cs[0].key.1) && Run(s, steps, cron).store.jobs[id].nextRunAt == None)
  {
    ClaimsFollowSchedule(s, steps, id, cron);
    var cs := NewClaims(s, steps, id, cron);
    if |cs| >= 2 {
      NothingFollows(s.store.jobs[id].schedule, cs[0], cs[1].key.1, cron);
    }
  }

  /** A cron job is next claimed at the firing after the due time it was claimed at before. */
  lemma {:induction false} CronFollowsFirings(s: System, steps: seq<Step>, id: JobId, cron: CronClock, i: nat)
    requires id in s.store.jobs && s.store.jobs[id].schedule.Cron?
    requires Scheduled(s, id, s.store.jobs[id].schedule) && LeftAlone(s, steps, id, cron)
    requires i + 1 < |NewClaims(s, steps, id, cron)|
    ensures var cs := NewClaims(s, steps, id, cron);
            cs[i + 1].key.1 == cron(s.store.jobs[id].schedule.expression, cs[i].key.1)
  {
    ClaimsFollowSchedule(s, steps, id, cron);
    var cs := NewClaims(s, steps, id, cron);
    assert Follows(s.store.jobs[id].schedule, cs[i], Some(cs[i + 1].key.1), cron);
  }

  // ----- from the edit that sets the schedule -----

  /** When a schedule that is set at this moment runs first. */
  function FirstRun(schedule: Schedule, now: int, cron: CronClock): int {
    match schedule
    case OneTime(at) => at
    case Interval(n) => now + n * 1000
    case Cron(e) => cron(e, now)
  }

  /** An active job whose schedule is updated is claimed from then on as the new schedule says: a one-time job
      once, at its time; an update with a time that is past or an interval that is too short changes nothing. */
  lemma {:induction false} UpdateSetsSchedule(s: System, e: nat, schedule: Schedule, now: int, steps: seq<Step>, cron: CronClock)
    requires e in s.editors && s.editors[e].id in s.store.jobs && s.editors[e].row.status == Active
    requires var id := s.editors[e].id; forall p, r | Reading(s, p, r) :: r.id != id
    ensures var t := Next(s, WriteUpdate(e, Some(schedule), now), cron);
            var id := s.editors[e].id;
            if (schedule.OneTime? && schedule.at <= now) || (schedule.Interval? && schedule.seconds < 5) then t == s
            else
              && t.store.jobs[id].schedule == schedule && t.store.jobs[id].status == s.store.jobs[id].status
              && (LeftAlone(t, steps, id, cron) ==>
                    && id in Run(t, steps, cron).store.jobs
                    && Chained(schedule, Some(FirstRun(schedule, now, cron)), NewClaims(t, steps, id, cron),
                               Run(t, steps, cron).store.jobs[id].nextRunAt, cron))
  {
    var t := Next(s, WriteUpdate(e, Some(schedule), now), cron);
    var id := s.editors[e].id;
    if !((schedule.OneTime? && schedule.at <= now) || (schedule.Interval? && schedule.seconds < 5)) {
      assert t.store.jobs[id].nextRunAt == Some(FirstRun(schedule, now, cron));
      forall p, r | Reading(t, p, r) ensures Reading(s, p, r) {
      }
      assert Scheduled(t, id, schedule);
      if LeftAlone(t, steps, id, cron) {
        ClaimsFollowSchedule(t, steps, id, cron);
      }
    }
  }

  // ----- not before its time -----

  /** What a poller still holds was due at its clock, and so is every claim. */
  ghost predicate InTime(s: System) {
    && (forall p, r | Reading(s, p, r) :: r.row.nextRunAt.Some? && r.row.nextRunAt.value <= s.pollers[p].now)
    && (forall i | 0 <= i < |s.claims| :: s.claims[i].key.1 <= s.claims[i].now)
  }

  lemma {:induction false} RowsAreDue(jobs: map<JobId, Job>, ids: seq<JobId>, now: int, r: Read)
    requires r in ReadRows(jobs, ids, now)
    ensures r.row.status == Active && r.row.nextRunAt.Some? && r.row.nextRunAt.value <= now
  {
    if ids != [] && r in ReadRows(jobs, ids[1..], now) {
      RowsAreDue(jobs, ids[1..], now, r);
    }
  }

  lemma {:induction false} StepInTime(s: System, step: Step, cron: CronClock)
    requires InTime(s)
    ensures InTime(Next(s, step, cron))
  {
    var t := Next(s, step, cron);
    forall p, r | Reading(t, p, r) ensures r.row.nextRunAt.Some? && r.row.nextRunAt.value <= t.pollers[p].now {
      if step.Poll? && p == step.p && p !in s.pollers {
        RowsAreDue(s.store.jobs, step.ids, step.now, r);
      } else {
        assert Reading(s, p, r);
      }
    }
    if t.claims != s.claims {
      var w := s.pollers[step.p];
      assert Reading(s, step.p, w.rest[0]);
    }
  }

  /** No job is claimed before it is due. */
  lemma {:induction false} NeverEarly(s: System, steps: seq<Step>, cron: CronClock)
    requires InTime(s)
    ensures InTime(Run(s, steps, cron))
    decreases steps
  {
    if steps != [] {
      StepInTime(s, steps[0], cron);
      NeverEarly(Next(s, steps[0], cron), steps[1..], cron);
    }
  }
}
