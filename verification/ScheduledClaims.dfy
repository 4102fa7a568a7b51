/** The order of the due times that pollers claim, under edits that write `next_run_at` too. */
module ScheduledClaims {
  import opened Text
  import opened ScheduleExpression
  import opened ScheduledDispatch

  /** Every due time a job was claimed at lies before t. */
  predicate AfterClaims(claims: seq<Claim>, id: JobId, t: Option<int>) {
    t.Some? ==> forall i | 0 <= i < |claims| && claims[i].key.0 == id :: claims[i].key.1 < t.value
  }

  /** The claimed due times of each job strictly increase. */
  predicate ClaimsIncrease(claims: seq<Claim>) {
    forall i, j | 0 <= i < j < |claims| && claims[i].key.0 == claims[j].key.0 :: claims[i].key.1 < claims[j].key.1
  }

  /** And they lie before the job's next run. */
  predicate InOrder(s: System) {
    && ClaimsIncrease(s.claims)
    && (forall i | 0 <= i < |s.claims| :: s.claims[i].key.0 in s.store.jobs)
    && (forall id | id in s.store.jobs :: AfterClaims(s.claims, id, s.store.jobs[id].nextRunAt))
  }

  /** A claim of the job made since the edit read it. */
  predicate ClaimedSince(s: System, e: Edit) {
    exists i | 0 <= i < |s.claims| :: e.claimsSeen <= i && s.claims[i].key.0 == e.id
  }

  /** Another edit of the job written since. */
  predicate EditedSince(s: System, e: Edit) {
    exists i | 0 <= i < |s.edits| :: e.editsSeen <= i && s.edits[i] == e.id
  }

  /** What an edit read lies after the claims made before; until another edit writes the job, the
      next run is the one read or that one has been claimed. */
  predicate EditSound(s: System, e: Edit) {
    && e.id in s.store.jobs && e.claimsSeen <= |s.claims| && e.editsSeen <= |s.edits|
    && AfterClaims(s.claims[..e.claimsSeen], e.id, e.row.nextRunAt)
    && (!EditedSince(s, e) && e.row.nextRunAt.Some? ==>
          && (!ClaimedSince(s, e) ==> s.store.jobs[e.id].nextRunAt == e.row.nextRunAt)
          && (forall i | e.claimsSeen <= i < |s.claims| && s.claims[i].key.0 == e.id ::
                s.claims[i].key.1 >= e.row.nextRunAt.value))
  }

  predicate EditsSound(s: System) {
    forall e | e in s.editors :: EditSound(s, s.editors[e])
  }

  predicate Orderly(s: System) {
    InOrder(s) && EditsSound(s)
  }

  // ----- steps other than edits -----

  /** Claims and edits stand, and the rows keep their next runs. */
  predicate SameTimes(s: System, t: System) {
    && t.claims == s.claims && t.edits == s.edits
    && (forall id | id in s.store.jobs :: id in t.store.jobs && t.store.jobs[id].nextRunAt == s.store.jobs[id].nextRunAt)
  }

  lemma {:induction false} SameTimesKeep(s: System, t: System, cron: CronClock)
    requires Orderly(s) && SameTimes(s, t)
    requires forall id | id in t.store.jobs :: id in s.store.jobs || AfterClaims(s.claims, id, t.store.jobs[id].nextRunAt)
    requires forall e | e in t.editors :: e in s.editors && t.editors[e] == s.editors[e]
    ensures Orderly(t)
  {
    forall e | e in t.editors ensures EditSound(t, t.editors[e]) {
      assert EditSound(s, s.editors[e]);
    }
  }

  lemma {:induction false} ReadKeeps(s: System, e: nat, id: JobId, cron: CronClock)
    requires Orderly(s)
    ensures Orderly(Next(s, ReadForEdit(e, id), cron))
  {
    var t := Next(s, ReadForEdit(e, id), cron);
    forall x | x in t.editors ensures EditSound(t, t.editors[x]) {
      if x == e && id in s.store.jobs {
        assert s.claims[..|s.claims|] == s.claims;
      } else {
        assert EditSound(s, s.editors[x]);
      }
    }
  }

  /** The next run after a claim lies after the claimed due time. */
  lemma {:induction false} AdvanceIsLater(schedule: Schedule, now: int, due: int, cron: CronClock)
    requires Advances(cron)
    ensures var r := NextAfterExecution(schedule, now, due, cron); r.Some? && r.value.Some? ==> r.value.value > due
  {
    if schedule.Interval? && schedule.seconds >= MIN_INTERVAL_SECONDS {
      NextIsLeastGridPoint(schedule.seconds, now, due, cron);
    }
  }

  lemma {:induction false} ClaimKeepsInOrder(s: System, t: System, id: JobId, c: Claim, next: Option<int>)
    requires InOrder(s) && id in s.store.jobs && c.key.0 == id && s.store.jobs[id].nextRunAt == Some(c.key.1)
    requires next.Some? ==> next.value > c.key.1
    requires t.claims == s.claims + [c] && t.store.jobs == s.store.jobs[id := s.store.jobs[id].(nextRunAt := next)]
    ensures InOrder(t)
  {
    assert AfterClaims(s.claims, id, Some(c.key.1));
    forall x | x in t.store.jobs ensures AfterClaims(t.claims, x, t.store.jobs[x].nextRunAt) {
      assert AfterClaims(s.claims, x, s.store.jobs[x].nextRunAt);
    }
  }

  /** Unless another edit intervened, a job is not due before the time that was read. */
  lemma {:induction false} DueAfterRead(s: System, e: Edit)
    requires InOrder(s) && EditSound(s, e) && !EditedSince(s, e) && e.row.nextRunAt.Some?
    requires s.store.jobs[e.id].nextRunAt.Some?
    ensures s.store.jobs[e.id].nextRunAt.value >= e.row.nextRunAt.value
  {
    if ClaimedSince(s, e) {
      var i :| 0 <= i < |s.claims| && e.claimsSeen <= i && s.claims[i].key.0 == e.id;
      assert s.claims[i].key.1 >= e.row.nextRunAt.value;
      assert AfterClaims(s.claims, e.id, s.store.jobs[e.id].nextRunAt);
    }
  }

  lemma {:induction false} ClaimedSinceGrows(s: System, t: System, c: Claim, e: Edit)
    requires t.claims == s.claims + [c] && e.claimsSeen <= |s.claims|
    ensures ClaimedSince(t, e) <==> ClaimedSince(s, e) || e.id == c.key.0
  {
    assert forall i | 0 <= i < |s.claims| :: t.claims[i] == s.claims[i];
    assert t.claims[|s.claims|] == c;
  }

  lemma {:induction false} ClaimKeepsEdit(s: System, t: System, id: JobId, c: Claim, next: Option<int>, e: Edit)
    requires InOrder(s) && id in s.store.jobs && c.key.0 == id && s.store.jobs[id].nextRunAt == Some(c.key.1)
    requires t.claims == s.claims + [c] && t.edits == s.edits
    requires t.store.jobs == s.store.jobs[id := s.store.jobs[id].(nextRunAt := next)]
    requires EditSound(s, e)
    ensures EditSound(t, e)
  {
    assert t.claims[..e.claimsSeen] == s.claims[..e.claimsSeen];
    ClaimedSinceGrows(s, t, c, e);
    if !EditedSince(s, e) && e.row.nextRunAt.Some? {
      forall i | e.claimsSeen <= i < |t.claims| && t.claims[i].key.0 == e.id
        ensures t.claims[i].key.1 >= e.row.nextRunAt.value
      {
        if i < |s.claims| {
          assert t.claims[i] == s.claims[i];
        } else {
          DueAfterRead(s, e);
        }
      }
    }
  }

  lemma {:induction false} TryClaimKeeps(s: System, p: nat, cron: CronClock)
    requires Advances(cron) && Orderly(s)
    ensures Orderly(Next(s, TryClaim(p), cron))
  {
    var t := Next(s, TryClaim(p), cron);
    if t.claims == s.claims {
      assert forall c: Claim :: |s.claims + [c]| > |s.claims|;
      SameTimesKeep(s, t, cron);
    } else {
      var w := s.pollers[p];
      var head, due := w.rest[0], w.rest[0].row.nextRunAt.value;
      var next := NextAfterExecution(head.row.schedule, w.now, due, cron).value;
      var c := Claim((head.id, due), w.now);
      AdvanceIsLater(head.row.schedule, w.now, due, cron);
      ClaimKeepsInOrder(s, t, head.id, c, next);
      forall e | e in t.editors ensures EditSound(t, t.editors[e]) {
        ClaimKeepsEdit(s, t, head.id, c, next, s.editors[e]);
      }
    }
  }

  // ----- edits -----

  /** A step that writes a next run keeps the order exactly when that run lies after all claims of the job. */
  lemma {:induction false} EditKeepsOrder(s: System, step: Step, cron: CronClock)
    requires InOrder(s) && Edits(step) && WrittenRow(s, step, cron).Some?
    ensures InOrder(Next(s, step, cron))
       <==> AfterClaims(s.claims, s.editors[step.e].id, WrittenRow(s, step, cron).value.nextRunAt)
  {
    var id, row := s.editors[step.e].id, WrittenRow(s, step, cron).value;
    assert Next(s, step, cron).store.jobs[id] == row;
  }

  /** Writing back the next run that was read keeps the order exactly when the job was not claimed
      since at that time or later; without another edit in between, exactly when it was not claimed. */
  lemma {:induction false} WriteBackIsFresh(s: System, e: Edit)
    requires EditSound(s, e) && e.row.nextRunAt.Some?
    ensures AfterClaims(s.claims, e.id, e.row.nextRunAt)
       <==> forall i | e.claimsSeen <= i < |s.claims| && s.claims[i].key.0 == e.id ::
              s.claims[i].key.1 < e.row.nextRunAt.value
    ensures !EditedSince(s, e) ==> (AfterClaims(s.claims, e.id, e.row.nextRunAt) <==> !ClaimedSince(s, e))
  {
    assert forall i | 0 <= i < e.claimsSeen :: s.claims[..e.claimsSeen][i] == s.claims[i];
  }

  /** The step writes the next run it has read: an update without a change of schedule, or of a job
      that was paused when it was read. */
  predicate WritesBack(s: System, step: Step) {
    step.WriteUpdate? && step.e in s.editors && (step.schedule == None || s.editors[step.e].row.status != Active)
  }

  /** An edit a caller may make: it writes back only what has not been claimed since it was read, and
      starts a schedule only from a clock that is not behind the claims of the job. */
  predicate Careful(s: System, step: Step) {
    Edits(step) && step.e in s.editors ==>
      var e := s.editors[step.e];
      if WritesBack(s, step) then e.row.nextRunAt.Some? ==> !ClaimedSince(s, e)
      else forall i | 0 <= i < |s.claims| && s.claims[i].key.0 == e.id :: s.claims[i].key.1 <= step.now
  }

  predicate CarefulRun(s: System, steps: seq<Step>, cron: CronClock)
    decreases steps
  {
    steps == [] || (Careful(s, steps[0]) && CarefulRun(Next(s, steps[0], cron), steps[1..], cron))
  }

  lemma {:induction false} CarefulIsAfter(s: System, step: Step, cron: CronClock)
    requires Advances(cron) && Orderly(s) && Edits(step) && Careful(s, step) && WrittenRow(s, step, cron).Some?
    ensures AfterClaims(s.claims, s.editors[step.e].id, WrittenRow(s, step, cron).value.nextRunAt)
  {
    var e := s.editors[step.e];
    assert EditSound(s, e);
    if WritesBack(s, step) {
      if e.row.nextRunAt.Some? {
        WriteBackIsFresh(s, e);
      }
    } else {
      InitialIsNext(if step.WriteUpdate? then step.schedule.value else e.row.schedule, step.now, cron);
    }
  }

  lemma {:induction false} EditKeepsEdits(s: System, step: Step, cron: CronClock)
    requires EditsSound(s) && Edits(step)
    ensures EditsSound(Next(s, step, cron))
  {
    var t := Next(s, step, cron);
    if WrittenRow(s, step, cron).Some? {
      var id := s.editors[step.e].id;
      assert t.edits[|s.edits|] == id;
      forall x | x in t.editors ensures EditSound(t, t.editors[x]) {
        var e := s.editors[x];
        assert EditSound(s, e);
        assert forall i | 0 <= i < |s.edits| :: t.edits[i] == s.edits[i];
        assert EditedSince(s, e) ==> EditedSince(t, e);
        assert e.id == id ==> EditedSince(t, e);
      }
    }
  }

  lemma {:induction false} CarefulKeepsOrderly(s: System, step: Step, cron: CronClock)
    requires Advances(cron) && Orderly(s) && Careful(s, step)
    ensures Orderly(Next(s, step, cron))
  {
    if Edits(step) {
      EditKeepsEdits(s, step, cron);
      if WrittenRow(s, step, cron).Some? {
        CarefulIsAfter(s, step, cron);
        EditKeepsOrder(s, step, cron);
      }
    } else {
      match step
      case TryClaim(p) => TryClaimKeeps(s, p, cron);
      case ReadForEdit(e, id) => ReadKeeps(s, e, id, cron);
      case Create(id, job) => CreateKeeps(s, id, job, cron);
      case _ => SameTimesKeep(s, Next(s, step, cron), cron);
    }
  }

  lemma {:induction false} CreateKeeps(s: System, id: JobId, job: Job, cron: CronClock)
    requires Orderly(s)
    ensures Orderly(Next(s, Create(id, job), cron))
  {
  }

  lemma {:induction false} CarefulRunsAreOrderly(s: System, steps: seq<Step>, cron: CronClock)
    requires Advances(cron) && Orderly(s) && CarefulRun(s, steps, cron)
    ensures Orderly(Run(s, steps, cron))
    decreases steps
  {
    if steps != [] {
      CarefulKeepsOrderly(s, steps[0], cron);
      CarefulRunsAreOrderly(Next(s, steps[0], cron), steps[1..], cron);
    }
  }

  /** When edits are careful the claimed due times of each job strictly increase, whatever pollers,
      pauses, resumes, manual runs and crashes do. */
  lemma {:induction false} ClaimedDueTimesIncrease(jobs: map<JobId, Job>, steps: seq<Step>, cron: CronClock)
    requires Advances(cron) && CarefulRun(Initial(jobs), steps, cron)
    ensures ClaimsIncrease(Run(Initial(jobs), steps, cron).claims)
  {
    CarefulRunsAreOrderly(Initial(jobs), steps, cron);
  }

  /** From an orderly state, an edit that leaves the job active and due on a valid schedule leaves the
      claims increasing in every careful continuation exactly when it writes a next run after all
      claims of the job: otherwise one poll claims out of order. */
  lemma {:induction false} EditIsExactlySafe(s: System, step: Step, cron: CronClock, p: nat)
    requires Advances(cron) && Orderly(s) && Edits(step) && WrittenRow(s, step, cron).Some? && p !in s.pollers
    requires var row := WrittenRow(s, step, cron).value;
             row.status == Active && (row.schedule.Interval? ==> row.schedule.seconds >= MIN_INTERVAL_SECONDS)
    ensures (forall steps | CarefulRun(Next(s, step, cron), steps, cron) ::
               ClaimsIncrease(Run(Next(s, step, cron), steps, cron).claims))
       <==> AfterClaims(s.claims, s.editors[step.e].id, WrittenRow(s, step, cron).value.nextRunAt)
  {
    var t := Next(s, step, cron);
    var id, row := s.editors[step.e].id, WrittenRow(s, step, cron).value;
    EditKeepsEdits(s, step, cron);
    EditKeepsOrder(s, step, cron);
    if AfterClaims(s.claims, id, row.nextRunAt) {
      forall steps | CarefulRun(t, steps, cron) ensures ClaimsIncrease(Run(t, steps, cron).claims) {
        CarefulRunsAreOrderly(t, steps, cron);
      }
    } else {
      var steps := PollClaims(t, id, row.nextRunAt.value, p, cron);
      var claims := Run(t, steps, cron).claims;
      var i :| 0 <= i < |s.claims| && s.claims[i].key.0 == id && s.claims[i].key.1 >= row.nextRunAt.value;
      assert claims[i] == s.claims[i] && claims[|s.claims|].key == (id, row.nextRunAt.value);
      assert !ClaimsIncrease(claims);
    }
  }

  /** A new poller claims a job that is active and due. */
  lemma {:induction false} PollClaims(s: System, id: JobId, due: int, p: nat, cron: CronClock) returns (steps: seq<Step>)
    requires p !in s.pollers && Claimable(s.store.jobs, id, due)
    requires s.store.jobs[id].schedule.Interval? ==> s.store.jobs[id].schedule.seconds >= MIN_INTERVAL_SECONDS
    ensures CarefulRun(s, steps, cron)
    ensures Run(s, steps, cron).claims == s.claims + [Claim((id, due), due)]
  {
    var a, b := Poll(p, due, [id]), TryClaim(p);
    steps := [a, b];
    var t := Next(s, a, cron);
    var read := Read(id, s.store.jobs[id]);
    assert [id][1..] == [];
    assert ReadRows(s.store.jobs, [id], due) == [read];
    assert t.pollers[p] == Working(due, [read]);
    assert steps[1..] == [b] && steps[1..][1..] == [];
    assert steps == [a] + [b];
    RunSplit(s, [a], [b], cron);
    RunOne(s, a, cron);
    RunOne(t, b, cron);
  }

  // ----- the insert by due key -----

  predicate Awaits(s: System, p: nat, key: Key) {
    p in s.pollers && s.pollers[p].Claimed? && s.pollers[p].key == key
  }

  predicate WasClaimed(s: System, key: Key) { exists i | 0 <= i < |s.claims| :: s.claims[i].key == key }

  /** Runs belong to claims, and a claim that waits for its insert has none yet. */
  ghost predicate RunsAreClaimed(s: System) {
    (forall k | k in s.store.runs :: WasClaimed(s, k))
    && (forall p, k | Awaits(s, p, k) :: WasClaimed(s, k) && k !in s.store.runs)
    && (forall p, k | Holds(s, p, k) :: k in s.store.runs)
    && (forall p, q, k | Awaits(s, p, k) && Awaits(s, q, k) :: p == q)
  }

  lemma {:induction false} PollersMoveOn(s: System, t: System)
    requires RunsAreClaimed(s) && t.claims == s.claims && t.store.runs == s.store.runs
    requires forall p, k | Awaits(t, p, k) :: Awaits(s, p, k)
    requires forall p, k | Holds(t, p, k) :: Holds(s, p, k)
    ensures RunsAreClaimed(t)
  {
  }

  lemma {:induction false} ClaimKeepsRuns(s: System, t: System, p: nat, c: Claim)
    requires RunsAreClaimed(s) && !WasClaimed(s, c.key)
    requires t.store.runs == s.store.runs && t.claims == s.claims + [c]
    requires p in t.pollers && t.pollers == s.pollers[p := t.pollers[p]] && Awaits(t, p, c.key)
    ensures RunsAreClaimed(t)
  {
    forall k ensures WasClaimed(t, k) <==> WasClaimed(s, k) || k == c.key {
      assert t.claims[|s.claims|] == c;
      assert forall i | 0 <= i < |s.claims| :: t.claims[i] == s.claims[i];
    }
    forall q, k | Awaits(t, q, k) ensures if q == p then k == c.key else Awaits(s, q, k) {}
    forall q, k | Holds(t, q, k) ensures Holds(s, q, k) {}
  }

  lemma {:induction false} TryClaimKeepsRuns(s: System, p: nat, cron: CronClock)
    requires Orderly(s) && RunsAreClaimed(s)
    ensures RunsAreClaimed(Next(s, TryClaim(p), cron))
  {
    var t := Next(s, TryClaim(p), cron);
    if t.claims == s.claims {
      assert forall c: Claim :: |s.claims + [c]| > |s.claims|;
      PollersMoveOn(s, t);
    } else {
      var c := t.claims[|s.claims|];
      assert AfterClaims(s.claims, c.key.0, Some(c.key.1));
      ClaimKeepsRuns(s, t, p, c);
    }
  }

  lemma {:induction false} InsertKeepsRuns(s: System, p: nat, cron: CronClock)
    requires RunsAreClaimed(s)
    ensures RunsAreClaimed(Next(s, Insert(p), cron))
  {
    var t := Next(s, Insert(p), cron);
    if p in s.pollers && s.pollers[p].Claimed? {
      var key := s.pollers[p].key;
      assert Awaits(s, p, key);
      forall k ensures WasClaimed(t, k) <==> WasClaimed(s, k) {}
      forall q, k | Awaits(t, q, k) ensures q != p && Awaits(s, q, k) {}
      forall q, k | Holds(t, q, k) ensures (q == p && k == key) || Holds(s, q, k) {}
    }
  }

  lemma {:induction false} StartKeepsRuns(s: System, p: nat, answer: EngineAnswer, cron: CronClock)
    requires RunsAreClaimed(s)
    ensures RunsAreClaimed(Next(s, Start(p, answer), cron))
  {
    var t := Next(s, Start(p, answer), cron);
    if p in s.pollers && s.pollers[p].Inserted? {
      assert Holds(s, p, s.pollers[p].key);
      forall k ensures WasClaimed(t, k) <==> WasClaimed(s, k) {}
      forall q, k | Awaits(t, q, k) ensures Awaits(s, q, k) {}
      forall q, k | Holds(t, q, k) ensures Holds(s, q, k) {}
    }
  }

  lemma {:induction false} StepKeepsRuns(s: System, step: Step, cron: CronClock)
    requires Orderly(s) && RunsAreClaimed(s) && !step.RunManually?
    ensures RunsAreClaimed(Next(s, step, cron))
  {
    match step
    case TryClaim(p) => TryClaimKeepsRuns(s, p, cron);
    case Insert(p) => InsertKeepsRuns(s, p, cron);
    case Start(p, answer) => StartKeepsRuns(s, p, answer, cron);
    case _ => PollersMoveOn(s, Next(s, step, cron));
  }

  lemma {:induction false} RunKeepsRuns(s: System, steps: seq<Step>, cron: CronClock)
    requires Advances(cron) && Orderly(s) && RunsAreClaimed(s)
    requires CarefulRun(s, steps, cron) && forall x | x in steps :: !x.RunManually?
    ensures RunsAreClaimed(Run(s, steps, cron))
    decreases steps
  {
    if steps != [] {
      StepKeepsRuns(s, steps[0], cron);
      CarefulKeepsOrderly(s, steps[0], cron);
      RunKeepsRuns(Next(s, steps[0], cron), steps[1..], cron);
    }
  }

  /** When edits are careful and no run is created by hand, the due-key insert of a claimed key always
      creates the run. */
  lemma {:induction false} InsertNeverRefuses(jobs: map<JobId, Job>, steps: seq<Step>, cron: CronClock, p: nat,
          key: Key)
    requires Advances(cron) && CarefulRun(Initial(jobs), steps, cron) && forall x | x in steps :: !x.RunManually?
    requires Awaits(Run(Initial(jobs), steps, cron), p, key)
    ensures Holds(Next(Run(Initial(jobs), steps, cron), Insert(p), cron), p, key)
  {
    RunKeepsRuns(Initial(jobs), steps, cron);
  }

  // ----- the grid of an interval -----

  /** t comes after the claim; for interval jobs it also comes after the claiming poll's clock and
      lies on the claimed due time's grid. */
  ghost predicate Later(schedule: Schedule, c: Claim, t: int) {
    t > c.key.1 && (schedule.Interval? ==> t > c.now && OnGrid(t, c.key.1, schedule.seconds * 1000))
  }

  lemma {:induction false} ClaimedNextIsLater(schedule: Schedule, c: Claim, cron: CronClock)
    requires Advances(cron)
    ensures var r := NextAfterExecution(schedule, c.now, c.key.1, cron);
      r.Some? && r.value.Some? ==> Later(schedule, c, r.value.value)
  {
    if schedule.Interval? && schedule.seconds >= MIN_INTERVAL_SECONDS {
      NextIsLeastGridPoint(schedule.seconds, c.now, c.key.1, cron);
    }
  }

  lemma {:induction false} LaterComposes(schedule: Schedule, c: Claim, d: Claim, t: int)
    requires Later(schedule, c, d.key.1) && Later(schedule, d, t)
    ensures Later(schedule, c, t)
  {
    if schedule.Interval? {
      GridComposes(c.key.1, d.key.1, t, schedule.seconds * 1000);
    }
  }

  /** The job's next run, if any, is later than the claim. */
  ghost predicate Passed(jobs: map<JobId, Job>, c: Claim) {
    c.key.0 in jobs && (jobs[c.key.0].nextRunAt.Some? ==> Later(jobs[c.key.0].schedule, c, jobs[c.key.0].nextRunAt.value))
  }

  /** Claim d of the same job came later than claim c. */
  ghost predicate Apart(jobs: map<JobId, Job>, c: Claim, d: Claim) {
    c.key.0 in jobs && Later(jobs[c.key.0].schedule, c, d.key.1)
  }

  ghost predicate ClaimsOnGrid(s: System) {
    (forall i | 0 <= i < |s.claims| :: Passed(s.store.jobs, s.claims[i]))
    && (forall i, j | 0 <= i < j < |s.claims| && s.claims[i].key.0 == s.claims[j].key.0 ::
          Apart(s.store.jobs, s.claims[i], s.claims[j]))
  }

  predicate Reading(s: System, p: nat, r: Read) { p in s.pollers && r in s.pollers[p].rest }

  ghost predicate ReadsAreCurrent(s: System) {
    forall p, r | Reading(s, p, r) :: r.id in s.store.jobs && s.store.jobs[r.id].schedule == r.row.schedule
  }

  /** An edit, if any, that leaves the schedule and the next run as they are: a change of the name or
      the payload of a job that no poller has claimed meanwhile. */
  predicate Quiet(s: System, step: Step, cron: CronClock) {
    Edits(step) && WrittenRow(s, step, cron).Some? ==>
      var current := s.store.jobs[s.editors[step.e].id];
      WrittenRow(s, step, cron).value.(status := current.status) == current
  }

  predicate QuietRun(s: System, steps: seq<Step>, cron: CronClock)
    decreases steps
  {
    steps == [] || (Quiet(s, steps[0], cron) && QuietRun(Next(s, steps[0], cron), steps[1..], cron))
  }

  /** A step that claims nothing and leaves schedules and next runs. */
  lemma {:induction false} NoNewClaim(s: System, t: System)
    requires ClaimsOnGrid(s) && ReadsAreCurrent(s) && t.claims == s.claims
    requires forall id | id in s.store.jobs ::
      id in t.store.jobs && t.store.jobs[id].schedule == s.store.jobs[id].schedule
      && t.store.jobs[id].nextRunAt == s.store.jobs[id].nextRunAt
    requires forall p, r | Reading(t, p, r) :: Reading(s, p, r) || (r.id in s.store.jobs && s.store.jobs[r.id] == r.row)
    ensures ClaimsOnGrid(t) && ReadsAreCurrent(t)
  {
  }

  lemma {:induction false} ClaimKeepsGrid(s: System, t: System, id: JobId, c: Claim, next: Option<int>,
          cron: CronClock)
    requires Advances(cron) && ClaimsOnGrid(s) && id in s.store.jobs
    requires c.key.0 == id && s.store.jobs[id].nextRunAt == Some(c.key.1)
    requires NextAfterExecution(s.store.jobs[id].schedule, c.now, c.key.1, cron) == Some(next)
    requires t.store.jobs == s.store.jobs[id := s.store.jobs[id].(nextRunAt := next)]
    requires t.claims == s.claims + [c]
    ensures ClaimsOnGrid(t)
  {
    var schedule := s.store.jobs[id].schedule;
    ClaimedNextIsLater(schedule, c, cron);
    forall i | 0 <= i < |t.claims| ensures Passed(t.store.jobs, t.claims[i]) {
      if i < |s.claims| {
        assert t.claims[i] == s.claims[i] && Passed(s.store.jobs, s.claims[i]);
        if s.claims[i].key.0 == id && next.Some? {
          LaterComposes(schedule, s.claims[i], c, next.value);
        }
      }
    }
    forall i, j | 0 <= i < j < |t.claims| && t.claims[i].key.0 == t.claims[j].key.0
      ensures Apart(t.store.jobs, t.claims[i], t.claims[j])
    {
      assert t.claims[i] == s.claims[i] && Passed(s.store.jobs, s.claims[i]);
      if j < |s.claims| {
        assert Apart(s.store.jobs, s.claims[i], s.claims[j]);
      }
    }
  }

  lemma {:induction false} TryClaimKeepsGrid(s: System, p: nat, cron: CronClock)
    requires Advances(cron) && ClaimsOnGrid(s) && ReadsAreCurrent(s)
    ensures ClaimsOnGrid(Next(s, TryClaim(p), cron)) && ReadsAreCurrent(Next(s, TryClaim(p), cron))
  {
    var t := Next(s, TryClaim(p), cron);
    forall q, r | Reading(t, q, r) ensures Reading(s, q, r) {}
    if t.claims == s.claims {
      assert forall c: Claim :: |s.claims + [c]| > |s.claims|;
      NoNewClaim(s, t);
    } else {
      var w := s.pollers[p];
      var head, due := w.rest[0], w.rest[0].row.nextRunAt.value;
      assert Reading(s, p, head);
      var next := NextAfterExecution(head.row.schedule, w.now, due, cron).value;
      ClaimKeepsGrid(s, t, head.id, Claim((head.id, due), w.now), next, cron);
    }
  }

  lemma {:induction false} QuietKeepsGrid(s: System, step: Step, cron: CronClock)
    requires Advances(cron) && ClaimsOnGrid(s) && ReadsAreCurrent(s) && Quiet(s, step, cron)
    ensures ClaimsOnGrid(Next(s, step, cron)) && ReadsAreCurrent(Next(s, step, cron))
  {
    if step.TryClaim? {
      TryClaimKeepsGrid(s, step.p, cron);
    } else {
      QuietKeepsReads(s, step, cron);
      NoNewClaim(s, Next(s, step, cron));
    }
  }

  lemma {:induction false} QuietKeepsReads(s: System, step: Step, cron: CronClock)
    requires !step.TryClaim?
    ensures forall q, r | Reading(Next(s, step, cron), q, r) ::
              Reading(s, q, r) || (r.id in s.store.jobs && s.store.jobs[r.id] == r.row)
  {
    var t := Next(s, step, cron);
    forall q, r | Reading(t, q, r) && !Reading(s, q, r) ensures r.id in s.store.jobs && s.store.jobs[r.id] == r.row {
      assert step.Poll? && q == step.p && r in ReadRows(s.store.jobs, step.ids, step.now);
    }
  }

  lemma {:induction false} QuietRunsKeepGrid(s: System, steps: seq<Step>, cron: CronClock)
    requires Advances(cron) && ClaimsOnGrid(s) && ReadsAreCurrent(s) && QuietRun(s, steps, cron)
    ensures ClaimsOnGrid(Run(s, steps, cron))
    decreases steps
  {
    if steps != [] {
      QuietKeepsGrid(s, steps[0], cron);
      QuietRunsKeepGrid(Next(s, steps[0], cron), steps[1..], cron);
    }
  }

  /** While no edit changes a schedule or a next run, each later claim of an interval job lies on the grid
      of every earlier one and beyond the clock of the poll that claimed it, so the slots missed in
      between collapse into that one claim. */
  lemma {:induction false} ClaimsStayOnGrid(jobs: map<JobId, Job>, steps: seq<Step>, cron: CronClock, i: nat, j: nat)
    requires Advances(cron) && QuietRun(Initial(jobs), steps, cron)
    requires i < j < |Run(Initial(jobs), steps, cron).claims|
    requires var cs := Run(Initial(jobs), steps, cron).claims; cs[i].key.0 == cs[j].key.0
    ensures var s := Run(Initial(jobs), steps, cron); Apart(s.store.jobs, s.claims[i], s.claims[j])
  {
    QuietRunsKeepGrid(Initial(jobs), steps, cron);
  }

  // ----- what the second guard is for -----

  const STALE_KEY: Key := ("j", 1000)
  const STALE_JOB := Job(Active, Interval(60), Some(1000))

  function PollSteps(p: nat, now: int): seq<Step> { [Poll(p, now, ["j"]), TryClaim(p), Insert(p)] }

  /** A poll that finds the job at its old due time claims that time, whatever happened before; the
      run is created only if its due key is new. */
  lemma {:induction false} PollOfStaleJob(s: System, p: nat, now: int, cron: CronClock)
    requires "j" in s.store.jobs && s.store.jobs["j"] == STALE_JOB && p !in s.pollers && 1000 < now < 61000
    ensures var t := Run(s, PollSteps(p, now), cron);
      t.claims == s.claims + [Claim(STALE_KEY, now)] && t.editors == s.editors && "j" in t.store.jobs
      && t.store.started == s.store.started && t.store.runs.Keys == s.store.runs.Keys + {STALE_KEY}
      && t.store.jobs["j"] == STALE_JOB.(nextRunAt := Some(61000))
      && (STALE_KEY !in s.store.runs ==> Holds(t, p, STALE_KEY))
      && t.pollers.Keys == s.pollers.Keys + {p}
  {
    RunThree(s, PollSteps(p, now), cron);
    var read := Read("j", STALE_JOB);
    assert ReadRows(s.store.jobs, ["j"], now) == [read] by { assert ["j"][1..] == []; }
    var s1 := Next(s, Poll(p, now, ["j"]), cron);
    assert s1.pollers[p] == Working(now, [read]);
    assert NextAfterExecution(Interval(60), now, 1000, cron) == Some(Some(61000));
    var s2 := Next(s1, TryClaim(p), cron);
    assert s2.pollers[p] == Claimed(now, STALE_KEY, [read][1..]);
  }

  /** The dispatch and then the update that read the job before the poll. */
  lemma {:induction false} StaleWriteRestores(s: System, cron: CronClock)
    requires Holds(s, 1, STALE_KEY) && "j" in s.store.jobs && s.store.jobs["j"].status == Active
    requires 0 in s.editors && s.editors[0].id == "j" && s.editors[0].row == STALE_JOB
    ensures var t := Run(s, [Start(1, RunId), WriteUpdate(0, None, 2500)], cron);
      t.store.started == s.store.started + [STALE_KEY] && t.claims == s.claims && t.pollers.Keys == s.pollers.Keys
      && "j" in t.store.jobs && t.store.jobs["j"] == STALE_JOB
  {
  }

  /** An update that changes no schedule writes back the next run it read. When a poller claims in
      between, the claimed due time reappears and is claimed again; only the due key refuses it. */
  lemma {:induction false} StaleUpdateReclaims(cron: CronClock) returns (jobs: map<JobId, Job>, steps: seq<Step>)
    ensures var s := Run(Initial(jobs), steps, cron);
      |s.claims| == 2 && s.claims[0].key == s.claims[1].key && |s.store.started| == 1
  {
    jobs := map["j" := STALE_JOB];
    var s0 := Initial(jobs);
    var s1 := Next(s0, ReadForEdit(0, "j"), cron);
    RunOne(s0, ReadForEdit(0, "j"), cron);
    PollOfStaleJob(s1, 1, 2000, cron);
    var s2 := Run(s1, PollSteps(1, 2000), cron);
    var middle := [Start(1, RunId), WriteUpdate(0, None, 2500)];
    StaleWriteRestores(s2, cron);
    var s4 := Run(s2, middle, cron);
    PollOfStaleJob(s4, 2, 3000, cron);
    steps := [ReadForEdit(0, "j")] + PollSteps(1, 2000);
    RunSplit(s0, [ReadForEdit(0, "j")], PollSteps(1, 2000), cron);
    RunSplit(s0, steps, middle, cron);
    steps := steps + middle;
    RunSplit(s0, steps, PollSteps(2, 3000), cron);
    steps := steps + PollSteps(2, 3000);
  }
}
