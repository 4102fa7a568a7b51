/** Dispatch of scheduled jobs by any number of pollers. Each step is one repository call, so the
    steps of pollers, of edits and of manual runs interleave freely and a poller may crash between
    any two of them. `advanceNextRunIfDue` and `createIfNotExistsByDueKey` are taken to be atomic.
    `claims`, `edits` and what an edit has seen of them are histories. */
module ScheduledDispatch {
  import opened Text
  import opened ScheduleExpression

  type JobId = string
  type Key = (JobId, int)   // a job and one of its due times

  datatype JobStatus = Active | Paused
  datatype Job = Job(status: JobStatus, schedule: Schedule, nextRunAt: Option<int>)

  datatype RunStatus = Triggered | Running | Skipped | Failed

  /** What `startWorkflow` answers: a run id, nothing, or an exception. */
  datatype EngineAnswer = RunId | NoRun | EngineError

  /** The shared tables, and the log of workflows started by polling. */
  datatype Store = Store(jobs: map<JobId, Job>, runs: map<Key, RunStatus>, started: seq<Key>)

  /** A job row as a poller read it. */
  datatype Read = Read(id: JobId, row: Job)

  datatype Poller =
    | Working(now: int, rest: seq<Read>)
    | Claimed(now: int, key: Key, rest: seq<Read>)
    | Inserted(now: int, key: Key, rest: seq<Read>)

  /** A claim that succeeded: the key and the poller's clock. */
  datatype Claim = Claim(key: Key, now: int)

  /** A job row as an edit read it, with the claims and edits made by then. */
  datatype Edit = Edit(id: JobId, row: Job, claimsSeen: nat, editsSeen: nat)

  datatype System = System(
    store: Store, pollers: map<nat, Poller>, editors: map<nat, Edit>, claims: seq<Claim>, edits: seq<JobId>)

  datatype Step =
    | Poll(p: nat, now: int, ids: seq<JobId>)                  // findDueJobs
    | TryClaim(p: nat)                                         // advanceNextRunIfDue
    | Insert(p: nat)                                           // createIfNotExistsByDueKey
    | Start(p: nat, answer: EngineAnswer)                      // startWorkflow and the status update
    | Crash(p: nat)
    | RunManually(id: JobId, at: int, answer: EngineAnswer)
    | Create(id: JobId, job: Job)
    | Pause(id: JobId)
    | ReadForEdit(e: nat, id: JobId)                           // the read at the start of update or resume
    | WriteUpdate(e: nat, schedule: Option<Schedule>, now: int)
    | WriteResume(e: nat, now: int)

  function Initial(jobs: map<JobId, Job>): System {
    System(Store(jobs, map[], []), map[], map[], [], [])
  }

  function AfterStart(answer: EngineAnswer): RunStatus {
    match answer case RunId => Running case NoRun => Skipped case EngineError => Failed
  }

  predicate Due(job: Job, now: int) {
    job.status == Active && job.nextRunAt.Some? && job.nextRunAt.value <= now
  }

  /** Those of the named jobs that are due. */
  function ReadRows(jobs: map<JobId, Job>, ids: seq<JobId>, now: int): (rows: seq<Read>)
    ensures forall r | r in rows :: r.id in jobs && jobs[r.id] == r.row
  {
    if ids == [] then []
    else (if ids[0] in jobs && Due(jobs[ids[0]], now) then [Read(ids[0], jobs[ids[0]])] else []) + ReadRows(jobs, ids[1..], now)
  }

  /** The fields `updateScheduledJob` writes: without a schedule change the next run it read before,
      otherwise a fresh one for active jobs. `None` is the exception of an invalid schedule. */
  function UpdatedRow(current: Job, read: Job, schedule: Option<Schedule>, now: int, cron: CronClock): Option<Job> {
    match schedule
    case None => Some(Job(current.status, read.schedule, read.nextRunAt))
    case Some(s) =>
      match ResolveInitial(s, now, cron)
      case None => None
      case Some(next) => Some(Job(current.status, s, if read.status == Active then next else read.nextRunAt))
  }

  function Next(s: System, step: Step, cron: CronClock): System {
    var st := s.store;
    match step
    case Poll(p, now, ids) =>
      if p in s.pollers then s else s.(pollers := s.pollers[p := Working(now, ReadRows(st.jobs, ids, now))])
    case TryClaim(p) =>
      if p in s.pollers && s.pollers[p].Working? && s.pollers[p].rest != [] then NextClaim(s, p, cron) else s
    case Insert(p) =>
      if p in s.pollers && s.pollers[p].Claimed? then
        var c := s.pollers[p];
        if c.key in st.runs then s.(pollers := s.pollers[p := Working(c.now, c.rest)])
        else s.(store := st.(runs := st.runs[c.key := Triggered]), pollers := s.pollers[p := Inserted(c.now, c.key, c.rest)])
      else s
    case Start(p, answer) =>
      if p in s.pollers && s.pollers[p].Inserted? then
        var c := s.pollers[p];
        s.(store := st.(runs := st.runs[c.key := AfterStart(answer)], started := st.started + [c.key]),
           pollers := s.pollers[p := Working(c.now, c.rest)])
      else s
    case Crash(p) => s.(pollers := s.pollers - {p})
    case RunManually(id, at, answer) =>
      if (id, at) in st.runs then s else s.(store := st.(runs := st.runs[(id, at) := AfterStart(answer)]))
    case Create(id, job) => if id in st.jobs then s else s.(store := st.(jobs := st.jobs[id := job]))
    case Pause(id) =>
      if id in st.jobs then s.(store := st.(jobs := st.jobs[id := st.jobs[id].(status := Paused)])) else s
    case ReadForEdit(e, id) =>
      if id in st.jobs then s.(editors := s.editors[e := Edit(id, st.jobs[id], |s.claims|, |s.edits|)]) else s
    case WriteUpdate(e, _, _) => Edited(s, step, cron)
    case WriteResume(e, _) => Edited(s, step, cron)
  }

  predicate Edits(step: Step) { step.WriteUpdate? || step.WriteResume? }

  /** The row that a write of `updateScheduledJob` or `resumeScheduledJob` leaves, or nothing. */
  function WrittenRow(s: System, step: Step, cron: CronClock): Option<Job>
    requires Edits(step)
  {
    if step.e !in s.editors || s.editors[step.e].id !in s.store.jobs then None
    else
      var current, read := s.store.jobs[s.editors[step.e].id], s.editors[step.e].row;
      match step
      case WriteUpdate(_, schedule, now) => UpdatedRow(current, read, schedule, now, cron)
      case WriteResume(_, now) =>
        match ResolveInitial(read.schedule, now, cron)
        case None => None
        case Some(next) => Some(Job(Active, current.schedule, next))
  }

  function Edited(s: System, step: Step, cron: CronClock): System
    requires Edits(step)
  {
    match WrittenRow(s, step, cron)
    case None => s
    case Some(row) =>
      var id := s.editors[step.e].id;
      s.(store := s.store.(jobs := s.store.jobs[id := row]), editors := s.editors - {step.e}, edits := s.edits + [id])
  }

  /** What `advanceNextRunIfDue` asks of the row: still active, and still due when the poller read it to be. */
  predicate Claimable(jobs: map<JobId, Job>, id: JobId, due: int) {
    id in jobs && jobs[id].status == Active && jobs[id].nextRunAt == Some(due)
  }

  /** The head of the batch: skipped, claimed, or the exception that ends the poll. */
  function NextClaim(s: System, p: nat, cron: CronClock): System
    requires p in s.pollers && s.pollers[p].Working? && s.pollers[p].rest != []
  {
    var st := s.store;
    var w := s.pollers[p];
    var head, rest := w.rest[0], w.rest[1..];
    var skip := s.(pollers := s.pollers[p := Working(w.now, rest)]);
    match head.row.nextRunAt
    case None => skip
    case Some(due) =>
      match NextAfterExecution(head.row.schedule, w.now, due, cron)
      case None => s.(pollers := s.pollers - {p})
      case Some(next) =>
        if Claimable(st.jobs, head.id, due) then
          s.(store := st.(jobs := st.jobs[head.id := st.jobs[head.id].(nextRunAt := next)]),
             pollers := s.pollers[p := Claimed(w.now, (head.id, due), rest)],
             claims := s.claims + [Claim((head.id, due), w.now)])
        else skip
  }

  function Run(s: System, steps: seq<Step>, cron: CronClock): System
    decreases steps
  {
    if steps == [] then s else Run(Next(s, steps[0], cron), steps[1..], cron)
  }

  /* ---------- no key is dispatched twice ---------- */

  /** The key a poller has inserted and not yet dispatched. */
  predicate Holds(s: System, p: nat, key: Key) {
    p in s.pollers && s.pollers[p].Inserted? && s.pollers[p].key == key
  }

  ghost predicate Exclusive(s: System) {
    (forall i, j | 0 <= i < j < |s.store.started| :: s.store.started[i] != s.store.started[j])
    && (forall k | k in s.store.started :: k in s.store.runs)
    && (forall p, k | Holds(s, p, k) :: k in s.store.runs && k !in s.store.started)
    && (forall p, q, k | Holds(s, p, k) && Holds(s, q, k) :: p == q)
  }

  /** A step that dispatches nothing and lets no poller hold more keeps exclusiveness. */
  lemma {:induction false} NothingNewHeld(s: System, t: System)
    requires Exclusive(s) && t.store.started == s.store.started && s.store.runs.Keys <= t.store.runs.Keys
    requires forall p, k | Holds(t, p, k) :: Holds(s, p, k)
    ensures Exclusive(t)
  {
  }

  lemma {:induction false} InsertKeepsExclusive(s: System, p: nat, cron: CronClock)
    requires Exclusive(s)
    ensures Exclusive(Next(s, Insert(p), cron))
  {
    var t := Next(s, Insert(p), cron);
    if p in s.pollers && s.pollers[p].Claimed? {
      forall q, k | Holds(t, q, k) ensures q == p || Holds(s, q, k) {}
      assert forall q, k | Holds(s, q, k) :: k in s.store.runs;
    }
  }

  lemma {:induction false} StartKeepsExclusive(s: System, p: nat, answer: EngineAnswer, cron: CronClock)
    requires Exclusive(s)
    ensures Exclusive(Next(s, Start(p, answer), cron))
  {
    var t := Next(s, Start(p, answer), cron);
    if p in s.pollers && s.pollers[p].Inserted? {
      assert Holds(s, p, s.pollers[p].key);
      forall q, k | Holds(t, q, k) ensures q != p && Holds(s, q, k) {}
    }
  }

  lemma {:induction false} ExclusiveKept(s: System, step: Step, cron: CronClock)
    requires Exclusive(s)
    ensures Exclusive(Next(s, step, cron))
  {
    match step
    case Insert(p) => InsertKeepsExclusive(s, p, cron);
    case Start(p, answer) => StartKeepsExclusive(s, p, answer, cron);
    case _ => NothingNewHeld(s, Next(s, step, cron));
  }

  /** However pollers, edits, manual runs and crashes interleave, each (job, due time) is dispatched
      by polling at most once. */
  lemma {:induction false} AtMostOneDispatch(s: System, steps: seq<Step>, cron: CronClock)
    requires Exclusive(s)
    ensures Exclusive(Run(s, steps, cron))
    decreases steps
  {
    if steps != [] {
      ExclusiveKept(s, steps[0], cron);
      AtMostOneDispatch(Next(s, steps[0], cron), steps[1..], cron);
    }
  }

  lemma {:induction false} DispatchesAreDistinct(jobs: map<JobId, Job>, steps: seq<Step>, cron: CronClock)
    ensures var started := Run(Initial(jobs), steps, cron).store.started;
      forall i, j | 0 <= i < j < |started| :: started[i] != started[j]
  {
    AtMostOneDispatch(Initial(jobs), steps, cron);
  }

  /* ---------- a paused job is left alone ---------- */

  /** A claim is one of an active row, at its present due time, however old the poller's batch is. */
  lemma {:induction false} ClaimFindsActive(s: System, step: Step, cron: CronClock)
    requires Next(s, step, cron).claims != s.claims
    ensures var t := Next(s, step, cron);
      |t.claims| == |s.claims| + 1 && t.claims[..|s.claims|] == s.claims
      && var key := t.claims[|s.claims|].key; Claimable(s.store.jobs, key.0, key.1)
  {
  }

  predicate Resumes(s: System, step: Step, id: JobId) {
    step.WriteResume? && step.e in s.editors && s.editors[step.e].id == id
  }

  predicate NeverResumed(s: System, steps: seq<Step>, id: JobId, cron: CronClock)
    decreases steps
  {
    steps == [] || (!Resumes(s, steps[0], id) && NeverResumed(Next(s, steps[0], cron), steps[1..], id, cron))
  }

  predicate IsPaused(s: System, id: JobId) { id in s.store.jobs && s.store.jobs[id].status == Paused }

  function ClaimsOf(claims: seq<Claim>, id: JobId): seq<Claim> {
    if claims == [] then []
    else ClaimsOf(claims[..|claims| - 1], id) + (if claims[|claims| - 1].key.0 == id then [claims[|claims| - 1]] else [])
  }

  lemma {:induction false} PausedStep(s: System, step: Step, id: JobId, cron: CronClock)
    requires IsPaused(s, id) && !Resumes(s, step, id)
    ensures IsPaused(Next(s, step, cron), id)
    ensures ClaimsOf(Next(s, step, cron).claims, id) == ClaimsOf(s.claims, id)
  {
    var t := Next(s, step, cron);
    if t.claims != s.claims {
      ClaimFindsActive(s, step, cron);
      assert t.claims[..|t.claims| - 1] == s.claims;
    }
  }

  /** Once a job is paused no poller claims it until it is resumed, whatever else happens: other
      updates of the job, manual runs, and pollers that read it while it was active included. */
  lemma {:induction false} PausedJobIsNotClaimed(s: System, steps: seq<Step>, id: JobId, cron: CronClock)
    requires IsPaused(s, id) && NeverResumed(s, steps, id, cron)
    ensures ClaimsOf(Run(s, steps, cron).claims, id) == ClaimsOf(s.claims, id)
    decreases steps
  {
    if steps != [] {
      PausedStep(s, steps[0], id, cron);
      PausedJobIsNotClaimed(Next(s, steps[0], cron), steps[1..], id, cron);
    }
  }

  /* ---------- runs ---------- */

  lemma {:induction false} RunOne(s: System, step: Step, cron: CronClock)
    ensures Run(s, [step], cron) == Next(s, step, cron)
  {
  }

  lemma {:induction false} RunThree(s: System, x: seq<Step>, cron: CronClock)
    requires |x| == 3
    ensures Run(s, x, cron) == Next(Next(Next(s, x[0], cron), x[1], cron), x[2], cron)
  {
    assert x == [x[0]] + ([x[1]] + [x[2]]);
    RunSplit(s, [x[0]], [x[1]] + [x[2]], cron);
    RunOne(s, x[0], cron);
    RunSplit(Next(s, x[0], cron), [x[1]], [x[2]], cron);
    RunOne(Next(s, x[0], cron), x[1], cron);
    RunOne(Next(Next(s, x[0], cron), x[1], cron), x[2], cron);
  }

  lemma {:induction false} RunSplit(s: System, x: seq<Step>, y: seq<Step>, cron: CronClock)
    ensures Run(s, x + y, cron) == Run(Run(s, x, cron), y, cron)
    decreases x
  {
    if x == [] {
      assert x + y == y;
    } else {
      assert (x + y)[1..] == x[1..] + y;
      RunSplit(Next(s, x[0], cron), x[1..], y, cron);
    }
  }
}
