/** What one undisturbed pass over the due jobs achieves: every job it finds due is moved on and
    dispatched once, up to the first whose schedule throws, and nothing else changes. */
module ScheduledPass {
  import opened Text
  import opened ScheduleExpression
  import opened ScheduledDispatch
  import opened ScheduledJobsRunner

  /** Active, with a next run that is not in the future. */
  predicate Ready(job: Job, now: int) {
    match job
    case Job(Active, _, Some(due)) => due <= now
    case _ => false
  }

  /** The rows read are those of the named jobs that are ready, in the order asked for. */
  lemma {:induction false} RowsRead(jobs: map<JobId, Job>, ids: seq<JobId>, now: int)
    ensures forall r :: r in ReadRows(jobs, ids, now) <==>
      r.id in ids && r.id in jobs && jobs[r.id] == r.row && Ready(r.row, now)
    ensures (forall i, j | 0 <= i < j < |ids| :: ids[i] != ids[j]) ==> DistinctIds(ReadRows(jobs, ids, now))
  {
    if ids != [] {
      RowsRead(jobs, ids[1..], now);
      assert ids == [ids[0]] + ids[1..];
    }
  }

  predicate DistinctIds(batch: seq<Read>) {
    forall i, j | 0 <= i < j < |batch| :: batch[i].id != batch[j].id
  }

  /** The rows are as the tables hold them, each due at a time with no run yet. */
  predicate Fresh(st: Store, batch: seq<Read>, now: int) {
    DistinctIds(batch)
    && forall r | r in batch :: r.id in st.jobs && st.jobs[r.id] == r.row && Ready(r.row, now) && KeyOf(r) !in st.runs
  }

  function KeyOf(r: Read): Key {
    (r.id, if r.row.nextRunAt.Some? then r.row.nextRunAt.value else 0)
  }

  function Keys(batch: seq<Read>): (keys: seq<Key>)
    ensures |keys| == |batch| && forall i | 0 <= i < |batch| :: keys[i] == KeyOf(batch[i])
  {
    seq(|batch|, i requires 0 <= i < |batch| => KeyOf(batch[i]))
  }

  function Following(r: Read, now: int, cron: CronClock): Option<Option<int>> {
    NextAfterExecution(r.row.schedule, now, KeyOf(r).1, cron)
  }

  /** A row moved on to its next run, and its run as the engine's answer leaves it. */
  predicate Done(t: Store, r: Read, now: int, answer: EngineAnswer, cron: CronClock) {
    && Following(r, now, cron).Some? && r.id in t.jobs
    && t.jobs[r.id] == Job(Active, r.row.schedule, Following(r, now, cron).value)
    && KeyOf(r) in t.runs
    && t.runs[KeyOf(r)] == if answer == RunId then Running else if answer == NoRun then Skipped else Failed
  }

  function Ids(batch: seq<Read>): set<JobId> {
    set r | r in batch :: r.id
  }

  /** What a pass leaves alone: every row but those of its jobs, and every run there was. */
  ghost predicate Untouched(st: Store, t: Store, ids: set<JobId>, keys: seq<Key>) {
    && t.jobs.Keys == st.jobs.Keys && t.started == st.started + keys
    && (forall id | id in st.jobs && id !in ids :: t.jobs[id] == st.jobs[id])
    && (forall key | key in st.runs :: key in t.runs && t.runs[key] == st.runs[key])
    && forall key | key in t.runs :: key in st.runs || key in keys
  }

  lemma {:induction false} UntouchedTwice(st: Store, s1: Store, t: Store, a: set<JobId>, b: set<JobId>, x: seq<Key>, y: seq<Key>)
    requires Untouched(st, s1, a, x) && Untouched(s1, t, b, y)
    ensures Untouched(st, t, a + b, x + y)
  {
  }

  lemma {:induction false} DoneStays(s1: Store, t: Store, ids: set<JobId>, keys: seq<Key>, r: Read, now: int,
          answer: EngineAnswer, cron: CronClock)
    requires Done(s1, r, now, answer, cron) && Untouched(s1, t, ids, keys) && r.id !in ids
    ensures Done(t, r, now, answer, cron)
  {
  }

  lemma {:induction false} OneJob(st: Store, r: Read, now: int, answer: EngineAnswer, cron: CronClock)
    requires Fresh(st, [r], now)
    ensures var (t, outcome) := Processed(st, r, now, answer, cron);
      if Following(r, now, cron).None? then outcome == Threw && t == st
      else outcome == Dispatched && Done(t, r, now, answer, cron) && Untouched(st, t, {r.id}, [KeyOf(r)])
  {
    assert r in [r];
  }

  lemma {:induction false} StaysFresh(st: Store, t: Store, batch: seq<Read>, now: int)
    requires batch != [] && Fresh(st, batch, now) && Untouched(st, t, {batch[0].id}, [KeyOf(batch[0])])
    ensures Fresh(t, batch[1..], now)
  {
    forall r | r in batch[1..]
      ensures r.id in t.jobs && t.jobs[r.id] == r.row && KeyOf(r) !in t.runs
    {
      assert r in batch && r.id != batch[0].id;
    }
  }

  /** How far a pass came, and that it did its work that far and nothing else. */
  ghost predicate Passed(st: Store, batch: seq<Read>, now: int, answers: seq<EngineAnswer>, cron: CronClock, k: nat)
    requires |answers| == |batch|
  {
    var (t, n, ok) := ProcessedAll(st, batch, now, answers, cron);
    k <= |batch| && (k < |batch| ==> Following(batch[k], now, cron).None?)
    && n == k && (ok <==> k == |batch|) && Untouched(st, t, Ids(batch[..k]), Keys(batch[..k]))
    && forall i | 0 <= i < k :: Done(t, batch[i], now, answers[i], cron)
  }

  lemma {:induction false} FirstDone(st: Store, batch: seq<Read>, now: int, answer: EngineAnswer, cron: CronClock)
    requires batch != [] && Fresh(st, batch, now) && Following(batch[0], now, cron).Some?
    ensures var (s1, outcome) := Processed(st, batch[0], now, answer, cron);
      outcome == Dispatched && Done(s1, batch[0], now, answer, cron)
      && Untouched(st, s1, {batch[0].id}, [KeyOf(batch[0])]) && Fresh(s1, batch[1..], now)
  {
    assert Fresh(st, [batch[0]], now);
    OneJob(st, batch[0], now, answer, cron);
    StaysFresh(st, Processed(st, batch[0], now, answer, cron).0, batch, now);
  }

  /** One pass: the jobs before the first whose schedule throws are dispatched, each once and in order. */
  lemma {:induction false} PassDispatches(st: Store, batch: seq<Read>, now: int, answers: seq<EngineAnswer>, cron: CronClock)
    returns (k: nat)
    requires |answers| == |batch| && Fresh(st, batch, now)
    ensures Passed(st, batch, now, answers, cron, k)
    decreases batch
  {
    k := 0;
    if batch == [] || Following(batch[0], now, cron).None? {
      NoneDone(st, batch, now, answers, cron);
    } else {
      FirstDone(st, batch, now, answers[0], cron);
      var m := PassDispatches(Processed(st, batch[0], now, answers[0], cron).0, batch[1..], now, answers[1..], cron);
      k := m + 1;
      OneMore(st, batch, now, answers, cron, m);
    }
  }

  lemma {:induction false} NoneDone(st: Store, batch: seq<Read>, now: int, answers: seq<EngineAnswer>, cron: CronClock)
    requires |answers| == |batch| && Fresh(st, batch, now)
    requires batch == [] || Following(batch[0], now, cron).None?
    ensures Passed(st, batch, now, answers, cron, 0)
  {
    assert batch[..0] == [] && st.started + Keys([]) == st.started;
  }

  lemma {:induction false} FirstAndRest(batch: seq<Read>, m: nat)
    requires m + 1 <= |batch| && DistinctIds(batch)
    ensures Keys(batch[..m + 1]) == [KeyOf(batch[0])] + Keys(batch[1..][..m])
    ensures Ids(batch[..m + 1]) == {batch[0].id} + Ids(batch[1..][..m])
    ensures batch[0].id !in Ids(batch[1..][..m])
  {
    var rest := batch[1..][..m];
    assert batch[..m + 1] == [batch[0]] + rest;
    forall r | r in rest ensures r.id != batch[0].id {
      var i :| 0 <= i < m && rest[i] == r;
      assert batch[i + 1] == r;
    }
  }

  lemma {:induction false} AllDone(t: Store, batch: seq<Read>, now: int, answers: seq<EngineAnswer>, cron: CronClock, m: nat)
    requires m + 1 <= |batch| && |answers| == |batch| && Done(t, batch[0], now, answers[0], cron)
    requires forall i | 0 <= i < m :: Done(t, batch[1..][i], now, answers[1..][i], cron)
    ensures forall i | 0 <= i < m + 1 :: Done(t, batch[i], now, answers[i], cron)
  {
    forall i | 0 < i < m + 1 ensures Done(t, batch[i], now, answers[i], cron) {
      assert Done(t, batch[1..][i - 1], now, answers[1..][i - 1], cron);
    }
  }

  lemma {:induction false} OneMore(st: Store, batch: seq<Read>, now: int, answers: seq<EngineAnswer>, cron: CronClock, m: nat)
    requires batch != [] && |answers| == |batch| && DistinctIds(batch)
    requires var (s1, outcome) := Processed(st, batch[0], now, answers[0], cron);
      outcome == Dispatched && Done(s1, batch[0], now, answers[0], cron)
      && Untouched(st, s1, {batch[0].id}, [KeyOf(batch[0])])
      && Passed(s1, batch[1..], now, answers[1..], cron, m)
    ensures Passed(st, batch, now, answers, cron, m + 1)
  {
    var s1 := Processed(st, batch[0], now, answers[0], cron).0;
    var t := ProcessedAll(s1, batch[1..], now, answers[1..], cron).0;
    var rest := batch[1..][..m];
    FirstAndRest(batch, m);
    UntouchedTwice(st, s1, t, {batch[0].id}, Ids(rest), [KeyOf(batch[0])], Keys(rest));
    DoneStays(s1, t, Ids(rest), Keys(rest), batch[0], now, answers[0], cron);
    AllDone(t, batch, now, answers, cron, m);
    assert m + 1 < |batch| ==> batch[m + 1] == batch[1..][m];
  }

  /** The row of a job that a complete pass has read, and that of one it has not. */
  lemma {:induction false} RowAfterPass(st: Store, t: Store, batch: seq<Read>, now: int, answers: seq<EngineAnswer>,
          cron: CronClock, id: JobId)
    requires |answers| == |batch| && Untouched(st, t, Ids(batch), Keys(batch)) && id in st.jobs
    requires forall i | 0 <= i < |batch| :: Done(t, batch[i], now, answers[i], cron)
    requires forall r | r in batch :: r.id in st.jobs && r.row == st.jobs[r.id]
    ensures var r := Read(id, st.jobs[id]);
      id in t.jobs
      && if r in batch then KeyOf(r) in t.started && KeyOf(r) in t.runs && Some(t.jobs[id].nextRunAt) == Following(r, now, cron)
         else t.jobs[id] == st.jobs[id]
  {
    var r := Read(id, st.jobs[id]);
    if r in batch {
      var i :| 0 <= i < |batch| && batch[i] == r;
      assert Keys(batch)[i] == KeyOf(r);
    }
  }

  /** With no schedule that throws, every job that is ready is dispatched and moved on, and no other row changes. */
  lemma {:induction false} EveryDueJobIsDispatched(st: Store, ids: seq<JobId>, now: int, answers: seq<EngineAnswer>,
          cron: CronClock)
    requires forall i, j | 0 <= i < j < |ids| :: ids[i] != ids[j]
    requires |answers| == |ReadRows(st.jobs, ids, now)|
    requires forall r | r in ReadRows(st.jobs, ids, now) :: KeyOf(r) !in st.runs && Following(r, now, cron).Some?
    ensures var (t, n, ok) := ProcessedAll(st, ReadRows(st.jobs, ids, now), now, answers, cron);
      ok && t.jobs.Keys == st.jobs.Keys
      && forall id | id in st.jobs ::
           if id in ids && Ready(st.jobs[id], now)
           then (id, st.jobs[id].nextRunAt.value) in t.started && (id, st.jobs[id].nextRunAt.value) in t.runs
                && Some(t.jobs[id].nextRunAt) == Following(Read(id, st.jobs[id]), now, cron)
           else t.jobs[id] == st.jobs[id]
  {
    var batch := ReadRows(st.jobs, ids, now);
    RowsRead(st.jobs, ids, now);
    var k := PassDispatches(st, batch, now, answers, cron);
    assert batch[..k] == batch;
    forall id | id in st.jobs ensures id in ids && Ready(st.jobs[id], now) <==> Read(id, st.jobs[id]) in batch {
    }
    forall id | id in st.jobs {
      RowAfterPass(st, ProcessedAll(st, batch, now, answers, cron).0, batch, now, answers, cron, id);
    }
  }
}
