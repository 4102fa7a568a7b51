/** One poller's pass over the due jobs, written against the job and run tables it updates. */
module ScheduledJobsRunner {
  import opened Text
  import opened ScheduleExpression
  import opened ScheduledDispatch

  datatype Outcome = Dispatched | NotDispatched | Threw

  /** What one job of the batch does to the store when nothing interleaves. */
  function Processed(st: Store, r: Read, now: int, answer: EngineAnswer, cron: CronClock): (Store, Outcome) {
    match r.row.nextRunAt
    case None => (st, NotDispatched)
    case Some(due) =>
      match NextAfterExecution(r.row.schedule, now, due, cron)
      case None => (st, Threw)
      case Some(next) =>
        if Claimable(st.jobs, r.id, due) then
          var claimed := st.(jobs := st.jobs[r.id := st.jobs[r.id].(nextRunAt := next)]);
          if (r.id, due) in st.runs then (claimed, NotDispatched)
          else
            (claimed.(runs := st.runs[(r.id, due) := AfterStart(answer)], started := st.started + [(r.id, due)]), Dispatched)
        else (st, NotDispatched)
  }

  /** A pass over the whole batch: the store, the jobs dispatched, and whether it ran to the end. */
  function ProcessedAll(st: Store, batch: seq<Read>, now: int, answers: seq<EngineAnswer>,
          cron: CronClock): (Store, nat, bool)
    requires |answers| == |batch|
    decreases batch
  {
    if batch == [] then (st, 0, true)
    else
      var (next, outcome) := Processed(st, batch[0], now, answers[0], cron);
      if outcome.Threw? then (next, 0, false)
      else
        var (last, n, ok) := ProcessedAll(next, batch[1..], now, answers[1..], cron);
        (last, n + (if outcome.Dispatched? then 1 else 0), ok)
  }

  class Runner {
    var jobs: map<JobId, Job>
    var runs: map<Key, RunStatus>
    var started: seq<Key>
    ghost var updates: seq<(Key, RunStatus)>   // the status updates of run rows, in order

    function Tables(): Store
      reads this
    {
      Store(jobs, runs, started)
    }

    method AdvanceNextRunIfDue(id: JobId, dueAt: int, nextRunAt: Option<int>) returns (claimed: bool)
      modifies this`jobs
      ensures claimed <==> Claimable(old(jobs), id, dueAt)
      ensures jobs == if claimed then old(jobs)[id := old(jobs)[id].(nextRunAt := nextRunAt)] else old(jobs)
    {
      claimed := id in jobs && jobs[id].status == Active && jobs[id].nextRunAt == Some(dueAt);
      if claimed {
        jobs := jobs[id := jobs[id].(nextRunAt := nextRunAt)];
      }
    }

    method CreateIfNotExistsByDueKey(key: Key) returns (created: bool)
      modifies this`runs
      ensures created <==> key !in old(runs)
      ensures runs == if created then old(runs)[key := Triggered] else old(runs)
    {
      created := key !in runs;
      if created {
        runs := runs[key := Triggered];
      }
    }

    /** RUNNING first, then the engine's answer decides what the run row ends as. */
    method DispatchScheduledJobRun(key: Key, answer: EngineAnswer)
      modifies this`runs, this`started, this`updates
      ensures runs == old(runs)[key := AfterStart(answer)]
      ensures started == old(started) + [key]
      ensures updates == old(updates) + [(key, Running)] + (if answer.RunId? then [] else [(key, AfterStart(answer))])
    {
      runs, updates := runs[key := Running], updates + [(key, Running)];
      started := started + [key];
      match answer {
        case RunId =>
        case NoRun => runs, updates := runs[key := Skipped], updates + [(key, Skipped)];
        case EngineError => runs, updates := runs[key := Failed], updates + [(key, Failed)];
      }
    }

    method ProcessDueScheduledJob(r: Read, now: int, answer: EngineAnswer, cron: CronClock) returns (outcome: Outcome)
      modifies this
      ensures (Tables(), outcome) == Processed(old(Tables()), r, now, answer, cron)
    {
      if r.row.nextRunAt == None {
        return NotDispatched;
      }
      var due := r.row.nextRunAt.value;
      var next := NextAfterExecution(r.row.schedule, now, due, cron);
      if next == None {
        return Threw;
      }
      var claimed := AdvanceNextRunIfDue(r.id, due, next.value);
      if !claimed {
        return NotDispatched;
      }
      var created := CreateIfNotExistsByDueKey((r.id, due));
      if !created {
        return NotDispatched;
      }
      DispatchScheduledJobRun((r.id, due), answer);
      assert runs == old(runs)[(r.id, due) := AfterStart(answer)];
      return Dispatched;
    }

    /** `None` when a schedule expression throws part way. */
    method ProcessDueSchedules(batch: seq<Read>, now: int, answers: seq<EngineAnswer>, cron: CronClock)
      returns (counts: Option<(nat, nat, nat)>)
      requires |answers| == |batch|
      modifies this
      ensures var (st, n, ok) := ProcessedAll(old(Tables()), batch, now, answers, cron);
        Tables() == st && counts == if ok then Some((|batch|, n, |batch| - n)) else None
      ensures counts.Some? ==> |started| == old(|started|) + counts.value.1
    {
      var dispatched, skipped := 0, 0;
      for i := 0 to |batch|
        invariant dispatched + skipped == i
        invariant |started| == old(|started|) + dispatched
        invariant var whole := ProcessedAll(old(Tables()), batch, now, answers, cron);
          var rest := ProcessedAll(Tables(), batch[i..], now, answers[i..], cron);
          whole.0 == rest.0 && whole.2 == rest.2 && (whole.2 ==> whole.1 == dispatched + rest.1)
      {
        assert batch[i..][1..] == batch[i + 1..] && answers[i..][1..] == answers[i + 1..];
        var outcome := ProcessDueScheduledJob(batch[i], now, answers[i], cron);
        if outcome == Threw {
          return None;
        }
        if outcome == Dispatched {
          dispatched := dispatched + 1;
        } else {
          skipped := skipped + 1;
        }
      }
      return Some((|batch|, dispatched, skipped));
    }
  }

  /** The protocol steps one job of the batch takes when nothing interleaves. */
  function StepsFor(st: Store, r: Read, now: int, p: nat, answer: EngineAnswer, cron: CronClock): seq<Step> {
    var key := if r.row.nextRunAt.Some? then (r.id, r.row.nextRunAt.value) else (r.id, 0);
    var claims := r.row.nextRunAt.Some? && Claimable(st.jobs, r.id, key.1)
      && NextAfterExecution(r.row.schedule, now, key.1, cron).Some?;
    if !claims then [TryClaim(p)]
    else if key in st.runs then [TryClaim(p), Insert(p)]
    else [TryClaim(p), Insert(p), Start(p, answer)]
  }

  /** The claim step on the head of a batch does what the first half of the pass does. */
  lemma {:induction false} ClaimStep(s: System, p: nat, cron: CronClock) returns (s1: System)
    requires p in s.pollers && s.pollers[p].Working? && s.pollers[p].rest != []
    ensures s1 == Next(s, TryClaim(p), cron)
    ensures var w := s.pollers[p]; var r := w.rest[0];
      if r.row.nextRunAt == None then s1 == s.(pollers := s.pollers[p := Working(w.now, w.rest[1..])])
      else
        var due := r.row.nextRunAt.value;
        var next := NextAfterExecution(r.row.schedule, w.now, due, cron);
        if next == None then s1 == s.(pollers := s.pollers - {p})
        else if Claimable(s.store.jobs, r.id, due) then
          s1.store == s.store.(jobs := s.store.jobs[r.id := s.store.jobs[r.id].(nextRunAt := next.value)])
          && s1.pollers == s.pollers[p := Claimed(w.now, (r.id, due), w.rest[1..])]
        else s1 == s.(pollers := s.pollers[p := Working(w.now, w.rest[1..])])
  {
    s1 := Next(s, TryClaim(p), cron);
  }

  /** From a claim with a new key, insert and start dispatch it and return to the batch. */
  lemma {:induction false} InsertAndStart(s: System, p: nat, answer: EngineAnswer, cron: CronClock) returns (t: System)
    requires p in s.pollers && s.pollers[p].Claimed? && s.pollers[p].key !in s.store.runs
    ensures t == Next(Next(s, Insert(p), cron), Start(p, answer), cron)
    ensures var c := s.pollers[p];
      t.store == s.store.(runs := s.store.runs[c.key := AfterStart(answer)], started := s.store.started + [c.key])
      && t.pollers == s.pollers[p := Working(c.now, c.rest)]
  {
    var c := s.pollers[p];
    var s1 := Next(s, Insert(p), cron);
    t := Next(s1, Start(p, answer), cron);
    assert s1.pollers[p] == Inserted(c.now, c.key, c.rest);
    assert s.store.runs[c.key := Triggered][c.key := AfterStart(answer)] == s.store.runs[c.key := AfterStart(answer)];
    assert s.pollers[p := s1.pollers[p]][p := Working(c.now, c.rest)] == s.pollers[p := Working(c.now, c.rest)];
  }

  /** The sequential pass is a run of the protocol: the same tables, and the poller is left with the
      rest of its batch, or gone after an exception. */
  lemma {:induction false} ProcessedIsProtocolRun(s: System, p: nat, answer: EngineAnswer, cron: CronClock)
    requires p in s.pollers && s.pollers[p].Working? && s.pollers[p].rest != []
    ensures var w := s.pollers[p];
      var (st, outcome) := Processed(s.store, w.rest[0], w.now, answer, cron);
      var t := Run(s, StepsFor(s.store, w.rest[0], w.now, p, answer, cron), cron);
      t.store == st
      && t.pollers == (if outcome.Threw? then s.pollers - {p} else s.pollers[p := Working(w.now, w.rest[1..])])
  {
    var w := s.pollers[p];
    var steps := StepsFor(s.store, w.rest[0], w.now, p, answer, cron);
    var s1 := ClaimStep(s, p, cron);
    RunOne(s, TryClaim(p), cron);
    if |steps| == 2 {
      assert steps == [TryClaim(p)] + [Insert(p)];
      RunSplit(s, [TryClaim(p)], [Insert(p)], cron);
      RunOne(s1, Insert(p), cron);
    } else if |steps| == 3 {
      RunThree(s, steps, cron);
      var t := InsertAndStart(s1, p, answer, cron);
    }
  }
}
