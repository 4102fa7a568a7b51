/** The service's own code for a manual retry, uninterrupted, against the steps of the state machine. */
module ChatManualRetry {
  import opened Text
  import opened ChatRetryIds
  import opened ChatRetryDecision
  import opened ChatRetryProtocol

  /** `NotFound` and `Conflict` are refusals; `NotQueued` is the error of the queue, passed on. */
  datatype Result = NotFound | Conflict | NotQueued | Retried

  function ManualJob(sid: Sid, now: nat, at: nat): Job {
    Job(ManualRetryJobId(sid, at), sid, Some(now))
  }

  /** The queue with the new job and without the one the row waited for. */
  function Requeued(queue: Queue, row: Row, job: Job, removed: bool): Queue {
    if row.retry.Some? then Remove(Add(queue, job), row.retry.value.jobId, removed) else Add(queue, job)
  }

  /** A session that failed or waits for a retry starts anew; if its job cannot be queued nothing changes. */
  function RetriedAtOnce(s: State, sid: Sid, now: nat, at: nat, enqueued: bool, removed: bool): State {
    if sid !in s.rows || !MayRetryManually(s.rows[sid]) || !enqueued then s
    else s.(rows := s.rows[sid := Row(Starting, StartingUp, None)],
            queue := Requeued(s.queue, s.rows[sid], ManualJob(sid, now, at), removed),
            sent := s.sent + {ManualJob(sid, now, at)})
  }

  function WrittenOver(s: State, op: nat, sid: Sid): State
    requires sid in s.rows
  {
    s.(rows := s.rows[sid := Row(Starting, StartingUp, None)],
       retries := s.retries[op := ManualRetry(sid, s.rows[sid], Written(s.rows[sid]))])
  }

  lemma {:induction false} ReadThenWrite(s: State, op: nat, sid: Sid, c: Config)
    requires op !in s.retries && sid in s.rows && MayRetryManually(s.rows[sid])
    ensures Next(Next(s, ReadForRetry(op, sid), c), WriteForRetry(op, sid), c) == WrittenOver(s, op, sid)
  {
    var read := Next(s, ReadForRetry(op, sid), c);
    assert read == s.(retries := s.retries[op := ManualRetry(sid, s.rows[sid], Reading)]);
    assert Reads(read, op, sid);
    assert Next(read, WriteForRetry(op, sid), c).retries == WrittenOver(s, op, sid).retries;
  }

  lemma {:induction false} AddThenRemove(s: State, op: nat, sid: Sid, now: nat, at: nat, enqueued: bool, removed: bool, c: Config)
    requires op !in s.retries && sid in s.rows && MayRetryManually(s.rows[sid])
    ensures Next(Next(WrittenOver(s, op, sid), AddForRetry(op, sid, now, at, enqueued), c), RemoveForRetry(op, sid, removed), c)
         == RetriedAtOnce(s, sid, now, at, enqueued, removed)
  {
    var w := WrittenOver(s, op, sid);
    var added := Next(w, AddForRetry(op, sid, now, at, enqueued), c);
    assert Writes(w, op, sid);
    if enqueued {
      assert added.retries - {op} == s.retries;
    } else {
      assert added.retries == s.retries && added.rows == s.rows;
    }
  }

  /** The steps of a manual retry in a row do just that. */
  lemma {:induction false} RetriedInSteps(s: State, op: nat, sid: Sid, now: nat, at: nat, enqueued: bool, removed: bool, c: Config)
    requires op !in s.retries
    ensures var written := Next(Next(s, ReadForRetry(op, sid), c), WriteForRetry(op, sid), c);
            Next(Next(written, AddForRetry(op, sid, now, at, enqueued), c), RemoveForRetry(op, sid, removed), c)
            == RetriedAtOnce(s, sid, now, at, enqueued, removed)
  {
    if sid in s.rows && MayRetryManually(s.rows[sid]) {
      ReadThenWrite(s, op, sid, c);
      AddThenRemove(s, op, sid, now, at, enqueued, removed, c);
    }
  }

  class ChatSessionsService {
    var rows: map<Sid, Row>
    var queue: Queue
    var retries: map<nat, ManualRetry>
    ghost var sent: set<Job>
    ghost var executed: seq<Execution>
    ghost var scheduled: seq<Scheduling>

    constructor ()
      ensures Tables() == EMPTY
    {
      rows, queue, retries, sent, executed, scheduled := map[], map[], map[], {}, [], [];
    }

    ghost function Tables(): State
      reads this
    {
      State(rows, queue, retries, sent, executed, scheduled)
    }

    method RemoveDelayedRetryJob(retry: Option<Retry>, removed: bool)
      modifies this`queue
      ensures queue == if retry.Some? then Remove(old(queue), retry.value.jobId, removed) else old(queue)
    {
      if retry.None? {
        return;
      }
      if removed {
        queue := queue - {retry.value.jobId};
      }
    }

    method RetrySession(sid: Sid, now: nat, at: nat, enqueued: bool, removed: bool) returns (result: Result)
      modifies this`rows, this`queue, this`sent
      ensures Tables() == RetriedAtOnce(old(Tables()), sid, now, at, enqueued, removed)
      ensures result == NotFound <==> sid !in old(rows)
      ensures result == Conflict <==> sid in old(rows) && !MayRetryManually(old(rows)[sid])
      ensures result == NotQueued ==> Tables() == old(Tables()) && !enqueued
      ensures result == Retried ==> rows[sid] == Row(Starting, StartingUp, None)
    {
      if sid !in rows {
        return NotFound;
      }
      var session := rows[sid];
      if session.status == Running && session.phase == Executing {
        return Conflict;
      }
      if session.status != Failed && !(session.status == Running && session.phase == RetryScheduled) {
        return Conflict;
      }
      rows := rows[sid := Row(Starting, StartingUp, None)];
      var job := ManualJob(sid, now, at);
      if !enqueued {
        rows := rows[sid := session];
        return NotQueued;
      }
      if job.id !in queue {
        queue := queue[job.id := Waiting(job)];
      }
      sent := sent + {job};
      RemoveDelayedRetryJob(session.retry, removed);
      return Retried;
    }
  }
}
