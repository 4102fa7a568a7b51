/** Requests for approval and the promises that wait for them. Every step is what runs between two
    awaits: approving and rejecting read, then write, then resolve; a poll reads, then acts; the write
    of a timeout lands later or fails. */
module ApprovalWaiters {
  import opened Text

  type RequestId = nat
  type WaiterId = nat
  type OpId = nat

  datatype Status = Pending | Approved | Rejected | Expired

  /** A promise with its timers. Settling it again has no effect. */
  datatype Waiter = Waiter(request: RequestId, deadline: int, interval: bool, timeout: bool, settled: Option<Status>)

  /** An approval or rejection that saw its request pending. */
  datatype Decision = Decision(request: RequestId, verdict: Status, saved: bool)

  /** A poll that has read a status for its waiter. */
  datatype Poll = Poll(waiter: WaiterId, request: RequestId, status: Status)

  /** `pendingWaits` holds one waiter per request, the last to wait. `decided` and `fired` are histories:
      the verdicts given on a request seen pending, and the requests some waiter's timeout fired for. */
  datatype Service = Service(
    now: int,
    rows: map<RequestId, Status>,
    pendingWaits: map<RequestId, WaiterId>,
    waiters: map<WaiterId, Waiter>,
    decisions: map<OpId, Decision>,
    polls: map<OpId, Poll>,
    expiries: multiset<RequestId>,
    decided: set<(RequestId, Status)>,
    fired: set<RequestId>)

  datatype Step =
    | Create(r: RequestId)
    | Wait(w: WaiterId, r: RequestId, timeoutMs: nat)
    | Decide(op: OpId, r: RequestId, verdict: Status)
    | Save(op: OpId)
    | Resolve(op: OpId)
    | PollRead(op: OpId, w: WaiterId)
    | PollFinish(op: OpId)
    | Timeout(w: WaiterId)
    | Expire(r: RequestId, persisted: bool)
    | Tick(ms: nat)

  function Settled(w: Waiter, status: Status): Waiter {
    if w.settled.Some? then w else w.(settled := Some(status))
  }

  /** Timers fire on time: the clock does not pass the deadline of a timer that is set. */
  predicate Punctual(s: Service, ms: nat) {
    forall w | w in s.waiters && s.waiters[w].timeout :: s.now + ms <= s.waiters[w].deadline
  }

  function Waiting(s: Service, w: WaiterId, r: RequestId, timeoutMs: nat): Service {
    s.(pendingWaits := s.pendingWaits[r := w],
       waiters := s.waiters[w := Waiter(r, s.now + timeoutMs, true, true, None)])
  }

  function Resolved(s: Service, r: RequestId, verdict: Status): Service {
    if r in s.pendingWaits && s.pendingWaits[r] in s.waiters then
      var w := s.pendingWaits[r];
      s.(waiters := s.waiters[w := Settled(s.waiters[w], verdict)], pendingWaits := s.pendingWaits - {r})
    else s
  }

  /** Both timers off, the request no longer waited for, the promise settled. */
  function Finished(s: Service, w: WaiterId, status: Status): Service
    requires w in s.waiters
  {
    s.(waiters := s.waiters[w := Settled(s.waiters[w].(interval := false, timeout := false), status)],
       pendingWaits := s.pendingWaits - {s.waiters[w].request})
  }

  function Next(s: Service, step: Step): Service {
    match step
    case Create(r) => if r in s.rows then s else s.(rows := s.rows[r := Pending])
    case Wait(w, r, timeoutMs) => if w in s.waiters || r !in s.rows then s else Waiting(s, w, r, timeoutMs)
    case Decide(op, r, verdict) =>
      if op in s.decisions || r !in s.rows || s.rows[r] != Pending || !(verdict.Approved? || verdict.Rejected?) then s
      else s.(decisions := s.decisions[op := Decision(r, verdict, false)], decided := s.decided + {(r, verdict)})
    case Save(op) =>
      if op !in s.decisions || s.decisions[op].saved then s
      else s.(rows := s.rows[s.decisions[op].request := s.decisions[op].verdict],
              decisions := s.decisions[op := s.decisions[op].(saved := true)])
    case Resolve(op) =>
      if op !in s.decisions || !s.decisions[op].saved then s
      else Resolved(s.(decisions := s.decisions - {op}), s.decisions[op].request, s.decisions[op].verdict)
    case PollRead(op, w) =>
      if op in s.polls || w !in s.waiters || !s.waiters[w].interval || s.waiters[w].request !in s.rows then s
      else s.(polls := s.polls[op := Poll(w, s.waiters[w].request, s.rows[s.waiters[w].request])])
    case PollFinish(op) =>
      if op !in s.polls then s
      else
        var t := s.(polls := s.polls - {op});
        if s.polls[op].status == Pending || s.polls[op].waiter !in s.waiters then t
        else Finished(t, s.polls[op].waiter, s.polls[op].status)
    case Timeout(w) =>
      if w !in s.waiters || !s.waiters[w].timeout || s.now < s.waiters[w].deadline then s
      else Finished(s, w, Expired).(expiries := s.expiries + multiset{s.waiters[w].request},
                                    fired := s.fired + {s.waiters[w].request})
    case Expire(r, persisted) =>
      if r !in s.expiries then s
      else s.(expiries := s.expiries - multiset{r}, rows := if persisted then s.rows[r := Expired] else s.rows)
    case Tick(ms) => if Punctual(s, ms) then s.(now := s.now + ms) else s
  }

  function Run(s: Service, steps: seq<Step>): Service {
    if steps == [] then s else Next(Run(s, steps[..|steps| - 1]), steps[|steps| - 1])
  }

  const START := Service(0, map[], map[], map[], map[], map[], multiset{}, {}, {})

  // ----- what every step keeps -----

  type Rows = map<RequestId, Status>

  /** The histories the statuses are explained by. */
  datatype History = History(decided: set<(RequestId, Status)>, fired: set<RequestId>)

  function HistoryOf(s: Service): History {
    History(s.decided, s.fired)
  }

  /** A status other than pending has a cause: a verdict on the request while it was pending, or a timeout. */
  predicate Caused(h: History, r: RequestId, status: Status) {
    match status
    case Pending => true
    case Expired => r in h.fired
    case _ => (r, status) in h.decided
  }

  predicate TimersOk(now: int, w: Waiter) {
    (w.interval <==> w.timeout) && (w.settled.None? ==> w.timeout) && (w.timeout ==> now <= w.deadline)
  }

  predicate SettledOk(rows: Rows, h: History, w: Waiter) {
    && w.request in rows
    && (w.settled.Some? ==>
          && w.settled.value != Pending && Caused(h, w.request, w.settled.value)
          && (w.settled.value != Expired ==> rows[w.request] != Pending))
  }

  predicate DecisionOk(rows: Rows, h: History, d: Decision) {
    d.request in rows && (d.verdict.Approved? || d.verdict.Rejected?) && (d.request, d.verdict) in h.decided
    && (d.saved ==> rows[d.request] != Pending)
  }

  predicate PollOk(rows: Rows, h: History, waiters: map<WaiterId, Waiter>, p: Poll) {
    p.waiter in waiters && waiters[p.waiter].request == p.request && p.request in rows
    && Caused(h, p.request, p.status) && (p.status != Pending ==> rows[p.request] != Pending)
  }

  predicate RowsSound(rows: Rows, h: History, expiries: multiset<RequestId>) {
    (forall r | r in rows :: Caused(h, r, rows[r])) && (forall r | r in expiries :: r in h.fired && r in rows)
  }

  predicate WaitersSound(now: int, rows: Rows, h: History, waiters: map<WaiterId, Waiter>) {
    forall w | w in waiters :: TimersOk(now, waiters[w]) && SettledOk(rows, h, waiters[w])
  }

  predicate OpsSound(rows: Rows, h: History, waiters: map<WaiterId, Waiter>, decisions: map<OpId, Decision>,
          polls: map<OpId, Poll>) {
    && (forall op | op in decisions :: DecisionOk(rows, h, decisions[op]))
    && (forall op | op in polls :: PollOk(rows, h, waiters, polls[op]))
  }

  predicate WaitsSound(waiters: map<WaiterId, Waiter>, pendingWaits: map<RequestId, WaiterId>) {
    forall r | r in pendingWaits :: pendingWaits[r] in waiters && waiters[pendingWaits[r]].request == r
  }

  predicate Sound(s: Service) {
    && RowsSound(s.rows, HistoryOf(s), s.expiries)
    && WaitersSound(s.now, s.rows, HistoryOf(s), s.waiters)
    && OpsSound(s.rows, HistoryOf(s), s.waiters, s.decisions, s.polls)
    && WaitsSound(s.waiters, s.pendingWaits)
  }

  /** Rows, once settled, do not become pending again, and histories grow. */
  predicate Onward(s: Service, t: Service) {
    && s.rows.Keys <= t.rows.Keys && s.decided <= t.decided && s.fired <= t.fired && s.now <= t.now
    && (forall r | r in s.rows && s.rows[r] != Pending :: t.rows[r] != Pending)
    && (forall w | w in s.waiters ::
          && w in t.waiters && t.waiters[w].request == s.waiters[w].request
          && t.waiters[w].deadline == s.waiters[w].deadline
          && (s.waiters[w].settled.Some? ==> t.waiters[w].settled == s.waiters[w].settled))
  }

  predicate Keeps(s: Service, t: Service) {
    Sound(t) && Onward(s, t)
  }

  lemma {:induction false} RowWritten(s: Service, r: RequestId, status: Status)
    requires Sound(s) && r in s.rows && status != Pending && Caused(HistoryOf(s), r, status)
    ensures Keeps(s, s.(rows := s.rows[r := status]))
  {
  }

  /** More history keeps what is explained by less of it. */
  lemma {:induction false} HistoryGrows(s: Service, t: Service)
    requires Sound(s) && s.decided <= t.decided && s.fired <= t.fired
    requires t == s.(decided := t.decided, fired := t.fired)
    ensures Keeps(s, t)
  {
  }

  lemma {:induction false} OpDropped(s: Service, op: OpId)
    requires Sound(s)
    ensures Keeps(s, s.(decisions := s.decisions - {op}))
    ensures Keeps(s, s.(polls := s.polls - {op}))
  {
  }

  lemma {:induction false} FinishedKeeps(s: Service, w: WaiterId, status: Status)
    requires Sound(s) && w in s.waiters && status != Pending
    requires Caused(HistoryOf(s), s.waiters[w].request, status)
    requires status != Expired ==> s.rows[s.waiters[w].request] != Pending
    ensures Keeps(s, Finished(s, w, status))
  {
  }

  lemma {:induction false} ResolvedKeeps(s: Service, r: RequestId, verdict: Status)
    requires Sound(s) && r in s.rows && (verdict.Approved? || verdict.Rejected?)
    requires Caused(HistoryOf(s), r, verdict) && s.rows[r] != Pending
    ensures Keeps(s, Resolved(s, r, verdict))
  {
  }

  lemma {:induction false} OnwardThen(s: Service, t: Service, u: Service)
    requires Onward(s, t) && Onward(t, u)
    ensures Onward(s, u)
  {
  }

  lemma {:induction false} RowAdded(s: Service, r: RequestId)
    requires Sound(s) && r !in s.rows
    ensures Keeps(s, s.(rows := s.rows[r := Pending]))
  {
  }

  lemma {:induction false} DecideKeeps(s: Service, op: OpId, r: RequestId, verdict: Status)
    requires Sound(s) && op !in s.decisions && r in s.rows && (verdict.Approved? || verdict.Rejected?)
    ensures Keeps(s, s.(decisions := s.decisions[op := Decision(r, verdict, false)], decided := s.decided + {(r, verdict)}))
  {
  }

  lemma {:induction false} SaveKeeps(s: Service, op: OpId)
    requires Sound(s)
    ensures Keeps(s, Next(s, Save(op)))
  {
    if op in s.decisions {
      var d := s.decisions[op];
      assert DecisionOk(s.rows, HistoryOf(s), d);
      RowWritten(s, d.request, d.verdict);
    }
  }

  lemma {:induction false} ResolveKeeps(s: Service, op: OpId)
    requires Sound(s)
    ensures Keeps(s, Next(s, Resolve(op)))
  {
    if op in s.decisions && s.decisions[op].saved {
      assert DecisionOk(s.rows, HistoryOf(s), s.decisions[op]);
      OpDropped(s, op);
      ResolvedKeeps(s.(decisions := s.decisions - {op}), s.decisions[op].request, s.decisions[op].verdict);
    }
  }

  lemma {:induction false} PollFinishKeeps(s: Service, op: OpId)
    requires Sound(s)
    ensures Keeps(s, Next(s, PollFinish(op)))
  {
    if op in s.polls {
      var p := s.polls[op];
      assert PollOk(s.rows, HistoryOf(s), s.waiters, p);
      OpDropped(s, op);
      if p.status != Pending {
        FinishedKeeps(s.(polls := s.polls - {op}), p.waiter, p.status);
      }
    }
  }

  lemma {:induction false} TimeoutKeeps(s: Service, w: WaiterId)
    requires Sound(s)
    ensures Keeps(s, Next(s, Timeout(w)))
  {
    if w in s.waiters && s.waiters[w].timeout && s.now >= s.waiters[w].deadline {
      var r := s.waiters[w].request;
      assert SettledOk(s.rows, HistoryOf(s), s.waiters[w]);
      var t := s.(fired := s.fired + {r});
      HistoryGrows(s, t);
      FinishedKeeps(t.(expiries := t.expiries + multiset{r}), w, Expired);
    }
  }

  lemma {:induction false} ExpireKeeps(s: Service, r: RequestId, persisted: bool)
    requires Sound(s)
    ensures Keeps(s, Next(s, Expire(r, persisted)))
  {
    if r in s.expiries && persisted {
      RowWritten(s, r, Expired);
    }
  }

  lemma {:induction false} WaitingKeeps(s: Service, w: WaiterId, r: RequestId, timeoutMs: nat)
    requires Sound(s) && w !in s.waiters && r in s.rows
    ensures Keeps(s, Waiting(s, w, r, timeoutMs))
  {
  }

  lemma {:induction false} PollReadKeeps(s: Service, op: OpId, w: WaiterId)
    requires Sound(s)
    ensures Keeps(s, Next(s, PollRead(op, w)))
  {
  }

  lemma {:induction false} TickKeeps(s: Service, ms: nat)
    requires Sound(s)
    ensures Keeps(s, Next(s, Tick(ms)))
  {
  }

  lemma {:induction false} NextKeeps(s: Service, step: Step)
    requires Sound(s)
    ensures Keeps(s, Next(s, step))
  {
    match step {
      case Decide(op, r, verdict) =>
        if op !in s.decisions && r in s.rows && (verdict.Approved? || verdict.Rejected?) {
          DecideKeeps(s, op, r, verdict);
        }
      case Save(op) => SaveKeeps(s, op);
      case Resolve(op) => ResolveKeeps(s, op);
      case PollFinish(op) => PollFinishKeeps(s, op);
      case Timeout(w) => TimeoutKeeps(s, w);
      case Expire(r, persisted) => ExpireKeeps(s, r, persisted);
      case Create(r) =>
        if r !in s.rows {
          RowAdded(s, r);
        }
      case Wait(w, r, timeoutMs) =>
        if w !in s.waiters && r in s.rows {
          WaitingKeeps(s, w, r, timeoutMs);
        }
      case PollRead(op, w) => PollReadKeeps(s, op, w);
      case Tick(ms) => TickKeeps(s, ms);
    }
  }

  lemma {:induction false} ReachableIsSound(steps: seq<Step>)
    ensures Sound(Run(START, steps))
    decreases |steps|
  {
    if steps != [] {
      ReachableIsSound(steps[..|steps| - 1]);
      NextKeeps(Run(START, steps[..|steps| - 1]), steps[|steps| - 1]);
    }
  }

  /** A promise settles once: with whatever it has settled, it stays so through every further run. */
  lemma {:induction false} SettlesOnce(s: Service, steps: seq<Step>, w: WaiterId)
    requires Sound(s) && w in s.waiters
    ensures Sound(Run(s, steps)) && Onward(s, Run(s, steps))
    ensures s.waiters[w].settled.Some? ==> w in Run(s, steps).waiters && Run(s, steps).waiters[w].settled == s.waiters[w].settled
    decreases |steps|
  {
    if steps != [] {
      var t := Run(s, steps[..|steps| - 1]);
      SettlesOnce(s, steps[..|steps| - 1], w);
      NextKeeps(t, steps[|steps| - 1]);
      OnwardThen(s, t, Next(t, steps[|steps| - 1]));
    }
  }

  /** A promise settles with a verdict only if that verdict was given while the request was pending,
      and as expired only if a timeout for its request fired. It has settled, with both timers off,
      once its deadline has passed, also when another waiter has taken its place. */
  lemma {:induction false} WaitersSettle(steps: seq<Step>, w: WaiterId)
    requires w in Run(START, steps).waiters
    ensures var s := Run(START, steps);
            var waiter := s.waiters[w];
            && (waiter.settled == Some(Approved) ==> (waiter.request, Approved) in s.decided)
            && (waiter.settled == Some(Rejected) ==> (waiter.request, Rejected) in s.decided)
            && (waiter.settled == Some(Expired) ==> waiter.request in s.fired)
            && waiter.settled != Some(Pending)
            && (s.now > waiter.deadline ==> waiter.settled.Some? && !waiter.interval && !waiter.timeout)
  {
    ReachableIsSound(steps);
    var s := Run(START, steps);
    assert TimersOk(s.now, s.waiters[w]) && SettledOk(s.rows, HistoryOf(s), s.waiters[w]);
  }

  /** When a verdict is resolved the last waiter of its request settles with it, unless it had settled. */
  lemma {:induction false} VerdictReachesLastWaiter(steps: seq<Step>, op: OpId)
    requires var s := Run(START, steps);
             op in s.decisions && s.decisions[op].saved && s.decisions[op].request in s.pendingWaits
    ensures var s := Run(START, steps);
            var w := s.pendingWaits[s.decisions[op].request];
            var t := Next(s, Resolve(op));
            && w in s.waiters && w in t.waiters && s.waiters[w].request == s.decisions[op].request
            && t.waiters[w].settled
               == (if s.waiters[w].settled.Some? then s.waiters[w].settled else Some(s.decisions[op].verdict))
  {
    ReachableIsSound(steps);
  }

  /** A poll that finds a status other than pending settles its own waiter with it, also one that
      another waiter has replaced, and clears its timers. */
  lemma {:induction false} PollReachesItsWaiter(steps: seq<Step>, op: OpId)
    requires var s := Run(START, steps);
             op in s.polls && s.polls[op].status != Pending
    ensures var s := Run(START, steps);
            var w := s.polls[op].waiter;
            var t := Next(s, PollFinish(op));
            && w in s.waiters && w in t.waiters && !t.waiters[w].interval && !t.waiters[w].timeout
            && t.waiters[w].settled == (if s.waiters[w].settled.Some? then s.waiters[w].settled else Some(s.polls[op].status))
  {
    ReachableIsSound(steps);
    assert PollOk(Run(START, steps).rows, HistoryOf(Run(START, steps)), Run(START, steps).waiters, Run(START, steps).polls[op]);
  }

  /** The promise and the row agree if no timeout fired for the request and one verdict only was given
      on it while it was pending. */
  lemma {:induction false} PromiseAgreesWithRow(steps: seq<Step>, w: WaiterId)
    requires w in Run(START, steps).waiters && Run(START, steps).waiters[w].settled.Some?
    requires var s := Run(START, steps);
             var r := s.waiters[w].request;
             r !in s.fired && !((r, Approved) in s.decided && (r, Rejected) in s.decided)
    ensures var s := Run(START, steps);
            s.waiters[w].request in s.rows && s.waiters[w].settled == Some(s.rows[s.waiters[w].request])
  {
    ReachableIsSound(steps);
    var s := Run(START, steps);
    assert SettledOk(s.rows, HistoryOf(s), s.waiters[w]);
    assert Caused(HistoryOf(s), s.waiters[w].request, s.rows[s.waiters[w].request]);
  }

  lemma {:induction false} RunAppend(s: Service, steps: seq<Step>, step: Step)
    ensures Run(s, steps + [step]) == Next(Run(s, steps), step)
  {
  }

  /** One request, one waiter with its timers set. */
  function OneWaiter(row: Status, waited: map<RequestId, WaiterId>, settled: Option<Status>,
                     decisions: map<OpId, Decision>, decided: set<(RequestId, Status)>): Service {
    Service(0, map[1 := row], waited, map[7 := Waiter(1, 0, true, true, settled)], decisions, map[], multiset{}, decided, {})
  }

  lemma {:induction false} Waited() returns (steps: seq<Step>)
    ensures Run(START, steps) == OneWaiter(Pending, map[1 := 7], None, map[], {})
  {
    var a := [Create(1)];
    assert a == [] + a;
    RunAppend(START, [], Create(1));
    RunAppend(START, a, Wait(7, 1, 0));
    steps := a + [Wait(7, 1, 0)];
  }

  lemma {:induction false} ApprovedInTime() returns (steps: seq<Step>)
    ensures Run(START, steps) == OneWaiter(Approved, map[], Some(Approved), map[], {(1, Approved)})
  {
    var b := Waited();
    var c := b + [Decide(5, 1, Approved)];
    RunAppend(START, b, Decide(5, 1, Approved));
    assert Run(START, c) == OneWaiter(Pending, map[1 := 7], None, map[5 := Decision(1, Approved, false)], {(1, Approved)});
    steps := SavedAndResolved(c, map[], {(1, Approved)});
  }

  /** The approval 5 writes its row and resolves, whatever other decisions are under way. */
  lemma {:induction false} SavedAndResolved(before: seq<Step>, others: map<OpId, Decision>,
          decided: set<(RequestId, Status)>) returns (steps: seq<Step>)
    requires 5 !in others
    requires Run(START, before) == OneWaiter(Pending, map[1 := 7], None, others[5 := Decision(1, Approved, false)], decided)
    ensures Run(START, steps) == OneWaiter(Approved, map[], Some(Approved), others, decided)
  {
    Saves(others, decided);
    RunAppend(START, before, Save(5));
    Resolves(others, decided);
    RunAppend(START, before + [Save(5)], Resolve(5));
    steps := before + [Save(5)] + [Resolve(5)];
  }

  lemma {:induction false} Saves(others: map<OpId, Decision>, decided: set<(RequestId, Status)>)
    requires 5 !in others
    ensures Next(OneWaiter(Pending, map[1 := 7], None, others[5 := Decision(1, Approved, false)], decided), Save(5))
         == OneWaiter(Approved, map[1 := 7], None, others[5 := Decision(1, Approved, true)], decided)
  {
  }

  lemma {:induction false} Resolves(others: map<OpId, Decision>, decided: set<(RequestId, Status)>)
    requires 5 !in others
    ensures Next(OneWaiter(Approved, map[1 := 7], None, others[5 := Decision(1, Approved, true)], decided), Resolve(5))
         == OneWaiter(Approved, map[], Some(Approved), others, decided)
  {
  }

  /** An approval resolves the promise but leaves its timers: when the timeout fires before the next
      poll, the approved request is marked expired although its caller was told it was approved. */
  lemma {:induction false} ApprovedThenExpired() returns (steps: seq<Step>)
    ensures var s := Run(START, steps);
            7 in s.waiters && s.waiters[7].settled == Some(Approved)
            && s.waiters[7].request in s.rows && s.rows[s.waiters[7].request] == Expired
  {
    var before := ApprovedInTime();
    RunAppend(START, before, Timeout(7));
    steps := before + [Timeout(7)] + [Expire(1, true)];
    RunAppend(START, before + [Timeout(7)], Expire(1, true));
  }

  /** An approval and a rejection may both see the request pending: the one that writes last decides the
      row, the one that resolves first decides the promise. */
  lemma {:induction false} ApprovedThenRejected() returns (steps: seq<Step>)
    ensures var s := Run(START, steps);
            7 in s.waiters && s.waiters[7].settled == Some(Approved) && s.fired == {}
            && s.waiters[7].request in s.rows && s.rows[s.waiters[7].request] == Rejected
  {
    var no, both := Decision(1, Rejected, false), {(1, Approved), (1, Rejected)};
    var a := Waited();
    var b := a + [Decide(6, 1, Rejected)];
    RunAppend(START, a, Decide(6, 1, Rejected));
    assert Run(START, b) == OneWaiter(Pending, map[1 := 7], None, map[6 := no], {(1, Rejected)});
    var c := b + [Decide(5, 1, Approved)];
    RunAppend(START, b, Decide(5, 1, Approved));
    assert Run(START, c) == OneWaiter(Pending, map[1 := 7], None, map[6 := no][5 := Decision(1, Approved, false)], both);
    var d := SavedAndResolved(c, map[6 := no], both);
    steps := d + [Save(6)];
    RunAppend(START, d, Save(6));
  }
}
