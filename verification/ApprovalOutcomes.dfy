/** What can still become of a request on which a verdict has been written, and when its promises are
    sure to agree with it: exact conditions on the service as it stands. */
module ApprovalOutcomes {
  import opened Text
  import opened ApprovalWaiters

  /** No new waiter for the request. */
  predicate NoWait(steps: seq<Step>, r: RequestId) {
    forall i | 0 <= i < |steps| :: !(steps[i].Wait? && steps[i].r == r)
  }

  predicate RowIs(s: Service, r: RequestId, status: Status) {
    r in s.rows && s.rows[r] == status
  }

  ghost predicate CanBecome(s: Service, r: RequestId, status: Status) {
    exists steps :: NoWait(steps, r) && RowIs(Run(s, steps), r, status)
  }

  /** Some waiter of the request has its timeout set, or the write of one is under way. */
  predicate ExpiryAhead(s: Service, r: RequestId) {
    r in s.expiries || exists w | w in s.waiters :: s.waiters[w].request == r && s.waiters[w].timeout
  }

  /** A decision with this verdict has read the request and not written yet. */
  predicate VerdictAhead(s: Service, r: RequestId, verdict: Status) {
    exists op | op in s.decisions :: s.decisions[op] == Decision(r, verdict, false)
  }

  lemma {:induction false} RunConcat(s: Service, a: seq<Step>, b: seq<Step>)
    ensures Run(s, a + b) == Run(Run(s, a), b)
    decreases |b|
  {
    if b == [] {
      assert a + b == a;
    } else {
      assert (a + b)[..|a + b| - 1] == a + b[..|b| - 1];
      RunConcat(s, a, b[..|b| - 1]);
    }
  }

  lemma {:induction false} RunOne(s: Service, step: Step)
    ensures Run(s, [step]) == Next(s, step)
  {
    assert [step][..0] == [];
  }

  // ----- no way to expire, no way to turn -----

  predicate StaysUnexpired(s: Service, r: RequestId) {
    Sound(s) && r in s.rows && !RowIs(s, r, Expired) && !ExpiryAhead(s, r)
  }

  /** A row is left alone, or written by a decision of its request, or by an expiry that was under way. */
  lemma {:induction false} RowStep(s: Service, step: Step, r: RequestId)
    requires r in s.rows
    ensures r in Next(s, step).rows
    ensures Next(s, step).rows[r] == s.rows[r]
         || (step.Save? && step.op in s.decisions && s.decisions[step.op].request == r && !s.decisions[step.op].saved
             && Next(s, step).rows[r] == s.decisions[step.op].verdict)
         || (step.Expire? && step.r == r && r in s.expiries && Next(s, step).rows[r] == Expired)
  {
  }

  lemma {:induction false} NoExpiryStep(s: Service, step: Step, r: RequestId)
    requires !ExpiryAhead(s, r) && !(step.Wait? && step.r == r)
    ensures !ExpiryAhead(Next(s, step), r)
  {
  }

  lemma {:induction false} NoVerdictStep(s: Service, step: Step, r: RequestId, verdict: Status)
    requires r in s.rows && s.rows[r] != Pending && !VerdictAhead(s, r, verdict)
    ensures !VerdictAhead(Next(s, step), r, verdict)
  {
  }

  lemma {:induction false} UnexpiredStep(s: Service, step: Step, r: RequestId)
    requires StaysUnexpired(s, r) && !(step.Wait? && step.r == r)
    ensures StaysUnexpired(Next(s, step), r)
  {
    assert Sound(Next(s, step)) by {
      NextKeeps(s, step);
    }
    RowStep(s, step, r);
    NoExpiryStep(s, step, r);
    if step.Save? && step.op in s.decisions {
      assert DecisionOk(s.rows, HistoryOf(s), s.decisions[step.op]);
    }
  }

  lemma {:induction false} UnexpiredRun(s: Service, steps: seq<Step>, r: RequestId)
    requires StaysUnexpired(s, r) && NoWait(steps, r)
    ensures StaysUnexpired(Run(s, steps), r)
    decreases |steps|
  {
    if steps != [] {
      UnexpiredRun(s, steps[..|steps| - 1], r);
      UnexpiredStep(Run(s, steps[..|steps| - 1]), steps[|steps| - 1], r);
    }
  }

  predicate StaysOtherwise(s: Service, r: RequestId, verdict: Status) {
    Sound(s) && r in s.rows && s.rows[r] != Pending && !RowIs(s, r, verdict) && !VerdictAhead(s, r, verdict)
  }

  lemma {:induction false} OtherwiseStep(s: Service, step: Step, r: RequestId, verdict: Status)
    requires StaysOtherwise(s, r, verdict) && (verdict.Approved? || verdict.Rejected?)
    ensures StaysOtherwise(Next(s, step), r, verdict)
  {
    assert Sound(Next(s, step)) by {
      NextKeeps(s, step);
    }
    RowStep(s, step, r);
    NoVerdictStep(s, step, r, verdict);
    if step.Save? && step.op in s.decisions {
      assert DecisionOk(s.rows, HistoryOf(s), s.decisions[step.op]);
    }
  }

  lemma {:induction false} OtherwiseRun(s: Service, steps: seq<Step>, r: RequestId, verdict: Status)
    requires StaysOtherwise(s, r, verdict) && (verdict.Approved? || verdict.Rejected?)
    ensures StaysOtherwise(Run(s, steps), r, verdict)
    decreases |steps|
  {
    if steps != [] {
      OtherwiseRun(s, steps[..|steps| - 1], r, verdict);
      OtherwiseStep(Run(s, steps[..|steps| - 1]), steps[|steps| - 1], r, verdict);
    }
  }

  // ----- firing a timer -----

  function Timers(s: Service): set<WaiterId> {
    set w | w in s.waiters && s.waiters[w].timeout
  }

  lemma {:induction false} Earliest(waiters: map<WaiterId, Waiter>, ids: set<WaiterId>) returns (m: WaiterId)
    requires ids != {} && ids <= waiters.Keys
    ensures m in ids && forall w | w in ids :: waiters[m].deadline <= waiters[w].deadline
    decreases ids
  {
    var x :| x in ids;
    m := x;
    if ids != {x} {
      assert ids - {x} != {} by {
        assert ids - {x} + {x} == ids;
      }
      var n := Earliest(waiters, ids - {x});
      if waiters[n].deadline < waiters[x].deadline {
        m := n;
      }
    }
  }

  /** The timeout of `m` has fired and its write is under way. */
  predicate Fired(s: Service, t: Service, m: WaiterId)
    requires m in s.waiters
  {
    && t.rows == s.rows
    && t.waiters == s.waiters[m := Settled(s.waiters[m].(interval := false, timeout := false), Expired)]
    && t.expiries == s.expiries + multiset{s.waiters[m].request}
  }

  /** Time passes to the earliest deadline and its timeout fires. */
  lemma {:induction false} FireEarliest(s: Service, m: WaiterId) returns (steps: seq<Step>, t: Service)
    requires Sound(s) && m in Timers(s)
    requires forall w | w in Timers(s) :: s.waiters[m].deadline <= s.waiters[w].deadline
    ensures forall r :: NoWait(steps, r)
    ensures Run(s, steps) == t && Sound(t) && Fired(s, t, m)
  {
    assert TimersOk(s.now, s.waiters[m]);
    var ms: nat := s.waiters[m].deadline - s.now;
    var a, b := Tick(ms), Timeout(m);
    steps := [a] + [b];
    assert Punctual(s, ms);
    RunConcat(s, [a], [b]);
    RunOne(s, a);
    RunOne(Next(s, a), b);
    NextKeeps(s, a);
    NextKeeps(Next(s, a), b);
    t := Next(Next(s, a), b);
  }

  lemma {:induction false} OneTimerLess(s: Service, t: Service, m: WaiterId)
    requires m in Timers(s) && Fired(s, t, m)
    ensures Timers(t) == Timers(s) - {m}
  {
  }

  /** The timeout of `w`, with others perhaps, has fired: its promise is settled and its write under way. */
  predicate HasFired(s: Service, t: Service, w: WaiterId)
    requires w in s.waiters
  {
    && t.rows == s.rows && s.waiters[w].request in t.expiries && w in t.waiters
    && t.waiters[w].settled == Settled(s.waiters[w], Expired).settled
  }

  lemma {:induction false} FiredLater(s: Service, t: Service, u: Service, m: WaiterId, w: WaiterId)
    requires m in s.waiters && w in s.waiters && m != w && Fired(s, t, m) && w in t.waiters && HasFired(t, u, w)
    ensures HasFired(s, u, w)
  {
  }

  /** Any timer that is set can come to fire, after those that are due before it. */
  lemma {:induction false} FireTimer(s: Service, w: WaiterId) returns (steps: seq<Step>, t: Service)
    requires Sound(s) && w in Timers(s)
    ensures forall r :: NoWait(steps, r)
    ensures Run(s, steps) == t && HasFired(s, t, w)
    decreases Timers(s)
  {
    var m := Earliest(s.waiters, Timers(s));
    steps, t := FireEarliest(s, m);
    if m != w {
      OneTimerLess(s, t, m);
      var rest, u := FireTimer(t, w);
      FiredLater(s, t, u, m, w);
      RunConcat(s, steps, rest);
      NoWaitConcat(steps, rest);
      steps, t := steps + rest, u;
    }
  }

  lemma {:induction false} NoWaitConcat(a: seq<Step>, b: seq<Step>)
    requires forall r :: NoWait(a, r) && NoWait(b, r)
    ensures forall r :: NoWait(a + b, r)
  {
    forall r ensures NoWait(a + b, r) {
      assert NoWait(a, r) && NoWait(b, r);
    }
  }

  lemma {:induction false} ExpireWrites(s: Service, r: RequestId)
    requires r in s.expiries && r in s.rows
    ensures RowIs(Next(s, Expire(r, true)), r, Expired)
  {
  }

  lemma {:induction false} Expiring(s: Service, r: RequestId) returns (steps: seq<Step>)
    requires Sound(s) && r in s.rows && ExpiryAhead(s, r)
    ensures NoWait(steps, r) && RowIs(Run(s, steps), r, Expired)
  {
    var last := Expire(r, true);
    if r in s.expiries {
      ExpireWrites(s, r);
      RunOne(s, last);
      steps := [last];
    } else {
      var w :| w in s.waiters && s.waiters[w].request == r && s.waiters[w].timeout;
      var before, t := FireTimer(s, w);
      ExpireWrites(t, r);
      RunConcat(s, before, [last]);
      RunOne(t, last);
      assert NoWait(before, r);
      steps := before + [last];
    }
  }

  /** In a continuation without a new waiter a request, pending or decided, can come to be expired exactly
      when some waiter of it has its timeout set or the write of a timeout is under way. */
  lemma {:induction false} CanExpire(s: Service, r: RequestId)
    requires Sound(s) && r in s.rows && s.rows[r] != Expired
    ensures CanBecome(s, r, Expired) <==> ExpiryAhead(s, r)
  {
    if ExpiryAhead(s, r) {
      var steps := Expiring(s, r);
      assert RowIs(Run(s, steps), r, Expired);
    } else {
      forall steps | NoWait(steps, r) ensures !RowIs(Run(s, steps), r, Expired) {
        UnexpiredRun(s, steps, r);
      }
    }
  }

  /** It can come to carry the other verdict exactly when a decision with that verdict has yet to write. */
  lemma {:induction false} CanTurn(s: Service, r: RequestId, verdict: Status)
    requires Sound(s) && r in s.rows && s.rows[r] != Pending && s.rows[r] != verdict
    requires verdict.Approved? || verdict.Rejected?
    ensures CanBecome(s, r, verdict) <==> VerdictAhead(s, r, verdict)
  {
    if VerdictAhead(s, r, verdict) {
      var op :| op in s.decisions && s.decisions[op] == Decision(r, verdict, false);
      RunOne(s, Save(op));
      assert NoWait([Save(op)], r) && RowIs(Run(s, [Save(op)]), r, verdict);
    } else {
      forall steps | NoWait(steps, r) ensures !RowIs(Run(s, steps), r, verdict) {
        OtherwiseRun(s, steps, r, verdict);
      }
    }
  }

  function OtherVerdict(verdict: Status): Status {
    if verdict.Approved? then Rejected else Approved
  }

  /** Right after a verdict has been written in any run: both conditions, and the verdict is final when
      neither holds. */
  lemma {:induction false} AfterSave(steps: seq<Step>, op: OpId)
    requires var s := Run(START, steps); op in s.decisions && !s.decisions[op].saved
    ensures var d := Run(START, steps).decisions[op];
            var t := Run(START, steps + [Save(op)]);
            && RowIs(t, d.request, d.verdict)
            && (CanBecome(t, d.request, Expired) <==> ExpiryAhead(t, d.request))
            && (CanBecome(t, d.request, OtherVerdict(d.verdict)) <==> VerdictAhead(t, d.request, OtherVerdict(d.verdict)))
  {
    var s := Run(START, steps);
    ReachableIsSound(steps);
    RunAppend(START, steps, Save(op));
    NextKeeps(s, Save(op));
    assert DecisionOk(s.rows, HistoryOf(s), s.decisions[op]);
    CanExpire(Next(s, Save(op)), s.decisions[op].request);
    CanTurn(Next(s, Save(op)), s.decisions[op].request, OtherVerdict(s.decisions[op].verdict));
  }

  // ----- when a promise is sure to agree -----

  /** The promise is open, or says what the row says. */
  predicate Agrees(s: Service, w: WaiterId, r: RequestId) {
    w in s.waiters && r in s.rows && (s.waiters[w].settled.Some? ==> s.waiters[w].settled == Some(s.rows[r]))
  }

  ghost predicate NeverContradicted(s: Service, w: WaiterId, r: RequestId) {
    forall steps | NoWait(steps, r) :: Agrees(Run(s, steps), w, r)
  }

  /** In every continuation without a new waiter a promise and its row agree exactly when the promise has
      settled with the row's verdict and neither an expiry nor the other verdict is ahead. An open
      promise is never sure to agree: its own timer may still settle it as expired. */
  lemma {:induction false} PromiseIsSure(s: Service, w: WaiterId)
    requires Sound(s) && w in s.waiters
    requires var r := s.waiters[w].request; r in s.rows && (s.rows[r].Approved? || s.rows[r].Rejected?)
    ensures var r := s.waiters[w].request;
            NeverContradicted(s, w, r)
            <==> && s.waiters[w].settled == Some(s.rows[r])
                 && !ExpiryAhead(s, r) && !VerdictAhead(s, r, OtherVerdict(s.rows[r]))
  {
    var r := s.waiters[w].request;
    assert Run(s, []) == s && NoWait([], r);
    if s.waiters[w].settled == Some(s.rows[r]) {
      SettledIsSure(s, w, r);
    } else if s.waiters[w].settled.None? {
      assert TimersOk(s.now, s.waiters[w]);
      var steps, t := FireTimer(s, w);
      assert NoWait(steps, r) && !Agrees(t, w, r);
    }
  }

  lemma {:induction false} SettledIsSure(s: Service, w: WaiterId, r: RequestId)
    requires Sound(s) && w in s.waiters && r == s.waiters[w].request && r in s.rows
    requires (s.rows[r].Approved? || s.rows[r].Rejected?) && s.waiters[w].settled == Some(s.rows[r])
    ensures NeverContradicted(s, w, r) <==> !ExpiryAhead(s, r) && !VerdictAhead(s, r, OtherVerdict(s.rows[r]))
  {
    CanExpire(s, r);
    CanTurn(s, r, OtherVerdict(s.rows[r]));
    forall steps | NoWait(steps, r)
      ensures Agrees(Run(s, steps), w, r)
         <==> !RowIs(Run(s, steps), r, Expired) && !RowIs(Run(s, steps), r, OtherVerdict(s.rows[r]))
    {
      SettlesOnce(s, steps, w);
      assert Run(s, steps).rows[r] != Pending;
    }
  }
}
