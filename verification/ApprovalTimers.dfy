/** How long a promise waits, and what its end does to another promise on the same request. */
module ApprovalTimers {
  import opened Text
  import opened ApprovalWaiters
  import opened ApprovalOutcomes

  /** A promise can expire by its own timer no sooner than it was asked to, and after that it has settled. */
  lemma {:induction false} WaitsAsLongAsAsked(s: Service, w: WaiterId, r: RequestId, timeoutMs: nat, steps: seq<Step>)
    requires Sound(s) && w !in s.waiters && r in s.rows
    ensures var t := Run(Next(s, Wait(w, r, timeoutMs)), steps);
            && w in t.waiters && t.waiters[w].request == r
            && (t.now < s.now + timeoutMs ==> Next(t, Timeout(w)) == t)
            && (t.now > s.now + timeoutMs ==> t.waiters[w].settled.Some? && !t.waiters[w].interval && !t.waiters[w].timeout)
  {
    var u := Next(s, Wait(w, r, timeoutMs));
    NextKeeps(s, Wait(w, r, timeoutMs));
    SettlesOnce(u, steps, w);
    assert TimersOk(Run(u, steps).now, Run(u, steps).waiters[w]);
  }

  /** The step ends a promise of the request by its timer, or by a poll that found a verdict. */
  predicate Ends(s: Service, step: Step, r: RequestId) {
    match step
    case Timeout(w) => w in s.waiters && s.waiters[w].timeout && s.waiters[w].deadline <= s.now && s.waiters[w].request == r
    case PollFinish(op) =>
      op in s.polls && s.polls[op].status != Pending && s.polls[op].waiter in s.waiters && s.waiters[s.polls[op].waiter].request == r
    case _ => false
  }

  lemma {:induction false} StepForgets(s: Service, step: Step, r: RequestId)
    requires r !in s.pendingWaits && !(step.Wait? && step.r == r)
    ensures r !in Next(s, step).pendingWaits
  {
  }

  lemma {:induction false} StaysForgotten(s: Service, steps: seq<Step>, r: RequestId)
    requires r !in s.pendingWaits && NoWait(steps, r)
    ensures r !in Run(s, steps).pendingWaits
    decreases |steps|
  {
    if steps != [] {
      StaysForgotten(s, steps[..|steps| - 1], r);
      StepForgets(Run(s, steps[..|steps| - 1]), steps[|steps| - 1], r);
    }
  }

  /** Once a promise of a request has ended so, a verdict settles no promise until someone waits on the
      request again: another promise on it, though it waits still, can learn of the verdict only by polling. */
  lemma {:induction false} VerdictFindsNobody(s: Service, step: Step, r: RequestId, steps: seq<Step>, op: OpId)
    requires Ends(s, step, r) && NoWait(steps, r)
    requires var t := Run(Next(s, step), steps); op in t.decisions && t.decisions[op].request == r
    ensures var t := Run(Next(s, step), steps); Next(t, Resolve(op)).waiters == t.waiters
  {
    StaysForgotten(Next(s, step), steps, r);
  }

  /** A promise that was replaced takes its successor's place away when its timer fires: the successor,
      which would have settled with the verdict, waits on. */
  lemma {:induction false} ReplacedTimerHidesVerdict(s: Service, first: WaiterId, second: WaiterId, op: OpId)
    requires Sound(s) && first in s.waiters && second in s.waiters && first != second && op in s.decisions
    requires var r := s.decisions[op].request; s.waiters[first].request == r && r in s.pendingWaits && s.pendingWaits[r] == second
    requires s.waiters[first].timeout && s.waiters[first].deadline <= s.now
    requires s.waiters[second].settled == None && !s.decisions[op].saved
    ensures var d := s.decisions[op];
            var fired := Next(Next(Next(s, Timeout(first)), Save(op)), Resolve(op));
            var unfired := Next(Next(s, Save(op)), Resolve(op));
            && RowIs(fired, d.request, d.verdict) && second in fired.waiters && fired.waiters[second].settled == None
            && RowIs(unfired, d.request, d.verdict) && second in unfired.waiters
            && unfired.waiters[second].settled == Some(d.verdict)
  {
    assert Next(s, Timeout(first)).decisions == s.decisions;
  }

  // ----- learning of the verdict, and of the expiry -----

  /** A promise that is open polls, and a poll settles it exactly with what its row says; a settled one
      whose timers are off polls no more. */
  lemma {:induction false} PollTellsOpenPromise(s: Service, w: WaiterId, op: OpId)
    requires Sound(s) && w in s.waiters && op !in s.polls
    ensures var status := if s.waiters[w].request in s.rows then s.rows[s.waiters[w].request] else Pending;
            var t := Next(Next(s, PollRead(op, w)), PollFinish(op));
            if s.waiters[w].timeout && status != Pending
            then && w in t.waiters && !t.waiters[w].interval && !t.waiters[w].timeout && t.polls == s.polls
                 && t.waiters[w].settled == (if s.waiters[w].settled.Some? then s.waiters[w].settled else Some(status))
                 && s.waiters[w].request !in t.pendingWaits
            else t == s
    ensures s.waiters[w].settled == None ==> s.waiters[w].timeout
  {
    assert TimersOk(s.now, s.waiters[w]) && SettledOk(s.rows, HistoryOf(s), s.waiters[w]);
    if s.waiters[w].interval {
      var t := Next(s, PollRead(op, w));
      assert t.polls - {op} == s.polls;
    } else {
      assert op !in Next(s, PollRead(op, w)).polls;
    }
  }

  lemma {:induction false} ApproveAndSave(s: Service, op: OpId, r: RequestId)
    requires op !in s.decisions && r in s.rows
    ensures var t := Next(Next(s, Decide(op, r, Approved)), Save(op));
            t.waiters == s.waiters && RowIs(t, r, if s.rows[r] == Pending then Approved else s.rows[r])
  {
  }

  /** When its time is over an open promise expires; whether the request does depends on the write: if that
      fails the request stays pending and can still be approved, if it lands it cannot. */
  lemma {:induction false} ExpiryWriteDecides(s: Service, w: WaiterId, op: OpId, persisted: bool)
    requires Sound(s) && w in s.waiters && s.waiters[w].settled == None && s.waiters[w].deadline <= s.now
    requires op !in s.decisions && RowIs(s, s.waiters[w].request, Pending)
    ensures var r := s.waiters[w].request;
            var t := Next(Next(s, Timeout(w)), Expire(r, persisted));
            var u := Next(Next(t, Decide(op, r, Approved)), Save(op));
            && w in u.waiters && u.waiters[w].settled == Some(Expired)
            && RowIs(t, r, if persisted then Expired else Pending) && RowIs(u, r, if persisted then Expired else Approved)
            && t.expiries == s.expiries
  {
    assert TimersOk(s.now, s.waiters[w]);
    ApproveAndSave(Next(Next(s, Timeout(w)), Expire(s.waiters[w].request, persisted)), op, s.waiters[w].request);
    assert s.expiries + multiset{s.waiters[w].request} - multiset{s.waiters[w].request} == s.expiries;
  }
}
