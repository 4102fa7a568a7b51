/** The approval service's own code, one method for each stretch between two awaits, against the steps
    of the state machine. */
module ApprovalRequests {
  import opened Text
  import opened ApprovalWaiters

  /** A pending row is given the verdict and the last waiter is resolved with it; any other is left alone. */
  function DecidedAtOnce(s: Service, r: RequestId, verdict: Status): Service {
    if r in s.rows && s.rows[r] == Pending
    then Resolved(s.(rows := s.rows[r := verdict], decided := s.decided + {(r, verdict)}), r, verdict)
    else s
  }

  lemma {:induction false} DecidedInSteps(s: Service, op: OpId, r: RequestId, verdict: Status)
    requires op !in s.decisions && r in s.rows && s.rows[r] == Pending && (verdict.Approved? || verdict.Rejected?)
    ensures DecidedAtOnce(s, r, verdict) == Next(Next(Next(s, Decide(op, r, verdict)), Save(op)), Resolve(op))
  {
    var d := Decision(r, verdict, false);
    var t := Next(s, Decide(op, r, verdict));
    assert t == s.(decisions := s.decisions[op := d], decided := s.decided + {(r, verdict)});
    var u := Next(t, Save(op));
    assert s.decisions[op := d][op := d.(saved := true)] - {op} == s.decisions;
  }

  class ToolCallApprovalRequestService {
    var now: int
    var rows: map<RequestId, Status>
    var pendingWaits: map<RequestId, WaiterId>
    var waiters: map<WaiterId, Waiter>
    var decisions: map<OpId, Decision>
    var polls: map<OpId, Poll>
    var expiries: multiset<RequestId>
    ghost var decided: set<(RequestId, Status)>
    ghost var fired: set<RequestId>

    constructor ()
      ensures State() == START
    {
      now, rows, pendingWaits, waiters, decisions, polls, expiries := 0, map[], map[], map[], map[], map[], multiset{};
      decided, fired := {}, {};
    }

    ghost function State(): Service
      reads this
    {
      Service(now, rows, pendingWaits, waiters, decisions, polls, expiries, decided, fired)
    }

    /** The read of `approveRequest` and `rejectRequest`: what is not pending is left alone. */
    method ReadForDecision(op: OpId, r: RequestId, verdict: Status)
      requires op !in decisions && (verdict.Approved? || verdict.Rejected?)
      modifies this
      ensures State() == Next(old(State()), Decide(op, r, verdict))
    {
      if r !in rows || rows[r] != Pending {
        return;
      }
      decisions := decisions[op := Decision(r, verdict, false)];
      decided := decided + {(r, verdict)};
    }

    method SaveDecision(op: OpId)
      requires op in decisions && !decisions[op].saved
      modifies this
      ensures State() == Next(old(State()), Save(op))
    {
      var request := decisions[op];
      rows := rows[request.request := request.verdict];
      decisions := decisions[op := request.(saved := true)];
    }

    /** Resolves the promise that waits last for the request; its timers stay set. */
    method ResolveWait(r: RequestId, verdict: Status)
      requires forall x | x in pendingWaits :: pendingWaits[x] in waiters
      modifies this`waiters, this`pendingWaits
      ensures State() == Resolved(old(State()), r, verdict)
    {
      if r in pendingWaits {
        var waiter := pendingWaits[r];
        SettlePromise(waiter, verdict);
        pendingWaits := pendingWaits - {r};
      }
    }

    method EndDecision(op: OpId)
      requires op in decisions && decisions[op].saved
      requires forall x | x in pendingWaits :: pendingWaits[x] in waiters
      modifies this
      ensures State() == Next(old(State()), Resolve(op))
    {
      var request := decisions[op];
      decisions := decisions - {op};
      ResolveWait(request.request, request.verdict);
    }

    /** A promise keeps the value it has settled with. */
    method SettlePromise(w: WaiterId, status: Status)
      requires w in waiters
      modifies this`waiters
      ensures waiters == old(waiters)[w := Settled(old(waiters)[w], status)]
    {
      if waiters[w].settled.None? {
        waiters := waiters[w := waiters[w].(settled := Some(status))];
      }
    }

    method WaitForResolution(w: WaiterId, r: RequestId, timeoutMs: nat)
      requires w !in waiters && r in rows
      modifies this
      ensures State() == Next(old(State()), Wait(w, r, timeoutMs))
    {
      pendingWaits := pendingWaits[r := w];
      waiters := waiters[w := Waiter(r, now + timeoutMs, true, true, None)];
    }

    method ClearTimers(w: WaiterId)
      requires w in waiters
      modifies this`waiters
      ensures waiters == old(waiters)[w := old(waiters)[w].(interval := false, timeout := false)]
    {
      waiters := waiters[w := waiters[w].(interval := false, timeout := false)];
    }

    /** The timeout's callback: it has fired, so only the interval is left to clear. */
    method OnTimeout(w: WaiterId)
      requires w in waiters && waiters[w].timeout && now >= waiters[w].deadline
      modifies this
      ensures State() == Next(old(State()), Timeout(w))
    {
      var r := waiters[w].request;
      ClearTimers(w);
      pendingWaits := pendingWaits - {r};
      expiries := expiries + multiset{r};
      fired := fired + {r};
      SettlePromise(w, Expired);
    }

    method ReadForPoll(op: OpId, w: WaiterId)
      requires op !in polls && w in waiters && waiters[w].interval && waiters[w].request in rows
      modifies this
      ensures State() == Next(old(State()), PollRead(op, w))
    {
      polls := polls[op := Poll(w, waiters[w].request, rows[waiters[w].request])];
    }

    method EndPoll(op: OpId)
      requires op in polls && polls[op].waiter in waiters
      modifies this
      ensures State() == Next(old(State()), PollFinish(op))
    {
      var p := polls[op];
      polls := polls - {op};
      if p.status != Pending {
        var r := waiters[p.waiter].request;
        ClearTimers(p.waiter);
        pendingWaits := pendingWaits - {r};
        SettlePromise(p.waiter, p.status);
      }
    }

    /** `approveRequest` or `rejectRequest` with nothing in between: the row and the last waiter get the
        verdict together, and the waiter keeps its timers. */
    method DecideRequest(op: OpId, r: RequestId, verdict: Status)
      requires op !in decisions && (verdict.Approved? || verdict.Rejected?)
      requires forall x | x in pendingWaits :: pendingWaits[x] in waiters
      modifies this
      ensures State() == DecidedAtOnce(old(State()), r, verdict)
    {
      if r in rows && rows[r] == Pending {
        DecidedInSteps(State(), op, r, verdict);
      }
      ReadForDecision(op, r, verdict);
      if op in decisions {
        SaveDecision(op);
        EndDecision(op);
      }
    }

    /** `pollResolution` with nothing in between: the promise gets the row's status, if it has one, and
        then both timers are off. */
    method PollResolution(op: OpId, w: WaiterId)
      requires op !in polls && w in waiters && waiters[w].interval && waiters[w].request in rows
      modifies this
      ensures rows == old(rows) && decisions == old(decisions) && polls == old(polls) && expiries == old(expiries)
      ensures now == old(now) && fired == old(fired) && decided == old(decided)
      ensures var r := old(waiters)[w].request;
              pendingWaits == if old(rows)[r] == Pending then old(pendingWaits) else old(pendingWaits) - {r}
      ensures var status := old(rows)[old(waiters)[w].request];
              waiters == if status == Pending then old(waiters)
                         else old(waiters)[w := Settled(old(waiters)[w].(interval := false, timeout := false), status)]
    {
      ReadForPoll(op, w);
      EndPoll(op);
    }
  }
}
