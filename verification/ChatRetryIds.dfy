/** Ids of retry jobs: the session, the generation of a manual retry if there was one, the attempt. */
module ChatRetryIds {
  import opened Text
  import Decimal

  const NAME := "chat-session-retry"
  const PREFIX := NAME + ":"
  const MANUAL_PREFIX := "chat-session-manual-retry:"
  const COLON := ':'

  function Tail(generation: Option<nat>, attempt: nat): string {
    match generation
    case None => Decimal.Show(attempt)
    case Some(g) => Decimal.Show(g) + [COLON] + Decimal.Show(attempt)
  }

  function RetryJobId(sid: string, generation: Option<nat>, attempt: nat): string {
    PREFIX + sid + [COLON] + Tail(generation, attempt)
  }

  function ManualRetryJobId(sid: string, now: nat): string {
    MANUAL_PREFIX + sid + [COLON] + Decimal.Show(now)
  }

  predicate IsRetryId(id: string) {
    StartsWith(id, PREFIX)
  }

  /** The positive number after the last colon. */
  function AttemptOf(id: string): Option<nat> {
    var parts := Split(id, COLON);
    var last := parts[|parts| - 1];
    if last != "" && Decimal.IsDigits(last) && Decimal.Value(last) > 0 then Some(Decimal.Value(last)) else None
  }

  lemma {:induction false} ShowHasNoColon(n: nat)
    ensures COLON !in Decimal.Show(n)
  {
  }

  lemma {:induction false} SplitTail(generation: Option<nat>, attempt: nat)
    ensures Split(Tail(generation, attempt), COLON)
         == (match generation case None => [] case Some(g) => [Decimal.Show(g)]) + [Decimal.Show(attempt)]
  {
    ShowHasNoColon(attempt);
    SplitWhole(Decimal.Show(attempt), COLON);
    if generation.Some? {
      ShowHasNoColon(generation.value);
      SplitWhole(Decimal.Show(generation.value), COLON);
      SplitConcat(Decimal.Show(generation.value), COLON, Decimal.Show(attempt));
    }
  }

  /** The attempt written into an id is the one read from it. */
  lemma {:induction false} AttemptReads(sid: string, generation: Option<nat>, attempt: nat)
    requires attempt > 0
    ensures AttemptOf(RetryJobId(sid, generation, attempt)) == Some(attempt)
  {
    SplitTail(generation, attempt);
    SplitConcat(PREFIX + sid, COLON, Tail(generation, attempt));
    Decimal.ShowReads(attempt);
  }

  lemma {:induction false} RetryIdsAreRetryIds(sid: string, generation: Option<nat>, attempt: nat)
    ensures IsRetryId(RetryJobId(sid, generation, attempt))
  {
  }

  lemma {:induction false} PlainIdsAreNot(id: string)
    requires COLON !in id
    ensures !IsRetryId(id)
  {
    assert PREFIX[|NAME|] == COLON;
  }

  lemma {:induction false} ManualIdsAreNot(sid: string, now: nat)
    ensures !IsRetryId(ManualRetryJobId(sid, now))
  {
    assert MANUAL_PREFIX[13] == 'm' && PREFIX[13] == 'r';
    assert ManualRetryJobId(sid, now)[13] == MANUAL_PREFIX[13];
  }

  lemma {:induction false} SplitPart(first: string, rest: string)
    requires COLON !in first
    ensures Split(first + [COLON] + rest, COLON) == [first] + Split(rest, COLON)
  {
    SplitWhole(first, COLON);
    SplitConcat(first, COLON, rest);
  }

  lemma {:induction false} Associates(a: string, b: string, c: string)
    ensures a + b + c == a + (b + c)
  {
  }

  lemma {:induction false} SplitName(name: string, sid: string, tail: string)
    requires COLON !in name && COLON !in sid
    ensures Split(name + ":" + sid + [COLON] + tail, COLON) == [name, sid] + Split(tail, COLON)
  {
    Associates(name + ":", sid, [COLON]);
    Associates(name + ":", sid + [COLON], tail);
    SplitPart(sid, tail);
    SplitPart(name, sid + [COLON] + tail);
    assert ":" == [COLON];
  }

  lemma {:induction false} SplitRetryId(sid: string, generation: Option<nat>, attempt: nat)
    requires COLON !in sid
    ensures Split(RetryJobId(sid, generation, attempt), COLON) == [NAME, sid] + Split(Tail(generation, attempt), COLON)
  {
    SplitName(NAME, sid, Tail(generation, attempt));
  }

  /** When session ids hold no colon an id names its session too. */
  lemma {:induction false} IdsNameSessions(sid1: string, g1: Option<nat>, a1: nat, sid2: string, g2: Option<nat>, a2: nat)
    requires COLON !in sid1 && COLON !in sid2 && RetryJobId(sid1, g1, a1) == RetryJobId(sid2, g2, a2)
    ensures sid1 == sid2
  {
    SplitRetryId(sid1, g1, a1);
    SplitRetryId(sid2, g2, a2);
    assert Split(RetryJobId(sid1, g1, a1), COLON)[1] == sid1;
  }

  /** Within a session an id names its generation and its attempt. */
  lemma {:induction false} IdsNameJobs(sid: string, g1: Option<nat>, a1: nat, g2: Option<nat>, a2: nat)
    requires RetryJobId(sid, g1, a1) == RetryJobId(sid, g2, a2)
    ensures g1 == g2 && a1 == a2
  {
    var before := PREFIX + sid + [COLON];
    assert Tail(g1, a1) == RetryJobId(sid, g1, a1)[|before|..] == RetryJobId(sid, g2, a2)[|before|..] == Tail(g2, a2);
    SplitTail(g1, a1);
    SplitTail(g2, a2);
    var parts := Split(Tail(g1, a1), COLON);
    assert parts[|parts| - 1] == Decimal.Show(a1) == Decimal.Show(a2);
    Decimal.ShowInjective(a1, a2);
    if g1.Some? && g2.Some? {
      assert parts[0] == Decimal.Show(g1.value) == Decimal.Show(g2.value);
      Decimal.ShowInjective(g1.value, g2.value);
    } else {
      assert |parts| == (if g1.Some? then 2 else 1) == if g2.Some? then 2 else 1;
    }
  }
}
