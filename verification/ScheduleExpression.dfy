/** When a scheduled job runs next. Times are milliseconds; cron expressions are abstract. */
module ScheduleExpression {
  import opened Text

  datatype Schedule = OneTime(at: int) | Interval(seconds: int) | Cron(expression: string)

  /** The next firing of a cron expression after a moment. */
  type CronClock = (string, int) -> int

  const MIN_INTERVAL_SECONDS := 5

  /** `None` is the exception; the inner `None` is "never". */
  type NextRun = Option<Option<int>>

  ghost predicate Advances(cron: CronClock) { forall e, t :: cron(e, t) > t }

  function ResolveInitial(s: Schedule, now: int, cron: CronClock): NextRun {
    match s
    case OneTime(at) => if at <= now then None else Some(Some(at))
    case Interval(n) => if n < MIN_INTERVAL_SECONDS then None else Some(Some(now + n * 1000))
    case Cron(e) => Some(Some(cron(e, now)))
  }

  function NextAfterExecution(s: Schedule, now: int, lastRunAt: int, cron: CronClock): NextRun {
    match s
    case OneTime(_) => Some(None)
    case Interval(n) =>
      if n < MIN_INTERVAL_SECONDS then None
      else
        var step := n * 1000;
        if lastRunAt >= now then Some(Some(lastRunAt + step))
        else Some(Some(lastRunAt + ((now - lastRunAt) / step + 1) * step))
    case Cron(e) => Some(Some(cron(e, lastRunAt)))
  }

  /** The k-th point of the grid that starts at `origin`. */
  function GridPoint(origin: int, step: int, k: int): int { origin + k * step }

  ghost predicate OnGrid(t: int, origin: int, step: int) { exists k :: k >= 1 && t == GridPoint(origin, step, k) }

  /** An interval job runs next at the least grid point after both the last due time and now. */
  lemma {:induction false} NextIsLeastGridPoint(n: int, now: int, last: int, cron: CronClock)
    requires n >= MIN_INTERVAL_SECONDS
    ensures var r := NextAfterExecution(Interval(n), now, last, cron);
      r.Some? && r.value.Some?
      && var next := r.value.value;
         OnGrid(next, last, n * 1000) && next > now && next > last
         && forall k | k >= 1 && GridPoint(last, n * 1000, k) > now :: next <= GridPoint(last, n * 1000, k)
  {
    var step := n * 1000;
    var q := if last >= now then 0 else (now - last) / step;
    var next := GridPoint(last, step, q + 1);
    assert NextAfterExecution(Interval(n), now, last, cron) == Some(Some(next)) by {
      assert 1 * step == step;
    }
    assert OnGrid(next, last, step);
    assert q * step <= (if last >= now then 0 else now - last) < (q + 1) * step by {
      DivisionBounds(if last >= now then 0 else now - last, step, q, last >= now);
    }
    forall k | k >= 1 && GridPoint(last, step, k) > now ensures next <= GridPoint(last, step, k) {
      if k <= q {
        MulMonotone(k, q, step);
      } else {
        MulMonotone(q + 1, k, step);
      }
    }
  }

  lemma {:induction false} DivisionBounds(a: nat, d: int, q: int, zero: bool)
    requires d > 0 && (zero ==> a == 0 && q == 0) && (!zero ==> q == a / d)
    ensures q * d <= a < (q + 1) * d
  {
  }

  lemma {:induction false} MulMonotone(a: int, b: int, d: int)
    requires a <= b && d >= 0
    ensures a * d <= b * d
  {
  }

  /** Two steps along a grid are one longer step along it. */
  lemma {:induction false} GridComposes(a: int, b: int, c: int, step: int)
    requires OnGrid(b, a, step) && OnGrid(c, b, step)
    ensures OnGrid(c, a, step)
  {
    var j :| j >= 1 && b == GridPoint(a, step, j);
    var k :| k >= 1 && c == GridPoint(b, step, k);
    assert c == GridPoint(a, step, j + k) by {
      assert (j + k) * step == j * step + k * step;
    }
  }

  /** A schedule that is accepted starts in the future, an interval as if it had just run; one-time
      schedules and intervals are refused exactly when they are past or too short. */
  lemma {:induction false} InitialIsNext(s: Schedule, now: int, cron: CronClock)
    requires Advances(cron)
    ensures var r := ResolveInitial(s, now, cron);
      (r.Some? ==> r.value.Some? && r.value.value > now)
      && (s.Interval? ==> r == NextAfterExecution(s, now, now, cron))
      && (r.None? <==> (s.OneTime? && s.at <= now) || (s.Interval? && s.seconds < MIN_INTERVAL_SECONDS))
  {
  }
}
