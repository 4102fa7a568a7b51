/** When a failed chat session is retried, and after how long. Times are milliseconds. */
module ChatRetryDecision {
  import opened Text

  datatype Config = Config(
    enabled: bool, maxAttempts: int, maxDurationMs: real,
    initialDelayMs: real, maxDelayMs: real, backoffMultiplier: real)

  /** How a failure is classified: HTTP 429 with the delay until the announced reset, if any, HTTP 529,
      or anything else, which is not retried. */
  datatype Failure = RateLimit(delayOverride: Option<real>) | Overload | Generic

  /** A setting as a number: `None` when it is no finite number. */
  type Setting = Option<real>

  /** `Math.trunc`: toward zero. */
  function Trunc(x: real): real {
    if x >= 0.0 then x.Floor as real else -((-x).Floor as real)
  }

  /** `toNumber` with a lower bound: the fallback is not held against the bound. */
  function ToNumber(value: Setting, fallback: real, min: real, integer: bool): (r: real)
    ensures r >= min || (value.None? && r == fallback)
  {
    match value
    case None => fallback
    case Some(parsed) =>
      var normalized := if integer then Trunc(parsed) else parsed;
      if normalized < min then min else normalized
  }

  /** The settings as stored, in the order of the configuration's fields. */
  datatype Settings = Settings(
    enabled: bool, maxAttempts: Setting, maxDurationMs: Setting,
    initialDelayMs: Setting, maxDelayMs: Setting, backoffMultiplier: Setting)

  const DEFAULT_MAX_DELAY_MS := 3600000.0

  function ReadConfig(s: Settings): Config {
    var initialDelayMs := ToNumber(s.initialDelayMs, 60000.0, 0.0, true);
    Config(
      s.enabled,
      ToNumber(s.maxAttempts, 5.0, 1.0, true).Floor,
      ToNumber(s.maxDurationMs, 86400000.0, 0.0, true),
      initialDelayMs,
      ToNumber(s.maxDelayMs, DEFAULT_MAX_DELAY_MS, initialDelayMs, true),
      ToNumber(s.backoffMultiplier, 2.0, 1.0, false))
  }

  /** The bounds the reader of the settings is after. */
  predicate Normalized(c: Config) {
    c.maxAttempts >= 1 && c.maxDurationMs >= 0.0 && 0.0 <= c.initialDelayMs <= c.maxDelayMs && c.backoffMultiplier >= 1.0
  }

  /** They hold unless the longest delay is unreadable and its default is below the first delay. */
  lemma {:induction false} ConfigNormalized(s: Settings)
    ensures Normalized(ReadConfig(s))
       <==> s.maxDelayMs.Some? || ReadConfig(s).initialDelayMs <= DEFAULT_MAX_DELAY_MS
  {
  }

  /** Truncation drops what is behind the point. */
  lemma {:induction false} TruncDropsFraction(x: real)
    ensures Trunc(x) == Trunc(x).Floor as real
    ensures if x >= 0.0 then Trunc(x) <= x < Trunc(x) + 1.0 else Trunc(x) - 1.0 < x <= Trunc(x)
  {
    if x < 0.0 {
      var k := (-x).Floor;
      assert Trunc(x) == (-k) as real;
    }
  }

  /** A number below the bound is raised to it, one within the bound is kept. */
  lemma {:induction false} NumbersAreKept(x: real, fallback: real, min: real)
    ensures ToNumber(Some(x), fallback, min, false) == if x < min then min else x
  {
  }

  /** Where a whole number is asked for, a number within the bound loses its fraction. */
  lemma {:induction false} WholeNumbersAreKept(x: real, fallback: real, min: real)
    requires min >= 0.0
    ensures var r := ToNumber(Some(x), fallback, min, true);
            r >= min && (r == min || (Whole(r) && x - 1.0 < r <= x)) && (Whole(x) && x >= min ==> r == x)
            && (x < min ==> r == min)
  {
    TruncDropsFraction(x);
  }

  predicate Whole(x: real) { x == x.Floor as real }

  /** A configuration as it is stored. */
  function Stored(c: Config): Settings {
    Settings(c.enabled, Some(c.maxAttempts as real), Some(c.maxDurationMs), Some(c.initialDelayMs), Some(c.maxDelayMs),
             Some(c.backoffMultiplier))
  }

  /** A configuration within its bounds, whose times are whole, is read back as it was stored. */
  lemma {:induction false} ConfigReadsBack(c: Config)
    requires Normalized(c) && Whole(c.maxDurationMs) && Whole(c.initialDelayMs) && Whole(c.maxDelayMs)
    ensures ReadConfig(Stored(c)) == c
  {
    assert (c.maxAttempts as real).Floor == c.maxAttempts;
  }

  /** Settings that are no numbers leave five attempts, a day, delays from a minute to an hour, and doubling. */
  lemma {:induction false} DefaultConfig(enabled: bool)
    ensures ReadConfig(Settings(enabled, None, None, None, None, None))
         == Config(enabled, 5, 24.0 * 60.0 * 60.0 * 1000.0, 60.0 * 1000.0, 60.0 * 60.0 * 1000.0, 2.0)
  {
  }

  function Power(x: real, n: nat): real {
    if n == 0 then 1.0 else x * Power(x, n - 1)
  }

  function Least(x: real, y: real): real {
    if x < y then x else y
  }

  function Backoff(first: real, multiplier: real, attempts: nat): real {
    first * Power(multiplier, attempts)
  }

  function ExponentialDelay(attempts: nat, c: Config): real {
    Least(Backoff(c.initialDelayMs, c.backoffMultiplier, attempts), c.maxDelayMs)
  }

  lemma {:induction false} PowerGrows(x: real, n: nat)
    requires x >= 1.0
    ensures 1.0 <= Power(x, n) <= Power(x, n + 1)
  {
    if n > 0 {
      PowerGrows(x, n - 1);
      assert Power(x, n + 1) - Power(x, n) == (x - 1.0) * Power(x, n);
      assert Power(x, n) - Power(x, n - 1) == (x - 1.0) * Power(x, n - 1);
    }
  }

  lemma {:induction false} Scales(x: real, low: real, high: real)
    requires x >= 0.0 && low <= high
    ensures x * low <= x * high
  {
  }

  lemma {:induction false} ProductsGrow(first: real, multiplier: real, n: nat)
    requires first >= 0.0 && multiplier >= 1.0
    ensures first == Backoff(first, multiplier, 0) <= Backoff(first, multiplier, n) <= Backoff(first, multiplier, n + 1)
  {
    PowerGrows(multiplier, n);
    Scales(first, 1.0, Power(multiplier, n));
    Scales(first, Power(multiplier, n), Power(multiplier, n + 1));
  }

  lemma {:induction false} CapKeepsOrder(first: real, second: real, next: real, cap: real)
    requires first <= second <= next && first <= cap
    ensures first == Least(first, cap) <= Least(second, cap) <= Least(next, cap) <= cap
  {
  }

  /** The delays start at the first delay, never shrink and stay within the longest. */
  lemma {:induction false} DelaysGrow(attempts: nat, c: Config)
    requires Normalized(c)
    ensures c.initialDelayMs <= ExponentialDelay(attempts, c) <= ExponentialDelay(attempts + 1, c) <= c.maxDelayMs
    ensures ExponentialDelay(0, c) == c.initialDelayMs
  {
    var first, second, next := Backoff(c.initialDelayMs, c.backoffMultiplier, 0),
      Backoff(c.initialDelayMs, c.backoffMultiplier, attempts), Backoff(c.initialDelayMs, c.backoffMultiplier, attempts + 1);
    assert first == c.initialDelayMs && first <= second <= next by {
      ProductsGrow(c.initialDelayMs, c.backoffMultiplier, attempts);
    }
    CapKeepsOrder(first, second, next, c.maxDelayMs);
  }

  /** The delay before the next attempt, or no retry. Rate limits are retried for a limited time
      after the first failure, however often; overloads a limited number of times. */
  function Decide(failure: Failure, attempts: nat, firstFailureAt: Option<real>, now: real,
          c: Config): (delay: Option<real>) {
    if !c.enabled then None
    else
      match failure
      case Generic => None
      case RateLimit(override) =>
        if firstFailureAt.Some? && now - firstFailureAt.value >= c.maxDurationMs then None
        else if override.Some? then override
        else Some(ExponentialDelay(attempts, c))
      case Overload =>
        if attempts >= c.maxAttempts then None else Some(ExponentialDelay(attempts, c))
  }

  /** A delay that is not announced by the provider lies between the first and the longest delay. */
  lemma {:induction false} DelayWithinBounds(failure: Failure, attempts: nat, firstFailureAt: Option<real>,
          now: real, c: Config)
    requires Normalized(c) && Decide(failure, attempts, firstFailureAt, now, c).Some?
    ensures var delay := Decide(failure, attempts, firstFailureAt, now, c).value;
            failure == RateLimit(Some(delay)) || c.initialDelayMs <= delay <= c.maxDelayMs
  {
    DelaysGrow(attempts, c);
  }

  /** What is retried: nothing when the setting is off; rate limits for the configured time after the first
      failure, overloads for the configured number of attempts, nothing else. */
  lemma {:induction false} RetriedExactly(failure: Failure, attempts: nat, firstFailureAt: Option<real>, now: real, c: Config)
    ensures Decide(failure, attempts, firstFailureAt, now, c).Some?
       <==> && c.enabled
            && match failure
               case RateLimit(_) => firstFailureAt.Some? ==> now - firstFailureAt.value < c.maxDurationMs
               case Overload => attempts < c.maxAttempts
               case Generic => false
  {
  }

  /** The first delay, and each time the multiple of the one before, up to the longest. */
  function NthDelay(n: nat, c: Config): real {
    if n == 0 then c.initialDelayMs
    else
      var next := NthDelay(n - 1, c) * c.backoffMultiplier;
      if next <= c.maxDelayMs then next else c.maxDelayMs
  }

  /** The delay a provider announces is taken; otherwise it is the one that comes after so many attempts. */
  lemma {:induction false} DelayExactly(failure: Failure, attempts: nat, firstFailureAt: Option<real>, now: real, c: Config)
    requires Normalized(c) && Decide(failure, attempts, firstFailureAt, now, c).Some?
    ensures Decide(failure, attempts, firstFailureAt, now, c).value
         == if failure.RateLimit? && failure.delayOverride.Some? then failure.delayOverride.value else NthDelay(attempts, c)
  {
    DelayIsNth(attempts, c);
  }

  lemma {:induction false} DelayIsNth(n: nat, c: Config)
    requires Normalized(c)
    ensures ExponentialDelay(n, c) == NthDelay(n, c)
  {
    if n == 0 {
      DelaysGrow(0, c);
    } else {
      DelayIsNth(n - 1, c);
      DelayMultiplies(n - 1, c);
    }
  }

  lemma {:induction false} DelayMultiplies(attempts: nat, c: Config)
    requires Normalized(c)
    ensures var before, delay := ExponentialDelay(attempts, c), ExponentialDelay(attempts + 1, c);
            delay == if before * c.backoffMultiplier <= c.maxDelayMs then before * c.backoffMultiplier else c.maxDelayMs
  {
    var m, p := c.backoffMultiplier, Power(c.backoffMultiplier, attempts);
    var before := Backoff(c.initialDelayMs, m, attempts);
    var next := Backoff(c.initialDelayMs, m, attempts + 1);
    assert next == before * m by {
      assert c.initialDelayMs * (m * p) == (c.initialDelayMs * p) * m;
    }
    Scales(c.maxDelayMs, 1.0, m);
    if before > c.maxDelayMs {
      Scales(m, c.maxDelayMs, before);
    }
  }
}
