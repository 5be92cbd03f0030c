/**
 * Resilience patterns (core/patterns.py): circuit breaker, bulkhead, retry
 * with backoff, token-bucket rate limiter, fallback chain, and the nesting
 * order of the composite wrapper.
 *
 * The protected function is not code here: what it does on a call is a
 * parameter (`Outcome`), and a method reports whether it invoked it.
 */
module Patterns {
  import opened Wrappers
  import opened Seqs

  /** What the protected function does when invoked: return a value or raise. */
  datatype Outcome = Returned(value: int) | Raised(error: string)

  // ---------------------------------------------------------------- circuit breaker

  datatype BreakerState = Closed | Open | HalfOpen

  /** The counters and state of a `CircuitBreaker`. */
  datatype Breaker = Breaker(
    state: BreakerState,
    failureCount: nat,
    successCount: nat,
    lastFailureTime: Option<real>,
    stateChangeTime: real,
    totalRequests: nat,
    successfulRequests: nat,
    failedRequests: nat,
    blockedRequests: nat)

  /** `CircuitBreakerConfig`; `expected` decides whether an error is of the expected exception type. */
  datatype BreakerConfig = BreakerConfig(failureThreshold: int, successThreshold: int, timeoutSeconds: real)

  /** What `call` gives back. */
  datatype CallResult = Value(value: int) | Failed(error: string) | BreakerOpen

  /** `_check_state_transition`: an open breaker whose timeout has passed goes HALF_OPEN. */
  function CheckTransition(b: Breaker, cfg: BreakerConfig, now: real): Breaker
  {
    if b.state == Open && b.lastFailureTime.Some? && b.lastFailureTime.value != 0.0
       && now - b.lastFailureTime.value >= cfg.timeoutSeconds
    then b.(state := HalfOpen, stateChangeTime := now, successCount := 0)
    else b
  }

  /** `_record_success`. */
  function RecordSuccess(b: Breaker, cfg: BreakerConfig, now: real): Breaker
  {
    var b1 := b.(successfulRequests := b.successfulRequests + 1, failureCount := 0);
    if b1.state == HalfOpen then
      var b2 := b1.(successCount := b1.successCount + 1);
      if b2.successCount >= cfg.successThreshold
      then b2.(state := Closed, stateChangeTime := now, failureCount := 0, successCount := 0)
      else b2
    else b1
  }

  /** `_record_failure`. */
  function RecordFailure(b: Breaker, cfg: BreakerConfig, now: real): Breaker
  {
    var b1 := b.(failedRequests := b.failedRequests + 1, failureCount := b.failureCount + 1,
                 successCount := 0, lastFailureTime := Some(now));
    if (b1.state == Closed && b1.failureCount >= cfg.failureThreshold) || b1.state == HalfOpen
    then b1.(state := Open, stateChangeTime := now)
    else b1
  }

  /**
   * One `call` at time `now`: the breaker afterwards, what the caller gets,
   * and whether the function was invoked.  `expected` says whether a raised
   * error is of the configured exception type; others pass through unrecorded.
   */
  function AfterCall(b: Breaker, cfg: BreakerConfig, now: real, outcome: Outcome, expected: bool)
    : (Breaker, CallResult, bool)
  {
    var b1 := CheckTransition(b.(totalRequests := b.totalRequests + 1), cfg, now);
    if b1.state == Open then (b1.(blockedRequests := b1.blockedRequests + 1), BreakerOpen, false)
    else if outcome.Returned? then (RecordSuccess(b1, cfg, now), Value(outcome.value), true)
    else if expected then (RecordFailure(b1, cfg, now), Failed(outcome.error), true)
    else (b1, Failed(outcome.error), true)
  }

  /** Every request is counted once, as a success, a recorded failure, a block, or an unexpected error. */
  ghost predicate Accounted(b: Breaker)
  {
    b.successfulRequests + b.failedRequests + b.blockedRequests <= b.totalRequests
  }

  /**
   * An open breaker whose timeout has not passed blocks the call without
   * invoking the function: one more request, one more block, nothing else.
   */
  lemma OpenBlocks(b: Breaker, cfg: BreakerConfig, now: real, outcome: Outcome, expected: bool)
    requires b.state == Open
    requires b.lastFailureTime.None? || b.lastFailureTime.value == 0.0
             || now - b.lastFailureTime.value < cfg.timeoutSeconds
    ensures var (b2, r, invoked) := AfterCall(b, cfg, now, outcome, expected);
      r == BreakerOpen && !invoked
      && b2 == b.(totalRequests := b.totalRequests + 1, blockedRequests := b.blockedRequests + 1)
  {
  }

  /**
   * After the timeout an open breaker lets one call through in HALF_OPEN
   * with a fresh success count; it only ever leaves OPEN that way.
   */
  lemma OpenToHalfOpen(b: Breaker, cfg: BreakerConfig, now: real, outcome: Outcome, expected: bool)
    requires b.state == Open
    ensures var (b2, r, invoked) := AfterCall(b, cfg, now, outcome, expected);
      (invoked <==> b.lastFailureTime.Some? && b.lastFailureTime.value != 0.0
                    && now - b.lastFailureTime.value >= cfg.timeoutSeconds)
      && (invoked && outcome.Returned? ==>
            b2.successCount == (if 1 >= cfg.successThreshold then 0 else 1)
            && b2.state == (if 1 >= cfg.successThreshold then Closed else HalfOpen))
      && (invoked && outcome.Raised? && expected ==> b2.state == Open && b2.lastFailureTime == Some(now))
  {
  }

  /**
   * Failures and successes as the breaker records them: a success clears
   * the failure count; an expected failure in CLOSED opens the breaker
   * exactly when the count reaches the threshold, and in HALF_OPEN always
   * re-opens it; an unexpected error records nothing.
   */
  lemma Recording(b: Breaker, cfg: BreakerConfig, now: real, outcome: Outcome, expected: bool)
    requires b.state != Open
    ensures var (b2, r, invoked) := AfterCall(b, cfg, now, outcome, expected);
      invoked && b2.totalRequests == b.totalRequests + 1
      && (outcome.Returned? ==>
            r == Value(outcome.value) && b2.failureCount == 0 && b2.successfulRequests == b.successfulRequests + 1)
      && (outcome.Raised? ==> r == Failed(outcome.error))
      && (outcome.Raised? && expected && b.state == Closed ==>
            b2.failureCount == b.failureCount + 1
            && (b2.state == Open <==> b.failureCount + 1 >= cfg.failureThreshold))
      && (outcome.Raised? && expected && b.state == HalfOpen ==> b2.state == Open && b2.successCount == 0)
      && (outcome.Raised? && !expected ==> b2 == b.(totalRequests := b.totalRequests + 1))
  {
  }

  /** HALF_OPEN closes after `success_threshold` successes, zeroing both counters. */
  lemma HalfOpenCloses(b: Breaker, cfg: BreakerConfig, now: real, value: int, expected: bool)
    requires b.state == HalfOpen
    ensures var (b2, _, _) := AfterCall(b, cfg, now, Returned(value), expected);
      (b.successCount + 1 >= cfg.successThreshold ==>
         b2.state == Closed && b2.failureCount == 0 && b2.successCount == 0 && b2.stateChangeTime == now)
      && (b.successCount + 1 < cfg.successThreshold ==> b2.state == HalfOpen && b2.successCount == b.successCount + 1)
  {
  }

  /** The request accounting is kept by every call. */
  lemma CallKeepsAccounted(b: Breaker, cfg: BreakerConfig, now: real, outcome: Outcome, expected: bool)
    requires Accounted(b)
    ensures Accounted(AfterCall(b, cfg, now, outcome, expected).0)
  {
  }

  class CircuitBreaker {
    const config: BreakerConfig
    var state: BreakerState
    var failureCount: nat
    var successCount: nat
    var lastFailureTime: Option<real>
    var stateChangeTime: real
    var totalRequests: nat
    var successfulRequests: nat
    var failedRequests: nat
    var blockedRequests: nat

    function Snapshot(): Breaker
      reads this
    {
      Breaker(state, failureCount, successCount, lastFailureTime, stateChangeTime, totalRequests,
              successfulRequests, failedRequests, blockedRequests)
    }

    constructor (config: BreakerConfig, now: real)
      ensures this.config == config
      ensures Snapshot() == Breaker(Closed, 0, 0, None, now, 0, 0, 0, 0)
    {
      this.config := config;
      state := Closed;
      failureCount := 0;
      successCount := 0;
      lastFailureTime := None;
      stateChangeTime := now;
      totalRequests := 0;
      successfulRequests := 0;
      failedRequests := 0;
      blockedRequests := 0;
    }

    /** `call`: the breaker's fields follow `AfterCall`. */
    method Call(now: real, outcome: Outcome, expected: bool) returns (r: CallResult, invoked: bool)
      modifies this
      ensures (Snapshot(), r, invoked) == AfterCall(old(Snapshot()), config, now, outcome, expected)
    {
      totalRequests := totalRequests + 1;
      CheckStateTransition(now);
      if state == Open {
        blockedRequests := blockedRequests + 1;
        return BreakerOpen, false;
      }
      invoked := true;
      if outcome.Returned? {
        RecordSuccessOf(now);
        r := Value(outcome.value);
      } else {
        if expected {
          RecordFailureOf(now);
        }
        r := Failed(outcome.error);
      }
    }

    /** `_check_state_transition`. */
    method CheckStateTransition(now: real)
      modifies this
      ensures Snapshot() == CheckTransition(old(Snapshot()), config, now)
    {
      if state == Open && lastFailureTime.Some? && lastFailureTime.value != 0.0
         && now - lastFailureTime.value >= config.timeoutSeconds {
        state := HalfOpen;
        stateChangeTime := now;
        successCount := 0;
      }
    }

    /** `_record_success`. */
    method RecordSuccessOf(now: real)
      modifies this
      ensures Snapshot() == RecordSuccess(old(Snapshot()), config, now)
    {
      successfulRequests := successfulRequests + 1;
      failureCount := 0;
      if state == HalfOpen {
        successCount := successCount + 1;
        if successCount >= config.successThreshold {
          state := Closed;
          stateChangeTime := now;
          failureCount := 0;
          successCount := 0;
        }
      }
    }

    /** `_record_failure`. */
    method RecordFailureOf(now: real)
      modifies this
      ensures Snapshot() == RecordFailure(old(Snapshot()), config, now)
    {
      failedRequests := failedRequests + 1;
      failureCount := failureCount + 1;
      successCount := 0;
      lastFailureTime := Some(now);
      if (state == Closed && failureCount >= config.failureThreshold) || state == HalfOpen {
        state := Open;
        stateChangeTime := now;
      }
    }

    /** `reset`: CLOSED with no failures; the request counters are kept. */
    method Reset(now: real)
      modifies this
      ensures Snapshot() == old(Snapshot()).(state := Closed, failureCount := 0, successCount := 0,
                                             lastFailureTime := None, stateChangeTime := now)
    {
      state := Closed;
      failureCount := 0;
      successCount := 0;
      lastFailureTime := None;
      stateChangeTime := now;
    }
  }

  // ---------------------------------------------------------------- bulkhead

  /**
   * `Bulkhead`: a semaphore of `maxConcurrentCalls` permits.  Admission and
   * completion are separate steps so that calls may overlap.
   */
  class Bulkhead {
    const maxConcurrentCalls: nat
    var currentCalls: nat
    var totalCalls: nat
    var rejectedCalls: nat
    var successfulCalls: nat
    var failedCalls: nat

    /** The permits in use never exceed the permits there are. */
    ghost predicate Valid()
      reads this
    {
      currentCalls <= maxConcurrentCalls
    }

    constructor (maxConcurrentCalls: nat)
      ensures Valid() && this.maxConcurrentCalls == maxConcurrentCalls
      ensures currentCalls == 0 && totalCalls == 0 && rejectedCalls == 0 && successfulCalls == 0 && failedCalls == 0
    {
      this.maxConcurrentCalls := maxConcurrentCalls;
      currentCalls := 0;
      totalCalls := 0;
      rejectedCalls := 0;
      successfulCalls := 0;
      failedCalls := 0;
    }

    /**
     * The admission half of `execute`: counted, then rejected (the
     * BulkheadFullException) when every permit is taken, else a permit is held.
     */
    method Enter() returns (admitted: bool)
      requires Valid()
      modifies this`currentCalls, this`totalCalls, this`rejectedCalls
      ensures Valid()
      ensures totalCalls == old(totalCalls) + 1
      ensures admitted <==> old(currentCalls) < maxConcurrentCalls
      ensures admitted ==> currentCalls == old(currentCalls) + 1 && rejectedCalls == old(rejectedCalls)
      ensures !admitted ==> currentCalls == old(currentCalls) && rejectedCalls == old(rejectedCalls) + 1
    {
      totalCalls := totalCalls + 1;
      if currentCalls >= maxConcurrentCalls {
        rejectedCalls := rejectedCalls + 1;
        return false;
      }
      currentCalls := currentCalls + 1;
      admitted := true;
    }

    /** The `finally` half: the outcome is counted and the permit released. */
    method Leave(outcome: Outcome)
      requires Valid() && currentCalls > 0
      modifies this`currentCalls, this`successfulCalls, this`failedCalls
      ensures Valid() && currentCalls == old(currentCalls) - 1
      ensures outcome.Returned? ==> successfulCalls == old(successfulCalls) + 1 && failedCalls == old(failedCalls)
      ensures outcome.Raised? ==> failedCalls == old(failedCalls) + 1 && successfulCalls == old(successfulCalls)
    {
      if outcome.Returned? {
        successfulCalls := successfulCalls + 1;
      } else {
        failedCalls := failedCalls + 1;
      }
      currentCalls := currentCalls - 1;
    }

    /** `execute` run to completion: afterwards the permits in use are as before. */
    method Execute(outcome: Outcome) returns (r: Result<int, string>, invoked: bool)
      requires Valid()
      modifies this`currentCalls, this`totalCalls, this`rejectedCalls, this`successfulCalls, this`failedCalls
      ensures Valid() && currentCalls == old(currentCalls) && totalCalls == old(totalCalls) + 1
      ensures invoked <==> old(currentCalls) < maxConcurrentCalls
      ensures !invoked ==> r == Err("BulkheadFull") && rejectedCalls == old(rejectedCalls) + 1
      ensures invoked ==> rejectedCalls == old(rejectedCalls)
                          && (outcome.Returned? ==> r == Ok(outcome.value))
                          && (outcome.Raised? ==> r == Err(outcome.error))
    {
      invoked := Enter();
      if !invoked {
        return Err("BulkheadFull"), false;
      }
      Leave(outcome);
      r := if outcome.Returned? then Ok(outcome.value) else Err(outcome.error);
    }
  }

  // ---------------------------------------------------------------- retry

  function Pow(x: real, n: nat): real
  {
    if n == 0 then 1.0 else x * Pow(x, n - 1)
  }

  /** `base * factor^attempt`, capped at `maxDelay`. */
  function Backoff(baseDelay: real, backoffFactor: real, maxDelay: real, attempt: nat): (d: real)
    ensures d <= maxDelay
    ensures d == maxDelay || d == baseDelay * Pow(backoffFactor, attempt)
  {
    MinReal(baseDelay * Pow(backoffFactor, attempt), maxDelay)
  }

  /**
   * `_calculate_delay`: the capped backoff, moved by `u` times 10% when
   * jitter is on (`u` is the `uniform(-1, 1)` share of the jitter range),
   * and never negative.
   */
  function Delay(baseDelay: real, backoffFactor: real, maxDelay: real, jitter: bool, attempt: nat, u: real): (r: real)
    requires -1.0 <= u <= 1.0
    ensures r >= 0.0
    ensures !jitter ==> r == MaxReal(0.0, Backoff(baseDelay, backoffFactor, maxDelay, attempt))
  {
    var d := Backoff(baseDelay, backoffFactor, maxDelay, attempt);
    var d2 := if jitter then d + u * (d * 0.1) else d;
    MaxReal(0.0, d2)
  }

  lemma MulBounded(u: real, w: real)
    requires -1.0 <= u <= 1.0 && w >= 0.0
    ensures -w <= u * w <= w
  {
    assert (1.0 - u) * w >= 0.0;
    assert (1.0 + u) * w >= 0.0;
  }

  /** A non-negative backoff is moved by at most 10% by jitter, so the delay never exceeds 110% of the cap. */
  lemma DelayBounds(baseDelay: real, backoffFactor: real, maxDelay: real, attempt: nat, u: real)
    requires -1.0 <= u <= 1.0
    requires Backoff(baseDelay, backoffFactor, maxDelay, attempt) >= 0.0
    ensures var d := Backoff(baseDelay, backoffFactor, maxDelay, attempt);
      0.9 * d <= Delay(baseDelay, backoffFactor, maxDelay, true, attempt, u) <= 1.1 * d
      && Delay(baseDelay, backoffFactor, maxDelay, true, attempt, u) <= 1.1 * maxDelay
  {
    var d := Backoff(baseDelay, backoffFactor, maxDelay, attempt);
    JitterBounds(d, u);
  }

  lemma JitterBounds(d: real, u: real)
    requires -1.0 <= u <= 1.0 && d >= 0.0
    ensures 0.9 * d <= MaxReal(0.0, d + u * (d * 0.1)) <= 1.1 * d
  {
    MulBounded(u, d * 0.1);
  }

  /** The index of the first successful outcome among the first `n`, if any. */
  function FirstSuccess(outcomes: seq<Outcome>, n: nat): (r: Option<nat>)
    requires n <= |outcomes|
    ensures r.Some? ==> r.value < n && outcomes[r.value].Returned?
                        && forall k | 0 <= k < r.value :: outcomes[k].Raised?
    ensures r.None? ==> forall k | 0 <= k < n :: outcomes[k].Raised?
  {
    if n == 0 then None
    else
      var r := FirstSuccess(outcomes, n - 1);
      if r.Some? then r else if outcomes[n - 1].Returned? then Some(n - 1) else None
  }

  /** Why `RetryPolicy.execute` gives up: the last error, or nothing to raise when no attempt is allowed. */
  datatype RetryFailure = LastError(error: string) | NothingToRaise

  class RetryPolicy {
    const maxAttempts: int
    const baseDelay: real
    const maxDelay: real
    const backoffFactor: real
    const jitter: bool
    var totalAttempts: nat
    var successfulRetries: nat
    var failedRetries: nat

    constructor (maxAttempts: int, baseDelay: real, maxDelay: real, backoffFactor: real, jitter: bool)
      ensures this.maxAttempts == maxAttempts && this.baseDelay == baseDelay && this.maxDelay == maxDelay
      ensures this.backoffFactor == backoffFactor && this.jitter == jitter
      ensures totalAttempts == 0 && successfulRetries == 0 && failedRetries == 0
    {
      this.maxAttempts := maxAttempts;
      this.baseDelay := baseDelay;
      this.maxDelay := maxDelay;
      this.backoffFactor := backoffFactor;
      this.jitter := jitter;
      totalAttempts := 0;
      successfulRetries := 0;
      failedRetries := 0;
    }

    /**
     * `execute`: attempt `k` does what `outcomes[k]` says, and the sleep
     * before attempt `k + 1` is `Delay(.., k, jitterDraws[k])`.  Returns the
     * first success; otherwise the last error, raised after `max_attempts`
     * calls.  `delays` are the sleeps taken.
     */
    method Execute(outcomes: seq<Outcome>, jitterDraws: seq<real>)
      returns (r: Result<int, RetryFailure>, calls: nat, delays: seq<real>)
      requires |outcomes| >= maxAttempts && |jitterDraws| >= maxAttempts
      requires forall k | 0 <= k < |jitterDraws| :: -1.0 <= jitterDraws[k] <= 1.0
      modifies this`totalAttempts, this`successfulRetries, this`failedRetries
      ensures var n := MaxInt(0, maxAttempts);
        var first := FirstSuccess(outcomes, n);
        calls == (if first.Some? then first.value + 1 else n)
        && totalAttempts == old(totalAttempts) + calls
        && |delays| == (if calls == 0 then 0 else calls - 1)
        && (forall k | 0 <= k < |delays| ::
              delays[k] == Delay(baseDelay, backoffFactor, maxDelay, jitter, k, jitterDraws[k]))
        && (first.Some? ==>
              r == Ok(outcomes[first.value].value)
              && successfulRetries == old(successfulRetries) + (if first.value > 0 then 1 else 0)
              && failedRetries == old(failedRetries))
        && (first.None? && n > 0 ==>
              r == Err(LastError(outcomes[n - 1].error))
              && failedRetries == old(failedRetries) + 1 && successfulRetries == old(successfulRetries))
        && (n == 0 ==>
              r == Err(NothingToRaise) && failedRetries == old(failedRetries)
              && successfulRetries == old(successfulRetries))
    {
      var lastError: Option<string> := None;
      var attempt := 0;
      calls := 0;
      delays := [];
      while attempt < maxAttempts
        invariant 0 <= attempt <= MaxInt(0, maxAttempts)
        invariant FirstSuccess(outcomes, attempt).None?
        invariant calls == attempt && totalAttempts == old(totalAttempts) + attempt
        invariant successfulRetries == old(successfulRetries)
        invariant failedRetries == old(failedRetries) + if attempt > 0 && attempt == maxAttempts then 1 else 0
        invariant lastError == if attempt == 0 then None else Some(outcomes[attempt - 1].error)
        invariant |delays| == if attempt > 0 && attempt == maxAttempts then attempt - 1 else attempt
        invariant forall k | 0 <= k < |delays| ::
          delays[k] == Delay(baseDelay, backoffFactor, maxDelay, jitter, k, jitterDraws[k])
      {
        totalAttempts := totalAttempts + 1;
        calls := calls + 1;
        if outcomes[attempt].Returned? {
          if attempt > 0 {
            successfulRetries := successfulRetries + 1;
          }
          return Ok(outcomes[attempt].value), calls, delays;
        }
        lastError := Some(outcomes[attempt].error);
        if attempt < maxAttempts - 1 {
          delays := delays + [Delay(baseDelay, backoffFactor, maxDelay, jitter, attempt, jitterDraws[attempt])];
        } else {
          failedRetries := failedRetries + 1;
        }
        attempt := attempt + 1;
      }
      if lastError.None? {
        return Err(NothingToRaise), calls, delays;
      }
      r := Err(LastError(lastError.value));
    }
  }

  // ---------------------------------------------------------------- rate limiter

  /** Python's `int(x)`: truncation toward zero. */
  function TruncToInt(x: real): (r: int)
    ensures x >= 0.0 ==> 0 <= r && r as real <= x < r as real + 1.0
    ensures x < 0.0 ==> r <= 0 && r as real - 1.0 < x <= r as real
  {
    if x >= 0.0 then x.Floor else -((-x).Floor)
  }

  /** `burst_size or int(rate * 2)`: a missing or zero burst size falls back to twice the rate. */
  function BurstSize(rate: real, burstSize: Option<nat>): (r: nat)
    requires rate >= 0.0
    ensures burstSize.Some? && burstSize.value != 0 ==> r == burstSize.value
    ensures (burstSize.None? || burstSize.value == 0) ==> r as real <= rate * 2.0 < r as real + 1.0
  {
    if burstSize.Some? && burstSize.value != 0 then burstSize.value else TruncToInt(rate * 2.0)
  }

  /**
   * `_refill`: the bucket gains `elapsed * rate` tokens, capped at `burst`;
   * it never loses tokens unless it was over the cap.
   */
  function Refill(tokens: real, elapsed: real, rate: real, burst: real): (r: real)
    requires elapsed >= 0.0 && rate >= 0.0
    ensures r <= burst && (r == burst || r >= tokens)
    ensures tokens <= burst ==> tokens <= r
  {
    assert elapsed * rate >= 0.0;
    MinReal(burst, tokens + elapsed * rate)
  }

  class RateLimiter {
    const rate: real
    const burstSize: nat
    var tokens: real
    var lastRefill: real
    var totalRequests: nat
    var allowedRequests: nat
    var deniedRequests: nat

    /** The bucket holds between 0 and `burst_size` tokens, and every request was allowed or denied. */
    ghost predicate Valid()
      reads this
    {
      rate >= 0.0 && 0.0 <= tokens <= burstSize as real
      && allowedRequests + deniedRequests == totalRequests
    }

    constructor (rate: real, burstSize: Option<nat>, now: real)
      requires rate >= 0.0
      ensures Valid() && this.rate == rate && this.burstSize == BurstSize(rate, burstSize)
      ensures tokens == this.burstSize as real && lastRefill == now
      ensures totalRequests == 0 && allowedRequests == 0 && deniedRequests == 0
    {
      this.rate := rate;
      this.burstSize := BurstSize(rate, burstSize);
      tokens := BurstSize(rate, burstSize) as real;
      lastRefill := now;
      totalRequests := 0;
      allowedRequests := 0;
      deniedRequests := 0;
    }

    /**
     * `acquire` at time `now`: refill by elapsed time times rate, capped at
     * the burst size, then take `tokensNeeded` if there are that many.
     */
    method Acquire(now: real, tokensNeeded: nat) returns (allowed: bool)
      requires Valid() && now >= lastRefill
      modifies this`tokens, this`lastRefill, this`totalRequests, this`allowedRequests, this`deniedRequests
      ensures Valid() && lastRefill == now && totalRequests == old(totalRequests) + 1
      ensures var refilled := Refill(old(tokens), now - old(lastRefill), rate, burstSize as real);
        (allowed <==> refilled >= tokensNeeded as real)
        && (allowed ==> tokens == refilled - tokensNeeded as real && allowedRequests == old(allowedRequests) + 1
                        && deniedRequests == old(deniedRequests))
        && (!allowed ==> tokens == refilled && deniedRequests == old(deniedRequests) + 1
                         && allowedRequests == old(allowedRequests))
    {
      totalRequests := totalRequests + 1;
      tokens := Refill(tokens, now - lastRefill, rate, burstSize as real);
      lastRefill := now;
      if tokens >= tokensNeeded as real {
        tokens := tokens - tokensNeeded as real;
        allowedRequests := allowedRequests + 1;
        return true;
      }
      deniedRequests := deniedRequests + 1;
      allowed := false;
    }
  }

  // ---------------------------------------------------------------- timeout

  /** How a call run under a deadline ends: in time (returning or raising) or past the deadline. */
  datatype TimedOutcome = InTime(outcome: Outcome) | PastDeadline

  /** `timeout or self.default_timeout`: a missing or zero timeout means the default. */
  function EffectiveTimeout(timeout: Option<real>, defaultTimeout: real): (t: real)
    ensures timeout.Some? && timeout.value != 0.0 ==> t == timeout.value
    ensures timeout.None? || timeout.value == 0.0 ==> t == defaultTimeout
  {
    if timeout.Some? && timeout.value != 0.0 then timeout.value else defaultTimeout
  }

  /**
   * `TimeoutPattern`.  Whether the function finishes within the deadline is
   * a parameter; the worker thread is not modelled.
   */
  class TimeoutPattern {
    const defaultTimeout: real
    var totalCalls: nat
    var successfulCalls: nat
    var timeoutCalls: nat
    var failedCalls: nat

    /** Every finished call ended exactly one way. */
    ghost predicate Valid()
      reads this
    {
      successfulCalls + timeoutCalls + failedCalls == totalCalls
    }

    constructor (defaultTimeout: real)
      ensures Valid() && this.defaultTimeout == defaultTimeout
      ensures totalCalls == 0 && successfulCalls == 0 && timeoutCalls == 0 && failedCalls == 0
    {
      this.defaultTimeout := defaultTimeout;
      totalCalls := 0;
      successfulCalls := 0;
      timeoutCalls := 0;
      failedCalls := 0;
    }

    /** `execute`: the value, the function's own error, or a timeout error; one counter moves. */
    method Execute(ended: TimedOutcome) returns (r: Result<int, string>)
      requires Valid()
      modifies this`totalCalls, this`successfulCalls, this`timeoutCalls, this`failedCalls
      ensures Valid() && totalCalls == old(totalCalls) + 1
      ensures ended.InTime? && ended.outcome.Returned? ==>
        r == Ok(ended.outcome.value) && successfulCalls == old(successfulCalls) + 1
        && timeoutCalls == old(timeoutCalls) && failedCalls == old(failedCalls)
      ensures ended.PastDeadline? ==>
        r == Err("Timeout") && timeoutCalls == old(timeoutCalls) + 1
        && successfulCalls == old(successfulCalls) && failedCalls == old(failedCalls)
      ensures ended.InTime? && ended.outcome.Raised? ==>
        r == Err(ended.outcome.error) && failedCalls == old(failedCalls) + 1
        && successfulCalls == old(successfulCalls) && timeoutCalls == old(timeoutCalls)
    {
      totalCalls := totalCalls + 1;
      match ended
      case PastDeadline =>
        timeoutCalls := timeoutCalls + 1;
        r := Err("Timeout");
      case InTime(Returned(v)) =>
        successfulCalls := successfulCalls + 1;
        r := Ok(v);
      case InTime(Raised(e)) =>
        failedCalls := failedCalls + 1;
        r := Err(e);
    }
  }

  // ---------------------------------------------------------------- fallback

  /**
   * One registered fallback as seen by one `execute`: whether its condition
   * accepts the primary error, and what the fallback function does.
   */
  datatype FallbackTry = FallbackTry(applies: bool, outcome: Outcome)

  /** The first fallback that applies and succeeds, if any. */
  function FirstFallback(tries: seq<FallbackTry>): (r: Option<nat>)
    ensures r.Some? ==> r.value < |tries| && tries[r.value].applies && tries[r.value].outcome.Returned?
                        && forall k | 0 <= k < r.value :: !tries[k].applies || tries[k].outcome.Raised?
    ensures r.None? ==> forall k | 0 <= k < |tries| :: !tries[k].applies || tries[k].outcome.Raised?
  {
    if tries == [] then None
    else if tries[0].applies && tries[0].outcome.Returned? then Some(0)
    else
      var r := FirstFallback(tries[1..]);
      assert forall k | 1 <= k < |tries| :: tries[k] == tries[1..][k - 1];
      if r.Some? then Some(r.value + 1) else None
  }

  /** How many of `tries` have a condition that applies. */
  function CountApplying(tries: seq<FallbackTry>): (n: nat)
    ensures n <= |tries|
  {
    if tries == [] then 0 else (if tries[0].applies then 1 else 0) + CountApplying(tries[1..])
  }

  lemma {:induction false} CountApplyingAppend(tries: seq<FallbackTry>, t: FallbackTry)
    ensures CountApplying(tries + [t]) == CountApplying(tries) + (if t.applies then 1 else 0)
  {
    if tries != [] {
      assert (tries + [t])[1..] == tries[1..] + [t];
      CountApplyingAppend(tries[1..], t);
    }
  }

  class FallbackPattern {
    var strategyCount: nat
    var primaryCalls: nat
    var primarySuccesses: nat
    var fallbackCalls: nat
    var fallbackSuccesses: nat

    constructor ()
      ensures strategyCount == 0 && primaryCalls == 0 && primarySuccesses == 0
      ensures fallbackCalls == 0 && fallbackSuccesses == 0
    {
      strategyCount := 0;
      primaryCalls := 0;
      primarySuccesses := 0;
      fallbackCalls := 0;
      fallbackSuccesses := 0;
    }

    /** `add_fallback`: one more strategy, tried after those already registered. */
    method AddFallback()
      modifies this`strategyCount
      ensures strategyCount == old(strategyCount) + 1
    {
      strategyCount := strategyCount + 1;
    }

    /**
     * `execute`: the primary's value, else the value of the first fallback
     * (in registration order) whose condition applies and that succeeds,
     * else the primary's error.  `tries[k]` describes fallback `k`.
     */
    method Execute(primary: Outcome, tries: seq<FallbackTry>) returns (r: Result<int, string>)
      requires |tries| == strategyCount
      modifies this`primaryCalls, this`primarySuccesses, this`fallbackCalls, this`fallbackSuccesses
      ensures primaryCalls == old(primaryCalls) + 1
      ensures primary.Returned? ==>
        r == Ok(primary.value) && primarySuccesses == old(primarySuccesses) + 1
        && fallbackCalls == old(fallbackCalls) && fallbackSuccesses == old(fallbackSuccesses)
      ensures primary.Raised? ==> primarySuccesses == old(primarySuccesses)
      ensures primary.Raised? && FirstFallback(tries).Some? ==>
        var k := FirstFallback(tries).value;
        r == Ok(tries[k].outcome.value) && fallbackSuccesses == old(fallbackSuccesses) + 1
        && fallbackCalls == old(fallbackCalls) + CountApplying(tries[..k + 1])
      ensures primary.Raised? && FirstFallback(tries).None? ==>
        r == Err(primary.error) && fallbackSuccesses == old(fallbackSuccesses)
        && fallbackCalls == old(fallbackCalls) + CountApplying(tries)
    {
      primaryCalls := primaryCalls + 1;
      if primary.Returned? {
        primarySuccesses := primarySuccesses + 1;
        return Ok(primary.value);
      }
      var i := 0;
      while i < |tries|
        invariant 0 <= i <= |tries|
        invariant forall k | 0 <= k < i :: !tries[k].applies || tries[k].outcome.Raised?
        invariant fallbackCalls == old(fallbackCalls) + CountApplying(tries[..i])
        invariant fallbackSuccesses == old(fallbackSuccesses)
        invariant primaryCalls == old(primaryCalls) + 1 && primarySuccesses == old(primarySuccesses)
      {
        CountApplyingAppend(tries[..i], tries[i]);
        assert tries[..i + 1] == tries[..i] + [tries[i]];
        if tries[i].applies {
          fallbackCalls := fallbackCalls + 1;
          if tries[i].outcome.Returned? {
            fallbackSuccesses := fallbackSuccesses + 1;
            return Ok(tries[i].outcome.value);
          }
        }
        i := i + 1;
      }
      assert tries[..i] == tries;
      r := Err(primary.error);
    }
  }

  // ---------------------------------------------------------------- composite

  datatype Layer = FallbackLayer | RetryLayer | BreakerLayer | TimeoutLayer | RateLimitLayer | BulkheadLayer

  /** Which optional patterns a `ResiliencePatterns` has been given. */
  datatype Configured = Configured(fallback: bool, retry: bool, breaker: bool, timeout: bool,
                                   rateLimiter: bool, bulkhead: bool)

  /** The fixed nesting, outermost first. */
  function FullNesting(): seq<Layer>
  {
    [FallbackLayer, RetryLayer, BreakerLayer, TimeoutLayer, RateLimitLayer, BulkheadLayer]
  }

  function Has(c: Configured, l: Layer): bool
  {
    match l
    case FallbackLayer => c.fallback
    case RetryLayer => c.retry
    case BreakerLayer => c.breaker
    case TimeoutLayer => c.timeout
    case RateLimitLayer => c.rateLimiter
    case BulkheadLayer => c.bulkhead
  }

  function Position(l: Layer): nat
  {
    match l
    case FallbackLayer => 0
    case RetryLayer => 1
    case BreakerLayer => 2
    case TimeoutLayer => 3
    case RateLimitLayer => 4
    case BulkheadLayer => 5
  }

  /** The layers of `ls` that `c` configures, in the order of `ls`. */
  function Present(ls: seq<Layer>, c: Configured): seq<Layer>
  {
    if ls == [] then [] else (if Has(c, ls[0]) then [ls[0]] else []) + Present(ls[1..], c)
  }

  /** `execute`'s wrappers, outermost first, each present only when configured. */
  function Nesting(c: Configured): seq<Layer>
  {
    Present(FullNesting(), c)
  }

  /** Keeping the configured layers of a list keeps its order and drops exactly the others. */
  lemma {:induction false} PresentFacts(ls: seq<Layer>, c: Configured)
    requires forall i, j | 0 <= i < j < |ls| :: Position(ls[i]) < Position(ls[j])
    ensures forall l :: l in Present(ls, c) <==> l in ls && Has(c, l)
    ensures forall i, j | 0 <= i < j < |Present(ls, c)| :: Position(Present(ls, c)[i]) < Position(Present(ls, c)[j])
  {
    if ls != [] {
      var tail := ls[1..];
      PresentFacts(tail, c);
      var rest := Present(tail, c);
      var p := Present(ls, c);
      assert forall l | l in tail :: Position(ls[0]) < Position(l) by {
        forall l | l in tail ensures Position(ls[0]) < Position(l) {
          var j :| 0 <= j < |tail| && tail[j] == l;
          assert ls[j + 1] == l;
        }
      }
      assert forall l :: l in ls <==> l == ls[0] || l in tail by {
        assert ls == [ls[0]] + tail;
      }
      if Has(c, ls[0]) {
        assert p == [ls[0]] + rest;
        forall i, j | 0 <= i < j < |p| ensures Position(p[i]) < Position(p[j]) {
          assert p[j] == rest[j - 1] && rest[j - 1] in rest;
          if 0 < i {
            assert p[i] == rest[i - 1];
          }
        }
      } else {
        assert p == rest;
      }
    }
  }

  /** Each layer sits at its position in the fixed nesting. */
  lemma PositionInFull(l: Layer)
    ensures FullNesting()[Position(l)] == l
  {
  }

  /**
   * The configured layers are exactly the layers present, and they appear in
   * the fixed order: fallback outside retry outside circuit breaker outside
   * timeout outside rate limiter outside bulkhead.
   */
  lemma NestingOrder(c: Configured)
    ensures forall l :: l in Nesting(c) <==> Has(c, l)
    ensures forall i, j | 0 <= i < j < |Nesting(c)| :: Position(Nesting(c)[i]) < Position(Nesting(c)[j])
    ensures forall k | 0 <= k < |Nesting(c)| :: FullNesting()[Position(Nesting(c)[k])] == Nesting(c)[k]
  {
    PresentFacts(FullNesting(), c);
    forall l ensures l in FullNesting() && FullNesting()[Position(l)] == l {
      PositionInFull(l);
    }
  }
}
