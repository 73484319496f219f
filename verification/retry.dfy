/** The retry engine of src/utils/retry.ts: which failures are worth
    another attempt, and the attempt loop with exponential backoff. The
    operation is a function from the 0-based attempt number to what that
    attempt returns or throws; each sleep is recorded as its duration. */
module Retry {
  import opened Types
  import opened Text

  const RetryableStatusCodes: set<int> := {408, 429, 500, 502, 503, 504}

  /** `error.code ?? error.status`: a present code hides the status. Only a
      remote-service error carries either. */
  function StatusOf(e: Error): Option<Code> {
    if !e.ServiceError? then None
    else if e.code.Some? then e.code
    else if e.status.Some? then Some(NumericCode(e.status.value))
    else None
  }

  /** `status && RETRYABLE_STATUS_CODES.has(status)`: a set of numbers never
      holds a textual code. */
  predicate HasRetryableStatus(e: Error) {
    match StatusOf(e)
    case Some(NumericCode(n)) => n in RetryableStatusCodes
    case _ => false
  }

  const TransientPatterns: seq<string> := ["ECONNRESET", "ETIMEDOUT", "ENOTFOUND", "socket hang up"]

  /** `/ECONNRESET|ETIMEDOUT|ENOTFOUND|socket hang up/i.test(message)`. */
  predicate MentionsTransientFailure(message: string) {
    exists k :: 0 <= k < |TransientPatterns| && ContainsIgnoringCase(message, TransientPatterns[k])
  }

  /** `isRetryable(error)`; a missing message reads as "". */
  predicate IsRetryable(e: Error) {
    e.RateLimitError? || HasRetryableStatus(e) || MentionsTransientFailure(e.Message().GetOr(""))
  }

  /** `Math.pow(base, k)` for a whole exponent. */
  function Pow(base: real, k: nat): real {
    if k == 0 then 1.0 else base * Pow(base, k - 1)
  }

  /** `Math.random() * 0.3 + 0.85`, from the draw `u`. */
  function Jitter(u: real): real {
    u * 0.3 + 0.85
  }

  /** The sleep after failed attempt `k`, from the random draw `u`. */
  function WaitTime(delay: real, multiplier: real, k: nat, u: real): real {
    delay * Pow(multiplier, k) * Jitter(u)
  }

  /** The sleeps before attempts 1..n: the k-th uses the k-th random draw. */
  function Waits(delay: real, multiplier: real, random: nat -> real, n: nat): (w: seq<real>)
    ensures |w| == n
  {
    seq(n, k requires 0 <= k < n => WaitTime(delay, multiplier, k, random(k)))
  }

  lemma {:induction false} WaitsSnoc(delay: real, multiplier: real, random: nat -> real, n: nat)
    ensures Waits(delay, multiplier, random, n + 1)
         == Waits(delay, multiplier, random, n) + [WaitTime(delay, multiplier, n, random(n))]
  {
    var w := Waits(delay, multiplier, random, n + 1);
    assert w[..n] == Waits(delay, multiplier, random, n);
    assert w == w[..n] + [w[n]];
  }

  /** The attempt at which the loop ends, searching from attempt `k`: the
      first one that succeeds, is the last allowed, or fails with an error
      not worth retrying. */
  function StopFrom<T>(fn: nat -> Result<T, Error>, retries: nat, k: nat): nat
    requires k <= retries
    decreases retries - k
  {
    if fn(k).Ok? || k == retries || !IsRetryable(fn(k).error) then k
    else StopFrom(fn, retries, k + 1)
  }

  function Stop<T>(fn: nat -> Result<T, Error>, retries: nat): nat {
    StopFrom(fn, retries, 0)
  }

  /** `attempt` is where the loop ends: all attempts before it failed with
      a retryable error, and it succeeds, is the last, or is not retryable. */
  predicate EndsAt<T>(fn: nat -> Result<T, Error>, retries: nat, attempt: nat) {
    attempt <= retries
    && (forall j :: 0 <= j < attempt ==> fn(j).Err? && IsRetryable(fn(j).error))
    && (fn(attempt).Ok? || attempt == retries || !IsRetryable(fn(attempt).error))
  }

  lemma {:induction false} StopFromEndsAt<T>(fn: nat -> Result<T, Error>, retries: nat, k: nat)
    requires k <= retries
    requires forall j :: 0 <= j < k ==> fn(j).Err? && IsRetryable(fn(j).error)
    ensures EndsAt(fn, retries, StopFrom(fn, retries, k))
    decreases retries - k
  {
    if !(fn(k).Ok? || k == retries || !IsRetryable(fn(k).error)) {
      StopFromEndsAt(fn, retries, k + 1);
    }
  }

  /** The loop ends at exactly one attempt, and `Stop` is that attempt. */
  lemma {:induction false} StopSpec<T>(fn: nat -> Result<T, Error>, retries: nat, attempt: nat)
    ensures EndsAt(fn, retries, Stop(fn, retries))
    ensures EndsAt(fn, retries, attempt) ==> attempt == Stop(fn, retries)
  {
    StopFromEndsAt(fn, retries, 0);
  }

  /** `withRetry(fn, {retries, delay, backoffMultiplier})`: `calls` is how
      often `fn` ran, `waits` the sleeps in order. The outcome is that of
      the last attempt: its value, or its error rethrown unchanged. */
  method WithRetry<T>(fn: nat -> Result<T, Error>, retries: nat, delay: real,
                      backoffMultiplier: Option<real>, random: nat -> real)
    returns (r: Result<T, Error>, calls: nat, waits: seq<real>)
    ensures calls == Stop(fn, retries) + 1
    ensures r == fn(calls - 1)
    ensures waits == Waits(delay, backoffMultiplier.GetOr(2.0), random, calls - 1)
  {
    var multiplier := backoffMultiplier.GetOr(2.0);
    var attempt := 0;
    calls := 0;
    waits := [];
    while true
      invariant attempt <= retries && calls == attempt
      invariant StopFrom(fn, retries, attempt) == Stop(fn, retries)
      invariant waits == Waits(delay, multiplier, random, attempt)
      decreases retries - attempt
    {
      r := fn(attempt);
      calls := calls + 1;
      if r.Ok? {
        return;
      }
      if attempt == retries || !IsRetryable(r.error) {
        return;
      }
      var jitter := Jitter(random(attempt));
      var waitTime := delay * Pow(multiplier, attempt) * jitter;
      assert waitTime == WaitTime(delay, multiplier, attempt, random(attempt));
      WaitsSnoc(delay, multiplier, random, attempt);
      waits := waits + [waitTime];
      attempt := attempt + 1;
    }
  }

  /** An operation that first succeeds at attempt k (within the allowed
      attempts) is called k + 1 times and its value is returned. */
  lemma {:induction false} SucceedsAt<T>(fn: nat -> Result<T, Error>, retries: nat, k: nat)
    requires k <= retries && fn(k).Ok?
    requires forall j :: 0 <= j < k ==> fn(j).Err? && IsRetryable(fn(j).error)
    ensures Stop(fn, retries) == k
  {
    StopSpec(fn, retries, k);
  }

  /** A failure not worth retrying ends the loop at once: it is rethrown
      after k + 1 calls and k sleeps, none after it. */
  lemma {:induction false} NonRetryableStops<T>(fn: nat -> Result<T, Error>, retries: nat, k: nat)
    requires k <= retries && fn(k).Err? && !IsRetryable(fn(k).error)
    requires forall j :: 0 <= j < k ==> fn(j).Err? && IsRetryable(fn(j).error)
    ensures Stop(fn, retries) == k
  {
    StopSpec(fn, retries, k);
  }

  /** When every attempt fails retryably, `fn` runs retries + 1 times and the
      last error is rethrown. */
  lemma {:induction false} ExhaustsRetries<T>(fn: nat -> Result<T, Error>, retries: nat)
    requires forall j :: 0 <= j <= retries ==> fn(j).Err? && IsRetryable(fn(j).error)
    ensures Stop(fn, retries) == retries
    ensures fn(Stop(fn, retries)).Err?
  {
    StopSpec(fn, retries, retries);
  }

  /** With no retries the operation runs once and nothing sleeps. */
  lemma {:induction false} NoRetries<T>(fn: nat -> Result<T, Error>)
    ensures Stop(fn, 0) == 0
  {
    StopSpec(fn, 0, 0);
  }

  lemma {:induction false} PowNonNegative(base: real, k: nat)
    requires base >= 0.0
    ensures Pow(base, k) >= 0.0
  {
    if k > 0 {
      PowNonNegative(base, k - 1);
    }
  }

  /** A draw in [0, 1) gives a jitter in [0.85, 1.15), so each sleep lies
      between 0.85 and 1.15 times delay * multiplier^k. */
  lemma {:induction false} WaitTimeBounds(delay: real, multiplier: real, k: nat, u: real)
    requires 0.0 <= u < 1.0 && delay >= 0.0 && multiplier >= 0.0
    ensures 0.85 <= Jitter(u) < 1.15
    ensures 0.85 * delay * Pow(multiplier, k) <= WaitTime(delay, multiplier, k, u)
    ensures WaitTime(delay, multiplier, k, u) <= 1.15 * delay * Pow(multiplier, k)
  {
    PowNonNegative(multiplier, k);
    var base := delay * Pow(multiplier, k);
    assert base >= 0.0;
    assert WaitTime(delay, multiplier, k, u) == base * Jitter(u);
    ScaleWithin(base, Jitter(u));
    assert 0.85 * delay * Pow(multiplier, k) == 0.85 * base;
    assert 1.15 * delay * Pow(multiplier, k) == 1.15 * base;
  }

  lemma {:induction false} ScaleWithin(b: real, j: real)
    requires b >= 0.0 && 0.85 <= j <= 1.15
    ensures 0.85 * b <= b * j <= 1.15 * b
  {
    assert b * j - 0.85 * b == b * (j - 0.85);
    assert 1.15 * b - b * j == b * (1.15 - j);
  }

  /** The default multiplier doubles the sleep after every failure. */
  lemma {:induction false} DefaultBackoffDoubles(delay: real, k: nat, u: real)
    ensures WaitTime(delay, 2.0, k + 1, u) == 2.0 * WaitTime(delay, 2.0, k, u)
  {
    assert Pow(2.0, k + 1) == 2.0 * Pow(2.0, k);
  }

  /** A window of `pattern`'s length that matches it ignoring case is found. */
  lemma {:induction false} ContainsAt(prefix: string, window: string, suffix: string, pattern: string)
    requires Lower(window) == Lower(pattern) && |window| == |pattern|
    ensures ContainsIgnoringCase(prefix + window + suffix, pattern)
  {
    var text := prefix + window + suffix;
    if prefix == [] {
      assert text[..|pattern|] == window;
    } else {
      ContainsAt(prefix[1..], window, suffix, pattern);
      assert text[1..] == prefix[1..] + window + suffix;
    }
  }

  /** A message that names one of the network failures anywhere, in any
      case, makes any error retryable. */
  lemma {:induction false} TransientMessageIsRetryable(e: Error, prefix: string, window: string, suffix: string, k: nat)
    requires k < |TransientPatterns|
    requires |window| == |TransientPatterns[k]| && Lower(window) == Lower(TransientPatterns[k])
    requires e.Message() == Some(prefix + window + suffix)
    ensures IsRetryable(e)
  {
    ContainsAt(prefix, window, suffix, TransientPatterns[k]);
  }

  /** `code ?? status`: once a code is present, the status has no say. */
  lemma {:induction false} CodeHidesStatus(c: Code, s1: Option<int>, s2: Option<int>, text: Option<string>, isErrorObject: bool)
    ensures IsRetryable(ServiceError(Some(c), s1, text, isErrorObject))
        == IsRetryable(ServiceError(Some(c), s2, text, isErrorObject))
  {
  }

  /** Without a code and without a network failure in the message, a
      service error is retryable exactly when its status is one of the
      retryable status codes. */
  lemma {:induction false} StatusDecidesWithoutCode(status: Option<int>, text: Option<string>, isErrorObject: bool)
    requires !MentionsTransientFailure(ServiceError(None, status, text, isErrorObject).Message().GetOr(""))
    ensures IsRetryable(ServiceError(None, status, text, isErrorObject))
        <==> status.Some? && status.value in RetryableStatusCodes
  {
  }

  /** Errors of this library other than a RateLimitError carry no code or
      status: only their message can make them retryable. */
  lemma {:induction false} LibraryErrorsNeedTransientMessage(e: Error)
    requires !e.RateLimitError? && !e.ServiceError?
    ensures IsRetryable(e) <==> MentionsTransientFailure(e.Message().GetOr(""))
  {
  }

  /** The classification: a rate-limit error, a retryable status (the code
      hiding the status), and a network failure named in the message in
      any case. */
  lemma {:induction false} IsRetryableExamples()
    ensures IsRetryable(RateLimitError("Google API rate limit exceeded. Please retry later."))
    ensures IsRetryable(ServiceError(None, Some(503), None, true))
    ensures !IsRetryable(ServiceError(Some(NumericCode(400)), Some(503), None, true))
    ensures !IsRetryable(ServiceError(Some(TextCode("429")), None, None, true))
    ensures !IsRetryable(ServiceError(None, Some(404), None, true))
    ensures !IsRetryable(ValidationError("bad"))
  {
    assert 503 in RetryableStatusCodes;
    assert 400 !in RetryableStatusCodes && 404 !in RetryableStatusCodes;
    assert forall k :: 0 <= k < |TransientPatterns| ==> |TransientPatterns[k]| > 3;
  }

  lemma {:induction false} SocketHangUpExample()
    ensures IsRetryable(ServiceError(None, None, Some("Socket Hang Up"), true))
  {
    assert Lower("Socket Hang Up") == Lower("socket hang up");
    ContainsAt("", "Socket Hang Up", "", "socket hang up");
    assert "" + "Socket Hang Up" + "" == "Socket Hang Up";
    assert TransientPatterns[3] == "socket hang up";
  }
}
