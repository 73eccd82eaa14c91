/** Salesforce's retry policy for asynchronous requests: which failures
    are retried, when to give up, and the exponential waits between tries. */
module SalesforceRetry {
  import opened Wrappers
  import opened Json
  import Avail = SalesforceAvailability

  const TooManyRequests := 429

  /** The exception classes a request can raise; the first five are
      `TRANSIENT_EXCEPTIONS`. */
  datatype ExceptionKind =
    | AsyncDefaultBackoff
    | ClientPayload
    | ServerTimeout
    | ServerConnection
    | ServerDisconnected
    | OtherException

  predicate Transient(k: ExceptionKind)
  {
    k != OtherException
  }

  /** The aiohttp exception classes: none of them has a `response`
      attribute, unlike the CDK's backoff exception. */
  predicate Aiohttp(k: ExceptionKind)
  {
    k.ClientPayload? || k.ServerTimeout? || k.ServerConnection? || k.ServerDisconnected?
  }

  /** A raised exception: its class, the status of its response if it has
      one, its own status code, and its decoded error body. */
  datatype Exception = Exception(kind: ExceptionKind, response: Option<int>, status: int, body: Avail.ErrorBody)

  /** `should_give_up`; a failure is the exception `should_give_up` itself raises:
      AttributeError reading `exc.response` of an aiohttp exception,
      IndexError, KeyError or TypeError from `exc.json()[0]` on a body
      without a first element, or AttributeError from `.get` on a first
      error that is not an object. */
  function ShouldGiveUp(e: Exception): (r: Result<bool, Exception>)
    ensures r.Failure? <==>
      Aiohttp(e.kind) || (e.status == Avail.Forbidden && (Avail.FirstError(e.body).None? || !Avail.FirstError(e.body).value.JObj?))
    ensures r.Success? ==>
      (r.value <==> (e.response.Some? && e.response.value != TooManyRequests && 400 <= e.status < 500)
                    || (e.status == Avail.Forbidden && Avail.ErrorCode(Avail.FirstError(e.body).value) == JStr(Avail.RequestLimitExceeded)))
  {
    if Aiohttp(e.kind) then Failure(e)
    else
      var giveUp := e.response.Some? && e.response.value != TooManyRequests && 400 <= e.status < 500;
      if e.status == Avail.Forbidden then
        match Avail.FirstError(e.body)
        case None => Failure(e)
        case Some(errorData) =>
          if !errorData.JObj? then Failure(e)
          else Success(giveUp || Avail.ErrorCode(errorData) == JStr(Avail.RequestLimitExceeded))
      else Success(giveUp)
  }

  /** A 429 or any server error is never given up on, so it stays
      retryable (for a 429, when the response carries the same status),
      unless it is an aiohttp exception, on which `should_give_up` raises. */
  lemma RateLimitAndServerErrorsRetried(e: Exception)
    requires e.status == TooManyRequests || 500 <= e.status < 600
    requires e.status == TooManyRequests ==> e.response.None? || e.response == Some(e.status)
    ensures ShouldGiveUp(e) == if Aiohttp(e.kind) then Failure(e) else Success(false)
  {
  }

  /** A 403 whose first error is `REQUEST_LIMIT_EXCEEDED` is always given
      up on, whatever its response, unless it is an aiohttp exception. */
  lemma ForbiddenLimitGivesUp(e: Exception)
    requires e.status == Avail.Forbidden && Avail.FirstError(e.body).Some?
    requires Avail.ErrorCode(Avail.FirstError(e.body).value) == JStr(Avail.RequestLimitExceeded)
    ensures ShouldGiveUp(e) == if Aiohttp(e.kind) then Failure(e) else Success(true)
  {
  }

  /** With a response whose status is the exception's own, the 403 branch
      changes nothing: 403 is already a client error that is not a 429. */
  lemma ForbiddenBranchRedundantWithResponse(e: Exception)
    requires e.response == Some(e.status) && !Aiohttp(e.kind)
    requires e.status == Avail.Forbidden ==> Avail.FirstError(e.body).Some? && Avail.FirstError(e.body).value.JObj?
    ensures ShouldGiveUp(e) == Success(400 <= e.status < 500 && e.status != TooManyRequests)
  {
  }

  /** `2 ^ n`. */
  function Pow2(n: nat): (r: nat)
    ensures r >= 1
  {
    if n == 0 then 1 else 2 * Pow2(n - 1)
  }

  /** What one call of the wrapped request does. */
  datatype Attempt<T> = Returned(value: T) | Raised(e: Exception)

  datatype Outcome<T> =
    | Completed(value: T)
    | GaveUp(e: Exception)          // the exception is re-raised
    | HandlerFailed(e: Exception)   // `should_give_up` itself raised

  /** A retried call: how it ended, the waits slept between tries, and the
      number of tries made. */
  datatype Run<T> = Run(outcome: Outcome<T>, waits: seq<nat>, tries: nat)

  /** The waits `backoff.expo` yields without jitter: `factor * 2^n` before
      retry `n + 1`. */
  predicate ExpoWaits(waits: seq<nat>, factor: nat)
  {
    forall i :: 0 <= i < |waits| ==> waits[i] == factor * Pow2(i)
  }

  /** Whether try `i` failed in a way that is retried. */
  predicate Retryable<T>(a: Attempt<T>)
  {
    a.Raised? && Transient(a.e.kind) && ShouldGiveUp(a.e) == Success(false)
  }

  /** The retry loop from try `done + 1` on, `call(i)` being try `i + 1`. */
  function RunFrom<T>(call: nat -> Attempt<T>, maxTries: nat, factor: nat, done: nat, waits: seq<nat>): (r: Run<T>)
    requires done < maxTries && |waits| == done && ExpoWaits(waits, factor)
    ensures done < r.tries <= maxTries && |r.waits| == r.tries - 1 && ExpoWaits(r.waits, factor)
    ensures r.waits[..done] == waits
    ensures forall i :: done <= i < r.tries - 1 ==> Retryable(call(i))
    ensures !Retryable(call(r.tries - 1)) || r.tries == maxTries
    ensures r.outcome.Completed? <==> call(r.tries - 1).Returned?
    ensures r.outcome.Completed? ==> r.outcome.value == call(r.tries - 1).value
    ensures !r.outcome.Completed? ==> r.outcome.e == call(r.tries - 1).e
    ensures r.outcome.HandlerFailed? <==> call(r.tries - 1).Raised? && Transient(call(r.tries - 1).e.kind) && ShouldGiveUp(call(r.tries - 1).e).Failure?
    decreases maxTries - done
  {
    match call(done)
    case Returned(v) => Run(Completed(v), waits, done + 1)
    case Raised(e) =>
      if !Transient(e.kind) then Run(GaveUp(e), waits, done + 1)
      else match ShouldGiveUp(e)
        case Failure(_) => Run(HandlerFailed(e), waits, done + 1)
        case Success(giveUp) =>
          if giveUp || done + 1 == maxTries then Run(GaveUp(e), waits, done + 1)
          else
            var r := RunFrom(call, maxTries, factor, done + 1, waits + [factor * Pow2(done)]);
            assert r.waits[..done] == (waits + [factor * Pow2(done)])[..done];
            r
  }

  /** The decorated request under `backoff.on_exception(expo, transient,
      jitter=None, giveup=should_give_up, max_tries, factor)`. */
  function Retry<T>(call: nat -> Attempt<T>, maxTries: nat, factor: nat): (r: Run<T>)
    requires maxTries >= 1
    ensures 1 <= r.tries <= maxTries && |r.waits| == r.tries - 1 && ExpoWaits(r.waits, factor)
    ensures forall i :: 0 <= i < r.tries - 1 ==> Retryable(call(i))
    ensures !Retryable(call(r.tries - 1)) || r.tries == maxTries
    ensures r.outcome.Completed? <==> call(r.tries - 1).Returned?
    ensures r.outcome.Completed? ==> r.outcome.value == call(r.tries - 1).value
    ensures !r.outcome.Completed? ==> r.outcome.e == call(r.tries - 1).e
    ensures r.outcome.HandlerFailed? <==>
      call(r.tries - 1).Raised? && Transient(call(r.tries - 1).e.kind) && ShouldGiveUp(call(r.tries - 1).e).Failure?
  {
    RunFrom(call, maxTries, factor, 0, [])
  }

  /** A non-transient exception on the first try is raised at once. */
  lemma NonTransientNotRetried<T>(call: nat -> Attempt<T>, maxTries: nat, factor: nat)
    requires maxTries >= 1 && call(0).Raised? && !Transient(call(0).e.kind)
    ensures Retry(call, maxTries, factor) == Run(GaveUp(call(0).e), [], 1)
  {
  }

  /** A 403 carrying `REQUEST_LIMIT_EXCEEDED` ends the run at once. */
  lemma ForbiddenLimitNotRetried<T>(call: nat -> Attempt<T>, maxTries: nat, factor: nat)
    requires maxTries >= 1 && call(0).Raised? && Transient(call(0).e.kind)
    requires call(0).e.status == Avail.Forbidden && Avail.FirstError(call(0).e.body).Some?
    requires Avail.ErrorCode(Avail.FirstError(call(0).e.body).value) == JStr(Avail.RequestLimitExceeded)
    ensures Retry(call, maxTries, factor)
            == Run(if Aiohttp(call(0).e.kind) then HandlerFailed(call(0).e) else GaveUp(call(0).e), [], 1)
  {
    ForbiddenLimitGivesUp(call(0).e);
  }

  /** The four aiohttp classes are listed as transient but are never
      retried: `should_give_up` raises on the first of them. */
  lemma AiohttpNeverRetried<T>(call: nat -> Attempt<T>, maxTries: nat, factor: nat)
    requires maxTries >= 1 && call(0).Raised? && Aiohttp(call(0).e.kind)
    ensures Transient(call(0).e.kind)
    ensures Retry(call, maxTries, factor) == Run(HandlerFailed(call(0).e), [], 1)
  {
  }

  function Sum(ws: seq<nat>): nat
  {
    if |ws| == 0 then 0 else Sum(ws[..|ws| - 1]) + ws[|ws| - 1]
  }

  /** The total time slept over `n` retries is `factor * (2^n - 1)`. */
  lemma {:induction false} TotalWait(waits: seq<nat>, factor: nat)
    requires ExpoWaits(waits, factor)
    ensures Sum(waits) == factor * (Pow2(|waits|) - 1)
    decreases |waits|
  {
    if |waits| > 0 {
      var n := |waits| - 1;
      TotalWait(waits[..n], factor);
      assert waits[n] == factor * Pow2(n);
      assert Pow2(n + 1) == 2 * Pow2(n);
    }
  }

  /** A run that keeps failing with a retryable error makes every allowed
      try and sleeps `factor * (2^(maxTries-1) - 1)` in total. */
  lemma AlwaysRetryableUsesEveryTry<T>(call: nat -> Attempt<T>, maxTries: nat, factor: nat)
    requires maxTries >= 1
    requires forall i :: 0 <= i < maxTries ==> Retryable(call(i))
    ensures Retry(call, maxTries, factor).tries == maxTries
    ensures Retry(call, maxTries, factor).outcome.GaveUp?
    ensures Sum(Retry(call, maxTries, factor).waits) == factor * (Pow2(maxTries - 1) - 1)
  {
    var r := Retry(call, maxTries, factor);
    TotalWait(r.waits, factor);
  }
}
