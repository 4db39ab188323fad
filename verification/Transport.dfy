/** The retry loop of one logical HTTP request. */
module Transport {
  import opened Wrappers

  const MAX_RETRY_DELAY: real := 60.0

  /** A delay in floating point, before it is bounded. */
  datatype Delay = NaN | PositiveInfinity | NegativeInfinity | Finite(seconds: real)

  /** The Retry-After header once parsed: an amount of seconds, or nothing usable (section 10.2.3 of RFC 9110). */
  datatype RetryAfter = Unusable | Seconds(delay: Delay)

  /** What one attempt meets: a response, or an error below HTTP. */
  datatype Attempt =
    | Response(status: int, retryAfter: RetryAfter)
    | TransportError(cause: string, badCertificate: bool)

  datatype HttpResult = HttpResult(status: Option<int>, attempts: nat, transportError: Option<string>,
      delays: seq<real>) {
    predicate Succeeded() {
      transportError.None? && status.Some? && 200 <= status.value < 300
    }

    function Retries(): nat {
      if attempts == 0 then 0 else attempts - 1
    }
  }

  predicate RetryableStatus(code: int) {
    code == 408 || code == 429 || 500 <= code <= 599
  }

  predicate Accepted(a: Attempt) {
    a.Response? && 200 <= a.status < 300
  }

  predicate Retryable(a: Attempt) {
    match a
    case Response(status, _) => RetryableStatus(status)
    case TransportError(_, badCertificate) => !badCertificate
  }

  /** `_bounded_retry_after_seconds`. */
  function Bounded(d: Delay): (r: Option<real>)
    ensures r.Some? ==> 0.0 <= r.value <= MAX_RETRY_DELAY
    ensures d.Finite? && 0.0 <= d.seconds <= 60.0 ==> r == Some(d.seconds)
    ensures d.PositiveInfinity? || (d.Finite? && d.seconds > 60.0) ==> r == Some(60.0)
    ensures d.NegativeInfinity? || (d.Finite? && d.seconds < 0.0) ==> r == Some(0.0)
    ensures r.None? <==> d.NaN?
  {
    match d
    case NaN => None
    case PositiveInfinity => Some(MAX_RETRY_DELAY)
    case NegativeInfinity => Some(0.0)
    case Finite(s) =>
      var floored := if s < 0.0 then 0.0 else s;
      Some(if floored > MAX_RETRY_DELAY then MAX_RETRY_DELAY else floored)
  }

  function DelayAfter(a: Attempt, retryDelay: real): (r: real)
    requires retryDelay >= 0.0
    ensures 0.0 <= r && (r <= MAX_RETRY_DELAY || r == retryDelay)
  {
    if a.Response? && a.retryAfter.Seconds? && Bounded(a.retryAfter.delay).Some?
    then Bounded(a.retryAfter.delay).value
    else retryDelay
  }

  /** The result that reports attempt `a` as the last of `attempts`. */
  predicate Reports(r: HttpResult, a: Attempt) {
    match a
    case Response(status, _) => r.status == Some(status) && r.transportError.None?
    case TransportError(cause, _) => r.status.None? && r.transportError == Some(cause)
  }

  /** Every attempt before the last failed in a retryable way and was followed by its bounded delay;
      the last one was accepted, not retryable, or the last allowed. */
  ghost predicate RetryOutcome(maxAttempts: nat, retryDelay: real, attempt: nat -> Attempt, r: HttpResult)
    requires retryDelay >= 0.0
  {
    && 1 <= r.attempts <= maxAttempts
    && |r.delays| == r.attempts - 1
    && (forall i: nat :: 1 <= i < r.attempts ==>
         Retryable(attempt(i)) && !Accepted(attempt(i)) && r.delays[i - 1] == DelayAfter(attempt(i), retryDelay))
    && (Retryable(attempt(r.attempts)) ==> r.attempts == maxAttempts)
    && Reports(r, attempt(r.attempts))
  }

  /** `_post`; reaching the end of the loop would be the source's trailing AssertionError. */
  method Post(maxAttempts: nat, retryDelay: real, attempt: nat -> Attempt) returns (r: HttpResult)
    requires maxAttempts > 0 && retryDelay >= 0.0
    ensures RetryOutcome(maxAttempts, retryDelay, attempt, r)
    ensures r.Succeeded() <==> Accepted(attempt(r.attempts))
    ensures r.Retries() == r.attempts - 1 == |r.delays|
    ensures forall i :: 0 <= i < |r.delays| ==>
            0.0 <= r.delays[i] && (r.delays[i] <= MAX_RETRY_DELAY || r.delays[i] <= retryDelay)
  {
    var delays: seq<real> := [];
    for i := 1 to maxAttempts + 1
      invariant |delays| == i - 1
      invariant forall j: nat :: 1 <= j < i ==>
                Retryable(attempt(j)) && !Accepted(attempt(j)) && delays[j - 1] == DelayAfter(attempt(j), retryDelay)
      invariant forall j :: 0 <= j < |delays| ==>
                0.0 <= delays[j] && (delays[j] <= MAX_RETRY_DELAY || delays[j] <= retryDelay)
      invariant i > 1 ==> i <= maxAttempts
    {
      var status: Option<int>, error: Option<string> := None, None;
      var retryAfter, retryable := Unusable, false;
      match attempt(i) {
        case Response(code, after) =>
          status := Some(code);
          if 200 <= code < 300 {
            return HttpResult(status, i, None, delays);
          }
          retryable, retryAfter := RetryableStatus(code), after;
        case TransportError(cause, badCertificate) =>
          error, retryable := Some(cause), !badCertificate;
      }
      if !retryable || i >= maxAttempts {
        return HttpResult(status, i, error, delays);
      }
      var delay := if retryAfter.Seconds? then Bounded(retryAfter.delay) else None;
      delays := delays + [if delay.None? then retryDelay else delay.value];
    }
    assert false;
  }

  /** The outcome is unique: no two results describe the same sequence of attempts. */
  lemma OutcomeUnique(maxAttempts: nat, retryDelay: real, attempt: nat -> Attempt, r: HttpResult, q: HttpResult)
    requires retryDelay >= 0.0
    requires RetryOutcome(maxAttempts, retryDelay, attempt, r) && RetryOutcome(maxAttempts, retryDelay, attempt, q)
    ensures r == q
  {
    forall i | 0 <= i < |r.delays| ensures r.delays[i] == q.delays[i] {
      var k: nat := i + 1;
      assert r.delays[k - 1] == DelayAfter(attempt(k), retryDelay) == q.delays[k - 1];
    }
  }
}
