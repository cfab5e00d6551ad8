/**
 * The Submitter, post_with_retry: at most `retries` POST attempts, the first
 * success returned, a capped linear pause after every failed attempt, and an
 * exhaustion error carrying the last failure when no attempt succeeds.
 *
 * Attempt i (0-based) of a call is an oracle outcome `attempt(i)`, standing
 * for the POST, `raise_for_status` and the JSON decoding together. Delays are
 * in tenths of a second.
 */
module Retry {
  import opened Wrappers
  import opened Ranges

  /** One attempt: the decoded response, or the description of the exception. */
  datatype Outcome<R> = Ok(response: R) | Fail(error: string)

  /** The RuntimeError raised after the last attempt; `last` is None when no attempt ran. */
  datatype RetryError = Exhausted(last: Option<string>)

  /** The default of the `retries` keyword. */
  const DefaultRetries: nat := 30

  /** The 2.0 second cap on a pause, in tenths. */
  const DelayCap: nat := 20

  /** The pause after failed attempt i, min(2.0, 0.1 * (i + 1)) seconds, in tenths. */
  function Delay(i: nat): (d: nat)
    ensures 1 <= d <= DelayCap && d <= i + 1
    ensures d == i + 1 || d == DelayCap
  {
    if i + 1 < DelayCap then i + 1 else DelayCap
  }

  /** Pauses never shrink from one failed attempt to the next. */
  lemma DelayMonotone(i: nat, j: nat)
    requires i <= j
    ensures Delay(i) <= Delay(j)
  {
  }

  /** The pauses after the first n failed attempts, in order. */
  function DelaySchedule(n: nat): (ds: seq<nat>)
    ensures |ds| == n
    ensures forall k :: 0 <= k < n ==> ds[k] == Delay(k)
  {
    seq(n, k requires 0 <= k => Delay(k))
  }

  /** Total pause after n failed attempts. */
  function TotalDelay(n: nat): nat
  {
    if n == 0 then 0 else TotalDelay(n - 1) + Delay(n - 1)
  }

  /** 1 + 2 + ... + n tenths while below the cap, then 2.0 s per attempt. */
  lemma {:induction false} TotalDelayClosedForm(n: nat)
    ensures n <= DelayCap ==> TotalDelay(n) == n * (n + 1) / 2
    ensures n > DelayCap ==> TotalDelay(n) == 210 + DelayCap * (n - DelayCap)
  {
    if n > 0 {
      TotalDelayClosedForm(n - 1);
    }
  }

  /** The sum of a list of pauses. */
  function SumOf(ds: seq<nat>): nat
    decreases |ds|
  {
    if ds == [] then 0 else SumOf(ds[..|ds| - 1]) + ds[|ds| - 1]
  }

  /** The pauses of the schedule add up to the total pause. */
  lemma {:induction false} ScheduleSumsToTotal(n: nat)
    ensures SumOf(DelaySchedule(n)) == TotalDelay(n)
  {
    if n > 0 {
      ScheduleSumsToTotal(n - 1);
      assert DelaySchedule(n)[..n - 1] == DelaySchedule(n - 1);
    }
  }

  /** With the default 30 retries a call that never succeeds pauses 41 s in all. */
  lemma DefaultExhaustionPause()
    ensures TotalDelay(DefaultRetries) == 410
    ensures SumOf(DelaySchedule(DefaultRetries)) == 410
  {
    TotalDelayClosedForm(DefaultRetries);
    ScheduleSumsToTotal(DefaultRetries);
  }

  /** The index of the first successful attempt among the first `limit`, if any. */
  function FirstOk<R>(attempt: nat -> Outcome<R>, limit: nat): (k: Option<nat>)
    ensures k.Some? ==> k.value < limit && attempt(k.value).Ok?
    ensures k.Some? ==> forall j :: 0 <= j < k.value ==> attempt(j).Fail?
    ensures k.None? ==> forall j :: 0 <= j < limit ==> attempt(j).Fail?
    decreases limit
  {
    if limit == 0 then None
    else match FirstOk(attempt, limit - 1)
      case Some(k) => Some(k)
      case None => if attempt(limit - 1).Ok? then Some(limit - 1) else None
  }

  /** What a call of post_with_retry returns or raises. */
  function RetryResult<R>(attempt: nat -> Outcome<R>, retries: int): Result<R, RetryError> {
    var n := RangeLength(retries);
    match FirstOk(attempt, n)
    case Some(k) => Success(attempt(k).response)
    case None => Failure(Exhausted(if n == 0 then None else Some(attempt(n - 1).error)))
  }

  /** Attempts 1..N-1 fail and attempt N (N <= retries) succeeds: its response is returned. */
  lemma RetrySucceedsAt<R>(attempt: nat -> Outcome<R>, retries: int, n: nat)
    requires 1 <= n <= RangeLength(retries)
    requires forall j :: 0 <= j < n - 1 ==> attempt(j).Fail?
    requires attempt(n - 1).Ok?
    ensures RetryResult(attempt, retries) == Success(attempt(n - 1).response)
  {
  }

  /** Every attempt fails: the call raises, carrying the last failure. */
  lemma RetryExhausts<R>(attempt: nat -> Outcome<R>, retries: int)
    requires forall j :: 0 <= j < RangeLength(retries) ==> attempt(j).Fail?
    ensures RetryResult(attempt, retries).Failure?
    ensures retries >= 1 ==> RetryResult(attempt, retries) == Failure(Exhausted(Some(attempt(retries - 1).error)))
  {
  }

  /**
   * post_with_retry, with the number of POSTs made and the pauses taken. A
   * pause follows every failed attempt, the last one included.
   */
  method PostWithRetry<R>(attempt: nat -> Outcome<R>, retries: int)
    returns (result: Result<R, RetryError>, attempts: nat, delays: seq<nat>)
    ensures result == RetryResult(attempt, retries)
    ensures attempts <= RangeLength(retries)
    ensures result.Success? ==> 1 <= attempts && attempt(attempts - 1) == Ok(result.value)
    ensures forall j :: 0 <= j < attempts - 1 ==> attempt(j).Fail?
    ensures result.Failure? ==> attempts == RangeLength(retries) && forall j :: 0 <= j < attempts ==> attempt(j).Fail?
    ensures delays == DelaySchedule(if result.Success? then attempts - 1 else attempts)
    ensures SumOf(delays) == TotalDelay(|delays|)
    ensures result.Failure? ==> SumOf(delays) == TotalDelay(RangeLength(retries))
  {
    var last: Option<string> := None;
    attempts, delays := 0, [];
    for i := 0 to RangeLength(retries)
      invariant attempts == i && delays == DelaySchedule(i)
      invariant forall j :: 0 <= j < i ==> attempt(j).Fail?
      invariant last == if i == 0 then None else Some(attempt(i - 1).error)
      invariant FirstOk(attempt, i).None?
    {
      attempts := attempts + 1;
      match attempt(i)
      case Ok(r) =>
        result := Success(r);
        ScheduleSumsToTotal(i);
        return;
      case Fail(e) =>
        last := Some(e);
        delays := delays + [Delay(i)];
    }
    result := Failure(Exhausted(last));
    ScheduleSumsToTotal(attempts);
  }
}
