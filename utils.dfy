/** The resilient request helper `make_safe_request`: one logical HTTP request
    retried a bounded number of times.

    The request function is an oracle: `answers(i)` is what the i-th call of
    it produces (a transport exception or a response). Sleeping is an effect
    recorded in a trace next to the calls, so that the order "call, then sleep,
    then the next call" can be stated. */
module Utils {
  import opened JsonValues

  datatype Option<T> = None | Some(value: T)

  /** What decoding a response body as JSON gives: a value, or a decoding
      error (the library raises an `InvalidJSONError` for it). */
  datatype Body = Malformed | Decoded(value: Json)

  /** The outcome of one call of the request function. `Raised` is a
      `RequestException` (connection error, timeout, ...). */
  datatype Attempt = Raised | Responded(status: int, body: Body)

  /** The observable effects of the helper, in the order they happen. */
  datatype Effect = Call | Sleep(seconds: int)

  /** How one attempt ends the current iteration of the retry loop. */
  datatype Verdict = Retry | Return(value: Option<Dict>)

  /** The final state of a run: the value handed back, the loop's error
      counter when it stopped, and the effects performed. */
  datatype Run = Run(result: Option<Dict>, errors: nat, effects: seq<Effect>)

  /** Seconds slept after every failed attempt. */
  const RetryDelay: int := 3

  const StatusOk: int := 200
  const StatusNotFound: int := 404

  /** The number of attempts a retry budget allows: a budget of zero or less
      allows none. */
  function Max0(n: int): nat
  {
    if n < 0 then 0 else n
  }

  /** Calls of the request function in a trace. */
  function CountCalls(effects: seq<Effect>): nat
  {
    multiset(effects)[Call]
  }

  /** Retry sleeps in a trace. */
  function CountSleeps(effects: seq<Effect>): nat
  {
    multiset(effects)[Sleep(RetryDelay)]
  }

  // ---------------------------------------------------------------------------
  // Specification
  // ---------------------------------------------------------------------------

  /** The classification of one attempt: a transport exception, a status other
      than 200 and 404, or (when JSON is expected) a 200 whose body is not a
      non-empty object, is retried; a 404 returns nothing; a 200 returns
      nothing when no JSON is expected, and otherwise the decoded object. */
  function Classify(a: Attempt, json: bool): (v: Verdict)
    ensures v.Return? && v.value.Some? ==>
      json && v.value.value != map[] &&
      a == Responded(StatusOk, Decoded(Object(v.value.value)))
    ensures a.Raised? ==> v == Retry
  {
    match a
    case Raised => Retry
    case Responded(status, body) =>
      if status == StatusNotFound then Return(None)
      else if status != StatusOk then Retry
      else if !json then Return(None)
      else if body.Decoded? && IsUsableDict(body.value) then Return(Some(body.value.fields))
      else Retry
  }

  predicate Retryable(a: Attempt, json: bool)
  {
    Classify(a, json).Retry?
  }

  /** The first of the attempts 0 .. n-1 that is not retried, if there is one. */
  function FirstStop(answers: nat -> Attempt, json: bool, n: int): (k: Option<nat>)
    ensures k.Some? ==>
      k.value < n && !Retryable(answers(k.value), json) &&
      forall i: nat :: i < k.value ==> Retryable(answers(i), json)
    ensures k.None? ==> forall i: nat :: i < n ==> Retryable(answers(i), json)
    decreases n
  {
    if n <= 0 then None
    else
      match FirstStop(answers, json, n - 1)
      case Some(k) => Some(k)
      case None => if Retryable(answers(n - 1), json) then None else Some(n - 1)
  }

  /** The trace of `n` failed attempts: each call followed by one sleep. */
  function RetryTrace(n: nat): seq<Effect>
  {
    if n == 0 then [] else RetryTrace(n - 1) + [Call, Sleep(RetryDelay)]
  }

  /** What the helper does, stated without its loop: attempts are made in
      order until the first one that is not retried, within a budget of
      `retriesCount` attempts; every retried attempt costs one error and one
      sleep. */
  function Expected(answers: nat -> Attempt, json: bool, retriesCount: int): Run
  {
    match FirstStop(answers, json, retriesCount)
    case Some(k) => Run(Classify(answers(k), json).value, k, RetryTrace(k) + [Call])
    case None => Run(None, Max0(retriesCount), RetryTrace(Max0(retriesCount)))
  }

  // ---------------------------------------------------------------------------
  // The helper itself
  // ---------------------------------------------------------------------------

  /** `make_safe_request(req_func, json, retries_count)`. Besides the returned
      value, the model hands back the final error counter and the effects. */
  method MakeSafeRequest(reqFunc: nat -> Attempt, json: bool, retriesCount: int)
    returns (data: Option<Dict>, errorsCount: nat, effects: seq<Effect>)
    ensures Run(data, errorsCount, effects) == Expected(reqFunc, json, retriesCount)
  {
    data := None;
    errorsCount := 0;
    effects := [];
    var calls: nat := 0;
    while errorsCount < retriesCount
      invariant calls == errorsCount <= Max0(retriesCount)
      invariant effects == RetryTrace(errorsCount)
      invariant forall i: nat :: i < errorsCount ==> Retryable(reqFunc(i), json)
      decreases retriesCount - errorsCount
    {
      var response := reqFunc(calls);
      calls := calls + 1;
      effects := effects + [Call];
      if response.Raised? {
        errorsCount := errorsCount + 1;
        effects := effects + [Sleep(RetryDelay)];
        continue;
      }
      if response.status == StatusOk {
      } else if response.status == StatusNotFound {
        return None, errorsCount, effects;
      } else {
        errorsCount := errorsCount + 1;
        effects := effects + [Sleep(RetryDelay)];
        continue;
      }
      if !json {
        return None, errorsCount, effects;
      }
      var body := response.body;
      if body.Decoded? && Truthy(body.value) && body.value.Object? {
        data := Some(body.value.fields);
        break;
      }
      errorsCount := errorsCount + 1;
      effects := effects + [Sleep(RetryDelay)];
    }
    if retriesCount <= errorsCount {
      // the loop ran out of attempts without a usable response
      data := None;
    }
  }

  // ---------------------------------------------------------------------------
  // Properties of the helper
  // ---------------------------------------------------------------------------

  /** After `n` failed attempts the trace alternates call, sleep, call, sleep. */
  lemma {:induction false} RetryTraceAt(n: nat, j: nat)
    requires j < 2 * n
    ensures |RetryTrace(n)| == 2 * n
    ensures RetryTrace(n)[j] == if j % 2 == 0 then Call else Sleep(RetryDelay)
  {
    if j < 2 * (n - 1) {
      RetryTraceAt(n - 1, j);
    } else if n > 1 {
      RetryTraceAt(n - 1, 0);
    }
  }

  /** `n` failed attempts make `n` calls and `n` sleeps. */
  lemma {:induction false} RetryTraceCounts(n: nat)
    ensures |RetryTrace(n)| == 2 * n
    ensures CountCalls(RetryTrace(n)) == n && CountSleeps(RetryTrace(n)) == n
  {
    if n > 0 {
      RetryTraceCounts(n - 1);
      assert multiset(RetryTrace(n)) == multiset(RetryTrace(n - 1)) + multiset{Call, Sleep(RetryDelay)};
    }
  }

  /** The request function is called at most `max(retries_count, 0)` times;
      the helper sleeps once per error, never more often than that; every
      call but the last is an error; every sleep lasts three seconds. */
  lemma BudgetBounds(answers: nat -> Attempt, json: bool, retriesCount: int)
    ensures var r := Expected(answers, json, retriesCount);
      && CountCalls(r.effects) <= Max0(retriesCount)
      && CountSleeps(r.effects) == r.errors <= Max0(retriesCount)
      && r.errors <= CountCalls(r.effects) <= r.errors + 1
      && forall e :: e in r.effects && e.Sleep? ==> e.seconds == RetryDelay
  {
    var r := Expected(answers, json, retriesCount);
    match FirstStop(answers, json, retriesCount)
    case Some(k) =>
      RetryTraceCounts(k);
      SleepsLastThreeSeconds(k);
      assert multiset(r.effects) == multiset(RetryTrace(k)) + multiset{Call};
    case None =>
      RetryTraceCounts(Max0(retriesCount));
      SleepsLastThreeSeconds(Max0(retriesCount));
  }

  lemma {:induction false} SleepsLastThreeSeconds(n: nat)
    ensures forall e :: e in RetryTrace(n) && e.Sleep? ==> e.seconds == RetryDelay
  {
    if n > 0 {
      SleepsLastThreeSeconds(n - 1);
    }
  }

  /** Attempt `i` is the `i`-th call of the trace. If it failed (exception,
      unexpected status, unusable body) it is followed by exactly one sleep
      of three seconds, and then by the next call if there is one. If it did
      not fail, it is the last thing the helper does, it left the error
      counter at `i`, and its classification is the helper's result. */
  lemma AttemptInTrace(answers: nat -> Attempt, json: bool, retriesCount: int, i: nat)
    requires i < CountCalls(Expected(answers, json, retriesCount).effects)
    ensures var r := Expected(answers, json, retriesCount);
      && 2 * i < |r.effects| && r.effects[2 * i] == Call
      && (Retryable(answers(i), json) ==>
            2 * i + 1 < |r.effects| && r.effects[2 * i + 1] == Sleep(RetryDelay) &&
            (2 * i + 2 < |r.effects| ==> r.effects[2 * i + 2] == Call))
      && (!Retryable(answers(i), json) ==>
            |r.effects| == 2 * i + 1 && r.errors == i &&
            r.result == Classify(answers(i), json).value)
  {
    var r := Expected(answers, json, retriesCount);
    match FirstStop(answers, json, retriesCount)
    case Some(k) =>
      StoppedRunAttempt(k, i);
    case None =>
      ExhaustedRunAttempt(Max0(retriesCount), i);
  }

  /** Attempt `i` in a trace that ends with the call of attempt `k`. */
  lemma StoppedRunAttempt(k: nat, i: nat)
    requires i < CountCalls(RetryTrace(k) + [Call])
    ensures i <= k && |RetryTrace(k) + [Call]| == 2 * k + 1
    ensures (RetryTrace(k) + [Call])[2 * i] == Call
    ensures i < k ==> (RetryTrace(k) + [Call])[2 * i + 1] == Sleep(RetryDelay)
    ensures i < k ==> (RetryTrace(k) + [Call])[2 * i + 2] == Call
  {
    RetryTraceCounts(k);
    assert multiset(RetryTrace(k) + [Call]) == multiset(RetryTrace(k)) + multiset{Call};
    StoppedTraceAt(k, 2 * i);
    if i < k {
      StoppedTraceAt(k, 2 * i + 1);
      StoppedTraceAt(k, 2 * i + 2);
    }
  }

  /** Attempt `i` in a trace of `n` failed attempts. */
  lemma ExhaustedRunAttempt(n: nat, i: nat)
    requires i < CountCalls(RetryTrace(n))
    ensures i < n && |RetryTrace(n)| == 2 * n
    ensures RetryTrace(n)[2 * i] == Call && RetryTrace(n)[2 * i + 1] == Sleep(RetryDelay)
    ensures 2 * i + 2 < 2 * n ==> RetryTrace(n)[2 * i + 2] == Call
  {
    RetryTraceCounts(n);
    RetryTraceAt(n, 2 * i);
    RetryTraceAt(n, 2 * i + 1);
    if 2 * i + 2 < 2 * n { RetryTraceAt(n, 2 * i + 2); }
  }

  /** The trace of a run that stops at attempt `k`: `k` call-sleep pairs and
      a last call. */
  lemma StoppedTraceAt(k: nat, j: nat)
    requires j <= 2 * k
    ensures |RetryTrace(k) + [Call]| == 2 * k + 1
    ensures (RetryTrace(k) + [Call])[j] == if j % 2 == 0 then Call else Sleep(RetryDelay)
  {
    RetryTraceCounts(k);
    if j < 2 * k {
      RetryTraceAt(k, j);
    }
  }

  /** With a budget of zero or less no request is made and nothing is returned. */
  lemma NoBudgetNoRequest(answers: nat -> Attempt, json: bool, retriesCount: int)
    requires retriesCount <= 0
    ensures Expected(answers, json, retriesCount) == Run(None, 0, [])
  {
  }

  /** If every attempt within the budget fails, the helper uses up the whole
      budget: `max(retries_count, 0)` calls, as many errors and sleeps, and
      returns nothing. */
  lemma FailuresExhaustBudget(answers: nat -> Attempt, json: bool, retriesCount: int)
    requires forall i: nat :: i < retriesCount ==> Retryable(answers(i), json)
    ensures var r := Expected(answers, json, retriesCount);
      && r.result == None
      && CountCalls(r.effects) == Max0(retriesCount) == r.errors
      && CountSleeps(r.effects) == Max0(retriesCount)
  {
    RetryTraceCounts(Max0(retriesCount));
  }

  /** A server that answers every call with a status other than 200 and 404
      (a persistent 500, say) costs exactly `retries_count` calls and gives
      nothing back. */
  lemma PersistentServerError(answers: nat -> Attempt, json: bool, retriesCount: int, status: int)
    requires status != StatusOk && status != StatusNotFound
    requires forall i: nat :: answers(i).Responded? && answers(i).status == status
    ensures var r := Expected(answers, json, retriesCount);
      r.result == None && CountCalls(r.effects) == Max0(retriesCount)
  {
    FailuresExhaustBudget(answers, json, retriesCount);
  }

  /** A 404 after `k` failed attempts ends the helper at once: that call is
      the last effect, the error counter stays at `k` and nothing is returned. */
  lemma NotFoundStops(answers: nat -> Attempt, json: bool, retriesCount: int, k: nat)
    requires k < retriesCount
    requires forall i: nat :: i < k ==> Retryable(answers(i), json)
    requires answers(k).Responded? && answers(k).status == StatusNotFound
    ensures Expected(answers, json, retriesCount) == Run(None, k, RetryTrace(k) + [Call])
  {
  }

  /** Without JSON expected, the first 200 after `k` failed attempts ends the
      helper with nothing returned, whatever the body holds. */
  lemma BareSuccessStops(answers: nat -> Attempt, retriesCount: int, k: nat)
    requires k < retriesCount
    requires forall i: nat :: i < k ==> Retryable(answers(i), false)
    requires answers(k).Responded? && answers(k).status == StatusOk
    ensures Expected(answers, false, retriesCount) == Run(None, k, RetryTrace(k) + [Call])
  {
  }

  /** With JSON expected, a 200 whose body decodes to a non-empty object after
      `k` failed attempts is returned as it is, with the error counter at `k`. */
  lemma DictStops(answers: nat -> Attempt, retriesCount: int, k: nat, d: Dict)
    requires k < retriesCount && d != map[]
    requires forall i: nat :: i < k ==> Retryable(answers(i), true)
    requires answers(k) == Responded(StatusOk, Decoded(Object(d)))
    ensures Expected(answers, true, retriesCount) == Run(Some(d), k, RetryTrace(k) + [Call])
  {
  }

  /** The helper returns a dict exactly when JSON is expected and, within the
      budget, some attempt answers 200 with a non-empty object after only
      failed attempts; that object is what it returns. Every other run ends
      with nothing. */
  lemma ReturnsDictIff(answers: nat -> Attempt, json: bool, retriesCount: int, d: Dict)
    ensures Expected(answers, json, retriesCount).result == Some(d) <==>
      json && d != map[] &&
      exists k: nat :: k < retriesCount &&
        answers(k) == Responded(StatusOk, Decoded(Object(d))) &&
        forall i: nat :: i < k ==> Retryable(answers(i), json)
  {
  }
}
