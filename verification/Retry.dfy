/** The generic retry loop and its back-off. */
module Retry {
  import opened Common

  // ----- outcomes of one call -----

  /** A value returned by the operation; `failedFetch` marks a fetch result whose `ok` is false. */
  datatype Response = Response(failedFetch: bool, status: int, text: string)

  /** Errors the operation rejects with (a timeout among them) and the two errors the loop itself builds. */
  datatype Error = Operation(id: int) | HttpStatus(status: int) | RequestFailed(status: int, text: string)

  datatype CallOutcome = Resolved(response: Response) | Rejected(error: Error)

  datatype Options = Options(
    maxAttempts: int, checkFetchResponse: bool, shouldRetry: Error -> bool)

  const NOT_FOUND := 404

  /** A resolved call that the loop turns into a failure. */
  predicate Converts(o: Options, attempt: int, outcome: CallOutcome) {
    outcome.Resolved? && o.checkFetchResponse && outcome.response.failedFetch && attempt < o.maxAttempts
    && outcome.response.status != NOT_FOUND && o.shouldRetry(HttpStatus(outcome.response.status))
  }

  /** The error caught for this call, if any. */
  function Caught(o: Options, attempt: int, outcome: CallOutcome): Option<Error> {
    match outcome
    case Resolved(r) => if Converts(o, attempt, outcome) then Some(RequestFailed(r.status, r.text)) else None
    case Rejected(e) => Some(e)
  }

  predicate GoesOn(o: Options, attempt: int, outcome: CallOutcome) {
    var caught := Caught(o, attempt, outcome);
    caught.Some? && attempt != o.maxAttempts && o.shouldRetry(caught.value)
  }

  /** What the caller gets; ThrewUndefined when no call was made. */
  datatype Result = Returned(response: Response) | Threw(error: Error) | ThrewUndefined

  function Settle(o: Options, attempt: int, outcome: CallOutcome): Result {
    var caught := Caught(o, attempt, outcome);
    if caught.Some? then Threw(caught.value) else Returned(outcome.response)
  }

  /** A complete account of a retried operation: the calls made and what the caller got. */
  ghost predicate Account(o: Options, script: int -> CallOutcome, result: Result, calls: nat) {
    && (o.maxAttempts < 1 ==> calls == 0 && result == ThrewUndefined)
    && (o.maxAttempts >= 1 ==>
          1 <= calls <= o.maxAttempts && !GoesOn(o, calls, script(calls)) && result == Settle(o, calls, script(calls)))
    && forall i: int :: 1 <= i < calls ==> GoesOn(o, i, script(i))
  }

  /** The loop against a script of call outcomes; `calls` is how often the operation was called. */
  method RetryOperation(o: Options, script: int -> CallOutcome) returns (result: Result, calls: nat)
    ensures Account(o, script, result, calls)
  {
    var lastError: Option<Error> := None;
    calls := 0;
    var attempt := 1;
    while attempt <= o.maxAttempts
      invariant 1 <= attempt && calls == attempt - 1
      invariant o.maxAttempts < 1 ==> attempt == 1
      invariant o.maxAttempts >= 1 ==> attempt <= o.maxAttempts
      invariant forall i: int :: 1 <= i < attempt ==> GoesOn(o, i, script(i))
      invariant calls == 0 ==> lastError == None
      decreases o.maxAttempts - attempt
    {
      var outcome := script(attempt);
      calls := calls + 1;
      match outcome {
        case Resolved(r) =>
          if o.checkFetchResponse && r.failedFetch && attempt < o.maxAttempts && r.status != NOT_FOUND
             && o.shouldRetry(HttpStatus(r.status)) {
            lastError := Some(RequestFailed(r.status, r.text));
          } else {
            return Returned(r), calls;
          }
        case Rejected(e) =>
          lastError := Some(e);
      }
      if attempt == o.maxAttempts || !o.shouldRetry(lastError.value) {
        break;
      }
      attempt := attempt + 1;
    }
    result := if lastError.Some? then Threw(lastError.value) else ThrewUndefined;
  }

  // ----- what an account means -----

  /** The account determines the run: two accounts of the same script are the same. */
  lemma AccountIsUnique(o: Options, script: int -> CallOutcome, r1: Result, c1: nat, r2: Result, c2: nat)
    requires Account(o, script, r1, c1) && Account(o, script, r2, c2)
    ensures r1 == r2 && c1 == c2
  {
  }

  /** The last call's own outcome, as the operation gave it. */
  function AsGiven(outcome: CallOutcome): Result {
    match outcome
    case Resolved(r) => Returned(r)
    case Rejected(e) => Threw(e)
  }

  /** The caller gets the last call's outcome unchanged, except exactly when that call resolved with a failed fetch that
      `shouldRetry` accepts as an HTTP error but refuses once it has been turned into a request error. */
  lemma CallerGetsLastOutcome(o: Options, script: int -> CallOutcome, result: Result, calls: nat)
    requires Account(o, script, result, calls) && o.maxAttempts >= 1
    ensures var last := script(calls);
            result == AsGiven(last) <==>
            !(Converts(o, calls, last) && !o.shouldRetry(RequestFailed(last.response.status, last.response.text)))
  {
  }

  /** A failure worth another attempt: a rejection that `shouldRetry` accepts, or, where fetch results are checked,
      a failed fetch other than 404 that it accepts both as an HTTP error and as the request error built from it. */
  ghost predicate Retryable(o: Options, outcome: CallOutcome) {
    match outcome
    case Rejected(e) => o.shouldRetry(e)
    case Resolved(r) =>
      && o.checkFetchResponse && r.failedFetch && r.status != 404
      && o.shouldRetry(HttpStatus(r.status)) && o.shouldRetry(RequestFailed(r.status, r.text))
  }

  /** Every call but the last was a retryable failure; the last one is not, unless the attempts are used up. */
  lemma RetriesFollowFailures(o: Options, script: int -> CallOutcome, result: Result, calls: nat)
    requires Account(o, script, result, calls) && o.maxAttempts >= 1
    ensures 1 <= calls <= o.maxAttempts
    ensures forall i: int :: 1 <= i < calls ==> Retryable(o, script(i))
    ensures calls == o.maxAttempts || !Retryable(o, script(calls))
  {
    forall i: int | 1 <= i < calls ensures Retryable(o, script(i)) {
      assert GoesOn(o, i, script(i));
    }
  }

  /** Whatever `shouldRetry` accepts as an HTTP error it also accepts as the request error built from it. */
  ghost predicate AcceptsConverted(o: Options) {
    forall status: int, text: string ::
      status != 404 && o.shouldRetry(HttpStatus(status)) ==> o.shouldRetry(RequestFailed(status, text))
  }

  /** Under every script of outcomes the caller gets the last call's own outcome. */
  ghost predicate PassesOutcomesOn(o: Options) {
    forall script: int -> CallOutcome, result: Result, calls: nat ::
      Account(o, script, result, calls) ==> result == AsGiven(script(calls))
  }

  function FailedFetch(status: int, text: string): CallOutcome {
    Resolved(Response(true, status, text))
  }

  /** A first failed fetch that is converted and then refused ends the operation with the converted error. */
  lemma RefusedConversion(o: Options, status: int, text: string, script: int -> CallOutcome)
    requires o.maxAttempts > 1 && o.checkFetchResponse && status != NOT_FOUND && script(1) == FailedFetch(status, text)
    requires o.shouldRetry(HttpStatus(status)) && !o.shouldRetry(RequestFailed(status, text))
    ensures Account(o, script, Threw(RequestFailed(status, text)), 1)
    ensures Threw(RequestFailed(status, text)) != AsGiven(script(1))
  {
  }

  /** When the caller can rely on getting the last call's outcome, read off the options alone. */
  lemma OutcomesPassExactlyWhen(o: Options)
    requires o.maxAttempts >= 1
    ensures PassesOutcomesOn(o) <==> !o.checkFetchResponse || o.maxAttempts == 1 || AcceptsConverted(o)
  {
    if PassesOutcomesOn(o) && o.checkFetchResponse && o.maxAttempts > 1 {
      forall status: int, text: string | status != NOT_FOUND && o.shouldRetry(HttpStatus(status))
        ensures o.shouldRetry(RequestFailed(status, text))
      {
        var script := (i: int) => FailedFetch(status, text);
        if !o.shouldRetry(RequestFailed(status, text)) {
          RefusedConversion(o, status, text, script);
          assert false;
        }
      }
    }
    if !o.checkFetchResponse || o.maxAttempts == 1 || AcceptsConverted(o) {
      forall script: int -> CallOutcome, result: Result, calls: nat | Account(o, script, result, calls)
        ensures result == AsGiven(script(calls))
      {
        CallerGetsLastOutcome(o, script, result, calls);
      }
    }
  }

  /** Three attempts that retry on HTTP errors only: a server error is answered with an error of the loop's own. */
  lemma ResponseMayBeReplaced()
    ensures var o := Options(3, true, (e: Error) => e.HttpStatus?);
            var script := (i: int) => FailedFetch(500, "Server Error");
            && Account(o, script, Threw(RequestFailed(500, "Server Error")), 1)
            && AsGiven(script(1)) == Returned(Response(true, 500, "Server Error"))
  {
    var o := Options(3, true, (e: Error) => e.HttpStatus?);
    var script := (i: int) => FailedFetch(500, "Server Error");
    RefusedConversion(o, 500, "Server Error", script);
  }

  /** All attempts are used exactly when every earlier call failed retryably; then the last outcome is never
      converted. */
  lemma ExhaustedRetriesKeepOutcome(o: Options, script: int -> CallOutcome, result: Result, calls: nat)
    requires Account(o, script, result, calls) && o.maxAttempts >= 1
    ensures calls == o.maxAttempts <==> forall i: int :: 1 <= i < o.maxAttempts ==> GoesOn(o, i, script(i))
    ensures calls == o.maxAttempts ==> result == AsGiven(script(calls))
  {
  }

  // ----- back-off -----

  function Power2(n: nat): (r: nat)
    ensures r >= 1
  {
    if n == 0 then 1 else 2 * Power2(n - 1)
  }

  function Min(a: real, b: real): real {
    if a <= b then a else b
  }

  function Doubled(initialDelay: real, attempt: int): real
    requires attempt >= 1
  {
    initialDelay * (Power2(attempt - 1) as real)
  }

  function Jittered(delay: real, jitter: real): real {
    delay * jitter
  }

  /** `jitter` is 1 plus half a random number below 1. */
  function GetDelay(exponential: bool, initialDelay: real, attempt: int, maxDelay: real, jitter: real): real
    requires attempt >= 1
  {
    if exponential then Min(Jittered(Doubled(initialDelay, attempt), jitter), maxDelay) else initialDelay
  }

  predicate IsJitter(jitter: real) {
    1.0 <= jitter < 1.5
  }

  lemma ScaledOrder(x: real, a: real, b: real)
    requires x >= 0.0 && a <= b
    ensures x * a <= x * b
  {
  }

  lemma JitterIsBounded(delay: real, jitter: real)
    requires delay >= 0.0 && IsJitter(jitter)
    ensures delay <= Jittered(delay, jitter) <= 1.5 * delay
  {
    ScaledOrder(delay, 1.0, jitter);
    ScaledOrder(delay, jitter, 1.5);
  }

  lemma {:induction false} PowersGrow(m: nat, n: nat)
    requires m < n
    ensures 2 * Power2(m) <= Power2(n)
  {
    if m + 1 < n {
      PowersGrow(m, n - 1);
    }
  }

  lemma DoubledGrows(initialDelay: real, i: int, j: int)
    requires 1 <= i < j && initialDelay >= 0.0
    ensures 0.0 <= 2.0 * Doubled(initialDelay, i) <= Doubled(initialDelay, j)
  {
    PowersGrow(i - 1, j - 1);
    ScaledOrder(initialDelay, 2.0 * (Power2(i - 1) as real), Power2(j - 1) as real);
    assert initialDelay * (2.0 * (Power2(i - 1) as real)) == 2.0 * Doubled(initialDelay, i);
  }

  /** Exponential delays never exceed the maximum and never decrease, whatever jitter is drawn. */
  lemma DelaysAreMonotone(initialDelay: real, maxDelay: real, i: int, j: int, ji: real, jj: real)
    requires 1 <= i < j && initialDelay >= 0.0 && IsJitter(ji) && IsJitter(jj)
    ensures GetDelay(true, initialDelay, i, maxDelay, ji) <= GetDelay(true, initialDelay, j, maxDelay, jj) <= maxDelay
  {
    hide Doubled, Jittered;
    var x, y := Doubled(initialDelay, i), Doubled(initialDelay, j);
    DoubledGrows(initialDelay, i, j);
    JitterIsBounded(x, ji);
    JitterIsBounded(y, jj);
  }

  /** A delay lies between the plain doubling and one and a half times it, both capped; without back-off it is
      constant. */
  lemma DelayIsNearDoubling(initialDelay: real, maxDelay: real, i: int, jitter: real)
    requires i >= 1 && initialDelay >= 0.0 && IsJitter(jitter)
    ensures var plain := Doubled(initialDelay, i);
            Min(plain, maxDelay) <= GetDelay(true, initialDelay, i, maxDelay, jitter) <= Min(1.5 * plain, maxDelay)
    ensures GetDelay(false, initialDelay, i, maxDelay, jitter) == initialDelay
  {
    hide Doubled, Jittered;
    var plain := Doubled(initialDelay, i);
    DoubledGrows(initialDelay, i, i + 1);
    JitterIsBounded(plain, jitter);
  }

  function Capped(delay: real, maxDelay: real): real {
    if delay <= maxDelay then delay else maxDelay
  }

  /** The first delay is the initial one with its jitter, and under the same jitter each delay is twice the one
      before, both up to the maximum. */
  lemma DelaysDouble(initialDelay: real, maxDelay: real, i: int, jitter: real)
    requires i >= 1 && initialDelay >= 0.0 && maxDelay >= 0.0 && IsJitter(jitter)
    ensures GetDelay(true, initialDelay, 1, maxDelay, jitter) == Capped(initialDelay * jitter, maxDelay)
    ensures GetDelay(true, initialDelay, i + 1, maxDelay, jitter)
            == Capped(2.0 * GetDelay(true, initialDelay, i, maxDelay, jitter), maxDelay)
  {
    var plain := Doubled(initialDelay, i);
    assert Doubled(initialDelay, i + 1) == 2.0 * plain by {
      assert Power2(i) == 2 * Power2(i - 1);
      TwiceProduct(initialDelay, Power2(i - 1) as real);
    }
    TwiceProduct(jitter, plain);
    JitterIsBounded(plain, jitter);
    DoubledGrows(initialDelay, i, i + 1);
    assert Doubled(initialDelay, 1) == initialDelay;
  }

  lemma TwiceProduct(x: real, y: real)
    ensures x * (2.0 * y) == 2.0 * (x * y)
  {
  }
}
