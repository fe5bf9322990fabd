/** The fire-and-retry policy of `postTrigger` (provider/lib/ProviderManager.js): how one
    HTTP reply is classified, how long the provider waits before the next attempt, and the
    whole sequence of attempts for one bucket event.

    The network is not modelled: the replies the platform gives to successive attempts are
    an input, and the requests the provider would send are part of the output. */
module FirePolicy {

  import opened Wrappers
  import opened Strings
  import opened Json

  /** `RETRY_ATTEMPTS` of provider/lib/constants.js. */
  const RETRY_ATTEMPTS: nat := 10

  /** The three client-error statuses that are treated as transient (RFC 9110, sections
      15.5.9 and 15.5.10, and RFC 6585, section 4). */
  const REQUEST_TIMEOUT: int := 408
  const CONFLICT: int := 409
  const TOO_MANY_REQUESTS: int := 429

  /** `shouldDisableTrigger(statusCode)`: a client error (4xx) other than the three soft ones. */
  function ShouldDisableTrigger(statusCode: int): (r: bool)
    ensures r ==> 400 <= statusCode < 500
    ensures r <==> 400 <= statusCode < 500 && statusCode != REQUEST_TIMEOUT
                   && statusCode != TOO_MANY_REQUESTS && statusCode != CONFLICT
  {
    (400 <= statusCode < 500) && statusCode !in [REQUEST_TIMEOUT, TOO_MANY_REQUESTS, CONFLICT]
  }

  /** The quadratic back-off `1000 * (retryCount + 1)^2` milliseconds. */
  function Backoff(retryCount: int): (d: nat)
    ensures retryCount >= 0 ==> d >= 1000 * (retryCount + 1)
  {
    1000 * ((retryCount + 1) * (retryCount + 1))
  }

  /** The delay before the next attempt: a full minute after a first 429, otherwise the
      quadratic back-off. */
  function RetryDelay(statusCode: Option<int>, retryCount: int): (d: nat)
    ensures retryCount >= 0 ==> d >= 1000 * (retryCount + 1)
    ensures statusCode != Some(TOO_MANY_REQUESTS) || retryCount != 0 ==> d == Backoff(retryCount)
  {
    if statusCode == Some(TOO_MANY_REQUESTS) && retryCount == 0 then 60000 else Backoff(retryCount)
  }

  /** No integer squares to 60, so the quadratic back-off never produces a minute. */
  lemma SquareIsNotSixty(k: int)
    ensures k * k != 60
  {
    var m := if k < 0 then -k else k;
    assert k * k == m * m;
    if m <= 7 {
      assert m * m <= 7 * m <= 49;
    } else {
      assert m * m >= 8 * m >= 64;
    }
  }

  /** The retry delay is one minute exactly on the first retry after a 429. */
  lemma RetryDelayIsMinuteOnlyAfterFirst429(statusCode: Option<int>, retryCount: int)
    ensures RetryDelay(statusCode, retryCount) == 60000
            <==> statusCode == Some(TOO_MANY_REQUESTS) && retryCount == 0
  {
    SquareIsNotSixty(retryCount + 1);
  }

  /** The back-off strictly grows with the retry count. */
  lemma BackoffIncreasing(a: nat, b: nat)
    requires a < b
    ensures Backoff(a) < Backoff(b)
  {
    var x, y := a + 1, b + 1;
    assert x * x < y * y by {
      assert x * x <= x * y;
      assert x * y < y * y;
    }
  }

  /** The `error.error` part of a failed call: absent, or present with or without an
      `errorMessage`. */
  datatype ErrorBody = NoErrorBody | ErrorBody(errorMessage: Option<string>)

  /** What the HTTP client hands to the callback for one attempt: either no error and a
      response, or an error that may carry a status code. */
  datatype HttpReply =
    | Response(code: int)
    | Failure(errorCode: Option<int>, body: ErrorBody)

  /** `!error ? response.statusCode : error.statusCode` */
  function StatusOf(reply: HttpReply): Option<int>
  {
    match reply
    case Response(c) => Some(c)
    case Failure(c, _) => c
  }

  /** `error || statusCode >= 400` */
  predicate Failed(reply: HttpReply)
  {
    reply.Failure? || reply.code >= 400
  }

  /** A failed attempt whose status makes the trigger disabled. */
  predicate DisableEligible(reply: HttpReply)
  {
    Failed(reply) && StatusOf(reply).Some? && ShouldDisableTrigger(StatusOf(reply).value)
  }

  /** A failed attempt that may be retried while the budget lasts. */
  predicate Retryable(reply: HttpReply)
  {
    Failed(reply) && !DisableEligible(reply)
  }

  /** The message carried into the disable call: `error.error.errorMessage`, where reaching
      through a missing `error` or `error.error` throws and falls back to a generic text, and
      a missing `errorMessage` prints as `undefined`. */
  function FailureMessage(reply: HttpReply, statusCode: int): (s: string)
    ensures reply.Failure? && reply.body.ErrorBody? && reply.body.errorMessage.Some? ==> s == reply.body.errorMessage.value
    ensures reply.Failure? && reply.body == ErrorBody(None) ==> s == "undefined"
    ensures reply.Response? || reply.body.NoErrorBody? ==>
              s == "Received a " + IntToString(statusCode) + " status code when firing the trigger"
  {
    match reply
    case Failure(_, ErrorBody(Some(m))) => m
    case Failure(_, ErrorBody(None)) => "undefined"
    case _ => "Received a " + IntToString(statusCode) + " status code when firing the trigger"
  }

  /** The decision taken on one reply. */
  datatype Step = Fire | Disable(statusCode: int, message: string) | Retry(delay: nat) | GiveUp

  /** The branch structure of the request callback in `postTrigger`. `retryCount` is `None`
      when the argument in that position is not a number (JavaScript `undefined`), for which
      `retryCount < retryAttempts` is false. */
  function PostStep(reply: HttpReply, retryCount: Option<int>): (s: Step)
    ensures s == Fire <==> !Failed(reply)
    ensures s.Disable? <==> DisableEligible(reply)
    ensures s.Disable? ==> Some(s.statusCode) == StatusOf(reply)
    ensures s.Retry? <==> Retryable(reply) && retryCount.Some? && retryCount.value < RETRY_ATTEMPTS
    ensures s.Retry? ==> s.delay == RetryDelay(StatusOf(reply), retryCount.value)
  {
    if !Failed(reply) then Fire
    else
      var statusCode := StatusOf(reply);
      if statusCode.Some? && ShouldDisableTrigger(statusCode.value) then
        Disable(statusCode.value, FailureMessage(reply, statusCode.value))
      else if retryCount.Some? && retryCount.value < RETRY_ATTEMPTS then
        Retry(RetryDelay(statusCode, retryCount.value))
      else
        GiveUp
  }

  /** One outbound POST: the `uri` and `json` options as the provider passes them. */
  datatype Request = Request(uri: Value, body: Value)

  /** How the promise returned by `postTrigger` settles. */
  datatype Settlement = Resolved(triggerId: string) | Rejected(reason: string)

  /** The arguments of the `disableTrigger` call made on a disable-eligible reply. */
  datatype DisableCall = DisableCall(id: string, statusCode: int, message: string)

  /** Everything one fire produces: the requests sent in order, the delays waited between
      them, the disable call if any, and the settlement. */
  datatype FireRun = FireRun(requests: seq<Request>, delays: seq<nat>, disable: Option<DisableCall>,
                             settlement: Settlement)

  function DisableMessage(message: string): string
  {
    "Trigger automatically disabled: " + message
  }

  function DisabledReason(id: string, message: string): string
  {
    "Disabled trigger " + id + ": " + message
  }

  function UnreachableReason(id: string): string
  {
    "Unable to reach server to fire trigger " + id
  }

  /** The run that ends after one attempt with the given (non-retry) step. */
  function FinalRun(id: string, request: Request, step: Step): FireRun
    requires !step.Retry?
  {
    match step
    case Fire => FireRun([request], [], None, Resolved(id))
    case Disable(code, message) =>
      FireRun([request], [], Some(DisableCall(id, code, DisableMessage(message))), Rejected(DisabledReason(id, message)))
    case GiveUp => FireRun([request], [], None, Rejected(UnreachableReason(id)))
  }

  /** `postTrigger(triggerData, event, uri, retryCount)` with the retry passing `event`,
      `uri` and `retryCount + 1`, as the design intends. The source's own retry call at
      provider/lib/ProviderManager.js:177 drops `event`; that version is
      `PostTriggerAsWritten` below. `replies[k]` is the reply to the k-th attempt of this
      call; enough replies are supplied for every attempt the budget allows. */
  function PostTrigger(id: string, event: Value, uri: string, replies: seq<HttpReply>, retryCount: nat): (run: FireRun)
    requires |replies| >= 1 && |replies| + retryCount > RETRY_ATTEMPTS
    ensures 1 <= |run.requests| <= |replies| && |run.delays| == |run.requests| - 1
    decreases |replies|
  {
    var request := Request(Str(uri), event);
    var step := PostStep(replies[0], Some(retryCount));
    if step.Retry? then
      var later := PostTrigger(id, event, uri, replies[1..], retryCount + 1);
      later.(requests := [request] + later.requests, delays := [step.delay] + later.delays)
    else
      FinalRun(id, request, step)
  }

  /** Every attempt re-sends the same event to the same URI, and the number of attempts stays
      within the budget. */
  lemma {:induction false} PostTriggerRequests(id: string, event: Value, uri: string, replies: seq<HttpReply>, retryCount: nat)
    requires |replies| >= 1 && |replies| + retryCount > RETRY_ATTEMPTS
    ensures var run := PostTrigger(id, event, uri, replies, retryCount);
            && 1 <= |run.requests| <= |replies|
            && |run.delays| == |run.requests| - 1
            && (retryCount <= RETRY_ATTEMPTS ==> |run.requests| <= RETRY_ATTEMPTS - retryCount + 1)
            && forall k :: 0 <= k < |run.requests| ==> run.requests[k] == Request(Str(uri), event)
    decreases |replies|
  {
    if PostStep(replies[0], Some(retryCount)).Retry? {
      PostTriggerRequests(id, event, uri, replies[1..], retryCount + 1);
    }
  }

  /** Every attempt but the last failed in a retryable way while budget remained, and is
      followed by the delay the policy gives. */
  lemma {:induction false} PostTriggerPrefix(id: string, event: Value, uri: string, replies: seq<HttpReply>, retryCount: nat)
    requires |replies| >= 1 && |replies| + retryCount > RETRY_ATTEMPTS
    ensures var run := PostTrigger(id, event, uri, replies, retryCount);
            var n := |run.requests|;
            && 1 <= n <= |replies|
            && |run.delays| == n - 1
            && (forall k :: 0 <= k < n - 1 ==> Retryable(replies[k]) && retryCount + k < RETRY_ATTEMPTS)
            && (forall k :: 0 <= k < n - 1 ==> run.delays[k] == RetryDelay(StatusOf(replies[k]), retryCount + k))
    decreases |replies|
  {
    var step := PostStep(replies[0], Some(retryCount));
    if step.Retry? {
      var rest := replies[1..];
      PostTriggerPrefix(id, event, uri, rest, retryCount + 1);
      var later := PostTrigger(id, event, uri, rest, retryCount + 1);
      var run := PostTrigger(id, event, uri, replies, retryCount);
      assert run.delays == [step.delay] + later.delays;
      forall k | 1 <= k < |run.requests| - 1
        ensures Retryable(replies[k]) && retryCount + k < RETRY_ATTEMPTS
        ensures run.delays[k] == RetryDelay(StatusOf(replies[k]), retryCount + k)
      {
        assert replies[k] == rest[k - 1];
        assert run.delays[k] == later.delays[k - 1];
      }
    }
  }

  /** The last attempt is the one whose reply is not retried, and the run ends as that one
      reply decides. */
  lemma {:induction false} PostTriggerLast(id: string, event: Value, uri: string, replies: seq<HttpReply>, retryCount: nat)
    requires |replies| >= 1 && |replies| + retryCount > RETRY_ATTEMPTS
    ensures var run := PostTrigger(id, event, uri, replies, retryCount);
            var n := |run.requests|;
            && 1 <= n <= |replies|
            && var step := PostStep(replies[n - 1], Some(retryCount + n - 1));
            && !step.Retry?
            && run.settlement == FinalRun(id, Request(Str(uri), event), step).settlement
            && run.disable == FinalRun(id, Request(Str(uri), event), step).disable
    decreases |replies|
  {
    var run := PostTrigger(id, event, uri, replies, retryCount);
    var step := PostStep(replies[0], Some(retryCount));
    if step.Retry? {
      var rest := replies[1..];
      PostTriggerLast(id, event, uri, rest, retryCount + 1);
      var later := PostTrigger(id, event, uri, rest, retryCount + 1);
      assert run.settlement == later.settlement && run.disable == later.disable;
      assert |run.requests| == |later.requests| + 1;
      assert replies[|later.requests|] == rest[|later.requests| - 1];
    } else {
      assert run == FinalRun(id, Request(Str(uri), event), step);
    }
  }

  /** Each post has exactly one outcome. All attempts but the last failed in a retryable way
      while budget remained, each followed by its delay; the last reply decides: success
      resolves with the trigger id and disables nothing, a disable-eligible status disables
      the trigger once and rejects, and a retryable failure with the budget spent rejects
      without disabling. */
  lemma PostTriggerOutcome(id: string, event: Value, uri: string, replies: seq<HttpReply>, retryCount: nat)
    requires |replies| >= 1 && |replies| + retryCount > RETRY_ATTEMPTS
    ensures 1 <= |PostTrigger(id, event, uri, replies, retryCount).requests| <= |replies|
    ensures var run := PostTrigger(id, event, uri, replies, retryCount);
            var n := |run.requests|;
            var last := replies[n - 1];
            && |run.delays| == n - 1
            && (forall k :: 0 <= k < n - 1 ==> Retryable(replies[k]) && retryCount + k < RETRY_ATTEMPTS)
            && (forall k :: 0 <= k < n - 1 ==> run.delays[k] == RetryDelay(StatusOf(replies[k]), retryCount + k))
            && (!Failed(last) ==> run.settlement == Resolved(id) && run.disable == None)
            && (DisableEligible(last) ==>
                  run.settlement.Rejected?
                  && run.disable == Some(DisableCall(id, StatusOf(last).value, DisableMessage(FailureMessage(last, StatusOf(last).value)))))
            && (Retryable(last) ==>
                  run.settlement == Rejected(UnreachableReason(id)) && run.disable == None
                  && retryCount + n - 1 >= RETRY_ATTEMPTS)
  {
    PostTriggerPrefix(id, event, uri, replies, retryCount);
    PostTriggerLast(id, event, uri, replies, retryCount);
    var run := PostTrigger(id, event, uri, replies, retryCount);
    var n := |run.requests|;
    var step := PostStep(replies[n - 1], Some(retryCount + n - 1));
    if Retryable(replies[n - 1]) {
      assert step == GiveUp;
    }
  }

  /** Whether the trigger ends up disabled depends only on the status class of the last
      reply: a trigger is never disabled for a soft 4xx, a server error or a network error. */
  lemma DisableOnlyForEligibleStatus(id: string, event: Value, uri: string, replies: seq<HttpReply>, retryCount: nat)
    requires |replies| >= 1 && |replies| + retryCount > RETRY_ATTEMPTS
    ensures var run := PostTrigger(id, event, uri, replies, retryCount);
            run.disable.Some? ==> ShouldDisableTrigger(run.disable.value.statusCode)
  {
    PostTriggerOutcome(id, event, uri, replies, retryCount);
  }

  /** `postTrigger` exactly as written: the retry at provider/lib/ProviderManager.js:177 calls
      `postTrigger(triggerData, uri, retryCount + 1)`, so on the retried call the `event`
      position receives the URI, the `uri` position receives the number and `retryCount` is
      `undefined`. Arguments are therefore plain JavaScript values here. */
  function PostTriggerAsWritten(id: string, event: Value, uri: Value, retryCount: Value, replies: seq<HttpReply>): (run: FireRun)
    requires |replies| >= 1
    requires retryCount.Num? && retryCount.n < RETRY_ATTEMPTS ==> |replies| >= 2
    ensures 1 <= |run.requests| <= 2 && |run.delays| == |run.requests| - 1
    ensures run.settlement.Resolved? ==> run.settlement == Resolved(id) && run.disable.None?
    decreases if retryCount.Num? then 1 else 0
  {
    var request := Request(uri, event);
    var count := if retryCount.Num? then Some(retryCount.n) else None;
    var step := PostStep(replies[0], count);
    if step.Retry? then
      var later := PostTriggerAsWritten(id, uri, Num(retryCount.n + 1), Undefined, replies[1..]);
      later.(requests := [request] + later.requests, delays := [step.delay] + later.delays)
    else
      FinalRun(id, request, step)
  }

  /** As written, a first attempt that fails in a retryable way is followed by exactly one
      more request, sent to the number 1 with the URI as its body, and a second retryable
      failure gives up at once, although nine retries of the budget remain. */
  lemma AsWrittenRetryIsMisaddressed(id: string, event: Value, uri: string, replies: seq<HttpReply>)
    requires |replies| >= 2 && Retryable(replies[0])
    ensures var run := PostTriggerAsWritten(id, event, Str(uri), Num(0), replies);
            && |run.requests| == 2
            && run.requests[0] == Request(Str(uri), event)
            && run.requests[1] == Request(Num(1), Str(uri))
            && (Retryable(replies[1]) ==> run.settlement == Rejected(UnreachableReason(id)))
  {
    var later := PostTriggerAsWritten(id, Str(uri), Num(1), Undefined, replies[1..]);
    assert !PostStep(replies[1], None).Retry?;
    assert |later.requests| == 1;
  }

  /** The concrete case that separates the two: a 500, another 500, then a 200. The code as
      written rejects after two requests; the intended policy fires on the third. */
  lemma AsWrittenDiffersFromIntended(id: string, event: Value, uri: string)
    ensures var replies := [Response(500), Response(500)] + seq(9, _ => Response(200));
            && PostTriggerAsWritten(id, event, Str(uri), Num(0), replies).settlement == Rejected(UnreachableReason(id))
            && PostTrigger(id, event, uri, replies, 0).settlement == Resolved(id)
            && |PostTrigger(id, event, uri, replies, 0).requests| == 3
  {
    var replies := [Response(500), Response(500)] + seq(9, _ => Response(200));
    AsWrittenRetryIsMisaddressed(id, event, uri, replies);
    assert PostStep(replies[0], Some(0)).Retry?;
    assert PostStep(replies[1..][0], Some(1)).Retry?;
    assert PostStep(replies[1..][1..][0], Some(2)) == Fire;
    var third := PostTrigger(id, event, uri, replies[1..][1..], 2);
    assert third.settlement == Resolved(id) && |third.requests| == 1;
    var second := PostTrigger(id, event, uri, replies[1..], 1);
    assert second.settlement == Resolved(id) && |second.requests| == 2;
  }
}
