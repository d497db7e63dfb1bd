/**
  One call to the Bitrix24 REST API: which answers are retried, how often, and how long the client
  waits in between.
 */
module BitrixClient {
  import opened Options

  datatype ErrorClass =
    | TransportError | TimeoutError | RateLimitError | AuthError | PermissionError | NotFoundError
    | ValidationError | UnexpectedResponseError

  datatype BitrixError = BitrixError(cls: ErrorClass, code: string, httpStatus: Option<int>)

  /** A parsed body; error is the text of a truthy "error" member, or empty. */
  datatype Body = NotJson | NotAnObject | Object(error: string, result: string)

  datatype PostReply = TimedOut | HttpFailed | Response(status: int, body: Body)

  datatype Judgement = Good(result: string) | Bad(error: BitrixError)

  const RETRYABLE_HTTP_STATUSES := {429, 502, 503, 504}
  const RETRYABLE_BITRIX_ERRORS := {"QUERY_LIMIT_EXCEEDED", "OPERATION_TIME_LIMIT", "OVERLOAD_LIMIT"}

  function ClassOfCode(code: string): ErrorClass {
    if code in {"NO_AUTH_FOUND", "expired_token"} then AuthError
    else if code in {"ACCESS_DENIED", "Access denied", "INVALID_CREDENTIALS", "insufficient_scope", "user_access_error"}
    then PermissionError
    else if code in {"NOT_FOUND", "Not found", "OWNER_NOT_FOUND", "ERROR_NOT_FOUND"} then NotFoundError
    else if code in {"QUERY_LIMIT_EXCEEDED", "OVERLOAD_LIMIT"} then RateLimitError
    else ValidationError
  }

  function ErrorForResponse(status: int, code: string): BitrixError {
    var cls :=
      if status == 401 then AuthError
      else if status == 403 then PermissionError
      else if status == 404 then NotFoundError
      else if status == 429 then RateLimitError
      else if status >= 500 then TransportError
      else ClassOfCode(code);
    BitrixError(cls, code, Some(status))
  }

  predicate IsRetryable(e: BitrixError) {
    e.cls in {RateLimitError, TimeoutError, TransportError} || e.code in RETRYABLE_BITRIX_ERRORS
  }

  /** The status a later timeout reports is the one of the last response received. */
  function StatusAfter(reply: PostReply, before: Option<int>): Option<int> {
    if reply.Response? then Some(reply.status) else before
  }

  function JudgeResponse(status: int, body: Body): Judgement {
    if body == NotJson then Bad(BitrixError(UnexpectedResponseError, "BITRIX24_UNEXPECTED_RESPONSE", Some(status)))
    else if status in RETRYABLE_HTTP_STATUSES then
      Bad(BitrixError(RateLimitError, if status == 429 then "BITRIX24_RATE_LIMIT" else "BITRIX24_TRANSPORT_ERROR",
                      Some(status)))
    else if status == 401 then Bad(BitrixError(AuthError, "BITRIX24_AUTH_ERROR", Some(status)))
    else if status == 403 then Bad(BitrixError(PermissionError, "BITRIX24_PERMISSION_ERROR", Some(status)))
    else if status >= 400 then Bad(ErrorForResponse(status, "BITRIX24_HTTP_ERROR"))
    else if body == NotAnObject then
      Bad(BitrixError(UnexpectedResponseError, "BITRIX24_UNEXPECTED_RESPONSE", Some(status)))
    else if body.error != "" then
      if body.error in RETRYABLE_BITRIX_ERRORS then
        Bad(BitrixError(RateLimitError,
                        if body.error == "QUERY_LIMIT_EXCEEDED" then "BITRIX24_RATE_LIMIT" else body.error,
                        Some(status)))
      else Bad(ErrorForResponse(status, body.error))
    else Good(body.result)
  }

  function Judge(reply: PostReply, before: Option<int>): Judgement {
    match reply
    case TimedOut => Bad(BitrixError(TimeoutError, "BITRIX24_TIMEOUT", before))
    case HttpFailed => Bad(BitrixError(TransportError, "BITRIX24_TRANSPORT_ERROR", before))
    case Response(status, body) => JudgeResponse(status, body)
  }

  predicate Retried(reply: PostReply) {
    Judge(reply, None).Bad? && IsRetryable(Judge(reply, None).error)
  }

  /** The request was accepted and the answer carries this Bitrix error. */
  predicate Names(reply: PostReply, codes: set<string>) {
    reply.Response? && reply.status < 400 && reply.body.Object? && reply.body.error in codes
  }

  /** A status that fails an answer which could be parsed. */
  predicate Refuses(reply: PostReply, statuses: set<int>) {
    reply.Response? && reply.body != NotJson && reply.status in statuses
  }

  /** Success is a parsed object without an error and a status below 400, and the result is the object's own. */
  lemma GoodIff(reply: PostReply, before: Option<int>, result: string)
    ensures Judge(reply, before) == Good(result)
            <==> reply.Response? && reply.status < 400 && reply.body == Object("", result)
  {
  }

  /** The class of an error, by the kind of answer. */
  predicate Classified(reply: PostReply, cls: ErrorClass) {
    match cls
    case TimeoutError => reply == TimedOut
    case TransportError =>
      reply == HttpFailed
      || (reply.Response? && reply.body != NotJson && reply.status >= 500 && reply.status !in {502, 503, 504})
    case RateLimitError =>
      Refuses(reply, {429, 502, 503, 504})
      || Names(reply, {"QUERY_LIMIT_EXCEEDED", "OPERATION_TIME_LIMIT", "OVERLOAD_LIMIT"})
    case AuthError => Refuses(reply, {401}) || Names(reply, {"NO_AUTH_FOUND", "expired_token"})
    case PermissionError =>
      Refuses(reply, {403})
      || Names(reply, {"ACCESS_DENIED", "Access denied", "INVALID_CREDENTIALS", "insufficient_scope",
                       "user_access_error"})
    case NotFoundError =>
      Refuses(reply, {404}) || Names(reply, {"NOT_FOUND", "Not found", "OWNER_NOT_FOUND", "ERROR_NOT_FOUND"})
    case UnexpectedResponseError =>
      reply.Response? && (reply.body == NotJson || (reply.status < 400 && reply.body == NotAnObject))
    case ValidationError =>
      reply.Response? && reply.body != NotJson
      && ((400 <= reply.status < 500 && reply.status !in {401, 403, 404, 429})
          || (reply.status < 400 && reply.body.Object?
              && reply.body.error !in {
                   "", "QUERY_LIMIT_EXCEEDED", "OPERATION_TIME_LIMIT", "OVERLOAD_LIMIT", "NO_AUTH_FOUND",
                   "expired_token", "ACCESS_DENIED", "Access denied", "INVALID_CREDENTIALS", "insufficient_scope",
                   "user_access_error", "NOT_FOUND", "Not found", "OWNER_NOT_FOUND", "ERROR_NOT_FOUND"}))
  }

  /** The code an error carries. */
  predicate Coded(reply: PostReply, code: string) {
    match reply
    case TimedOut => code == "BITRIX24_TIMEOUT"
    case HttpFailed => code == "BITRIX24_TRANSPORT_ERROR"
    case Response(status, body) =>
      && (body == NotJson || (status < 400 && body == NotAnObject) ==> code == "BITRIX24_UNEXPECTED_RESPONSE")
      && (body != NotJson ==>
            && (status == 429 ==> code == "BITRIX24_RATE_LIMIT")
            && (status in {502, 503, 504} ==> code == "BITRIX24_TRANSPORT_ERROR")
            && (status == 401 ==> code == "BITRIX24_AUTH_ERROR")
            && (status == 403 ==> code == "BITRIX24_PERMISSION_ERROR")
            && (status >= 400 && status !in {401, 403, 429, 502, 503, 504} ==> code == "BITRIX24_HTTP_ERROR")
            && (status < 400 && body.Object? ==>
                  code == if body.error == "QUERY_LIMIT_EXCEEDED" then "BITRIX24_RATE_LIMIT" else body.error))
  }

  /** What a failed answer is reported as; without an answer the status is that of an earlier one. */
  predicate Reports(reply: PostReply, before: Option<int>, e: BitrixError) {
    && Classified(reply, e.cls) && Coded(reply, e.code)
    && e.httpStatus == if reply.Response? then Some(reply.status) else before
  }

  /** An answer is either a success with its own result or a failure reported as such. */
  lemma AnswerMeans(reply: PostReply, before: Option<int>)
    ensures match Judge(reply, before)
            case Good(result) => Succeeds(reply) && reply.body == Object("", result)
            case Bad(e) => !Succeeds(reply) && Reports(reply, before, e)
  {
    if Judge(reply, before).Bad? { BadIff(reply, before, Judge(reply, before).error); }
    hide Reports;
  }

  /** An accepted request whose answer is an object without an error. */
  predicate Succeeds(reply: PostReply) {
    reply.Response? && reply.status < 400 && reply.body.Object? && reply.body.error == ""
  }

  /** Every answer that is not a success is reported with its one class, code and status. */
  lemma BadIff(reply: PostReply, before: Option<int>, e: BitrixError)
    ensures Judge(reply, before) == Bad(e) <==> Reports(reply, before, e) && !Succeeds(reply)
  {
    if Judge(reply, before).Bad? {
      if reply.Response? && reply.status < 400 && reply.body.Object? {
        NamedReports(reply, before);
      } else {
        RefusedReports(reply, before);
      }
      var f := Judge(reply, before).error;
      hide Judge;
      if Reports(reply, before, e) && !Succeeds(reply) { OneReport(reply, before, e, f); }
    } else {
      assert Succeeds(reply);
    }
  }

  lemma NamedReports(reply: PostReply, before: Option<int>)
    requires reply.Response? && reply.status < 400 && reply.body.Object? && Judge(reply, before).Bad?
    ensures Reports(reply, before, Judge(reply, before).error) && !Succeeds(reply)
  {
    var e := Judge(reply, before).error;
    assert Classified(reply, e.cls) by { hide Coded; }
    assert Coded(reply, e.code) by { hide Classified, ClassOfCode; }
    hide Classified, Coded, ClassOfCode;
  }

  lemma RefusedReports(reply: PostReply, before: Option<int>)
    requires !(reply.Response? && reply.status < 400 && reply.body.Object?) && Judge(reply, before).Bad?
    ensures Reports(reply, before, Judge(reply, before).error) && !Succeeds(reply)
  {
    var e := Judge(reply, before).error;
    assert ClassOfCode("BITRIX24_HTTP_ERROR") == ValidationError;
    hide ClassOfCode;
    assert Classified(reply, e.cls) by { hide Coded; }
    assert Coded(reply, e.code) by { hide Classified; }
  }

  lemma OneReport(reply: PostReply, before: Option<int>, e: BitrixError, f: BitrixError)
    requires Reports(reply, before, e) && Reports(reply, before, f) && !Succeeds(reply)
    ensures e == f
  {
    assert e.cls == f.cls by {
      hide Coded;
      OneClass(reply, e.cls, f.cls);
    }
    assert e.code == f.code by { hide Classified; }
    hide Classified, Coded;
  }

  lemma OneClass(reply: PostReply, a: ErrorClass, b: ErrorClass)
    requires Classified(reply, a) && Classified(reply, b)
    ensures a == b
  {
  }

  /**
    Exactly what is retried: no answer at all; an answer in JSON with status 429 or a server error;
    and an accepted request whose answer names one of three Bitrix errors.  An answer that is not
    JSON is never retried, whatever its status, because it is parsed before the status is looked at.
   */
  lemma RetriedIff(reply: PostReply)
    ensures Retried(reply) <==>
      (reply.Response? ==>
         reply.body != NotJson
         && (reply.status == 429 || reply.status >= 500
             || (reply.status < 400 && reply.body.Object? && reply.body.error in RETRYABLE_BITRIX_ERRORS)))
  {
    if reply.Response? && reply.status < 400 && reply.body.Object? && reply.body.error !in RETRYABLE_BITRIX_ERRORS {
      assert ClassOfCode(reply.body.error) != RateLimitError;
    }
  }

  /** A gateway's HTML error page ends the call at once, though its status is listed as retryable. */
  lemma HtmlGatewayErrorNotRetried(status: int)
    requires status in RETRYABLE_HTTP_STATUSES
    ensures !Retried(Response(status, NotJson)) && Retried(Response(status, NotAnObject))
  {
    RetriedIff(Response(status, NotJson));
    RetriedIff(Response(status, NotAnObject));
  }

  lemma StatusIrrelevant(reply: PostReply, before: Option<int>)
    ensures Judge(reply, before).Good? <==> Judge(reply, None).Good?
    ensures Judge(reply, before).Bad? ==> (IsRetryable(Judge(reply, before).error) <==> Retried(reply))
  {
  }

  // ---------------------------------------------------------------------
  // Waiting
  // ---------------------------------------------------------------------

  function Pow2(n: nat): nat { if n == 0 then 1 else 2 * Pow2(n - 1) }

  function Backoff(setting: real): real { if setting > 0.0 then setting else 0.0 }

  function Delay(setting: real, attempt: nat): real { Backoff(setting) * Pow2(attempt) as real }

  /** random.uniform(0, x) for the jitter before a retry. */
  predicate JitterFrom(jitter: real, delay: real) {
    0.0 <= jitter && jitter <= 0.25 && jitter <= delay / 4.0
  }

  /** The delays before k retries, without jitter: the backoff times 2^k - 1. */
  function Least(setting: real, k: nat): real { Backoff(setting) * (Pow2(k) - 1) as real }

  lemma DelayDoubles(setting: real, k: nat)
    ensures Least(setting, k + 1) == Least(setting, k) + Delay(setting, k)
    ensures Delay(setting, k) >= 0.0
  {
    var b: real, p: int := Backoff(setting), Pow2(k);
    assert (Pow2(k + 1) - 1) as real == (p - 1) as real + p as real;
    assert b * ((p - 1) as real + p as real) == b * (p - 1) as real + b * p as real;
  }

  lemma StillWithin(least: real, base: real, delay: real, slept: real, k: real)
    requires least <= slept && slept <= least * 1.25 && slept <= least + 0.25 * k
    requires base <= delay && delay <= base + 0.25 && delay <= base * 1.25
    ensures least + base <= slept + delay && slept + delay <= (least + base) * 1.25
    ensures slept + delay <= least + base + 0.25 * (k + 1.0)
  {
  }

  // ---------------------------------------------------------------------
  // The call
  // ---------------------------------------------------------------------

  function MaxRetries(setting: int): nat { if setting > 0 then setting else 0 }

  /** The position of the first answer that is not retried, or n. */
  function FirstSettled(replies: seq<PostReply>, n: nat): nat
    requires n <= |replies|
  {
    if n == 0 then 0
    else
      var k := FirstSettled(replies, n - 1);
      if k < n - 1 || !Retried(replies[n - 1]) then k else n
  }

  lemma {:induction false} FirstSettledSpec(replies: seq<PostReply>, n: nat)
    requires n <= |replies|
    ensures var k := FirstSettled(replies, n);
            && k <= n && (forall j | 0 <= j < k :: Retried(replies[j])) && (k < n ==> !Retried(replies[k]))
  {
    if n > 0 {
      FirstSettledSpec(replies, n - 1);
    }
  }

  lemma FirstSettledIs(replies: seq<PostReply>, n: nat, k: nat)
    requires k <= n <= |replies| && (forall j | 0 <= j < k :: Retried(replies[j])) && (k < n ==> !Retried(replies[k]))
    ensures FirstSettled(replies, n) == k
  {
    FirstSettledSpec(replies, n);
  }

  /** The status known before the k-th post: that of the last response among the first k answers. */
  function StatusBefore(replies: seq<PostReply>, k: nat): Option<int>
    requires k <= |replies|
  {
    if k == 0 then None else StatusAfter(replies[k - 1], StatusBefore(replies, k - 1))
  }

  /** It is the status of the latest response, whatever timeouts came after it. */
  lemma {:induction false} StatusBeforeIs(replies: seq<PostReply>, k: nat, status: int)
    requires k <= |replies|
    ensures StatusBefore(replies, k) == Some(status) <==>
            exists j | 0 <= j < k ::
              && replies[j].Response? && replies[j].status == status
              && forall i | j < i < k :: !replies[i].Response?
  {
    if k > 0 {
      StatusBeforeIs(replies, k - 1, status);
      if replies[k - 1].Response? {
        assert StatusBefore(replies, k) == Some(replies[k - 1].status);
      }
    }
  }

  class Client {
    const maxRetriesSetting: int
    const backoffSetting: real
    /** What the client has done in its current call. */
    var posts: nat
    var slept: real

    constructor (maxRetries: int, backoff: real)
      ensures maxRetriesSetting == maxRetries && backoffSetting == backoff
    {
      maxRetriesSetting, backoffSetting, posts, slept := maxRetries, backoff, 0, 0.0;
    }

    /** What has been slept in a call after k retries. */
    predicate SleptWithin(k: nat)
      reads this
    {
      var least := Least(backoffSetting, k);
      least <= slept && slept <= least * 1.25 && slept <= least + 0.25 * k as real
    }

    method SleepBeforeRetry(attempt: nat, jitter: real)
      requires Delay(backoffSetting, attempt) > 0.0 ==> JitterFrom(jitter, Delay(backoffSetting, attempt))
      requires SleptWithin(attempt)
      modifies this`slept
      ensures SleptWithin(attempt + 1)
    {
      DelayDoubles(backoffSetting, attempt);
      var delay := Delay(backoffSetting, attempt);
      if delay > 0.0 { delay := delay + jitter; }
      hide Delay, Least;
      StillWithin(Least(backoffSetting, attempt), Delay(backoffSetting, attempt), delay, slept, attempt as real);
      slept := slept + delay;
    }

    /**
      replies[k] and jitters[k] are what the k-th post and the draw after it would give.  Every post
      but the last fails in a way that is retried; the call ends with the first answer that is not,
      or when the retries are used up, and reports that last answer.
     */
    method Call(replies: seq<PostReply>, jitters: seq<real>) returns (result: Judgement, retryCount: nat)
      requires |replies| > MaxRetries(maxRetriesSetting) && |jitters| == |replies|
      requires forall k | 0 <= k < |jitters| ::
        Delay(backoffSetting, k) > 0.0 ==> JitterFrom(jitters[k], Delay(backoffSetting, k))
      modifies this
      ensures 1 <= posts <= MaxRetries(maxRetriesSetting) + 1
      ensures posts == FirstSettled(replies, MaxRetries(maxRetriesSetting)) + 1
      ensures result == Judge(replies[posts - 1], StatusBefore(replies, posts - 1))
      ensures posts <= (if maxRetriesSetting > 0 then maxRetriesSetting else 0) + 1
      ensures forall k | 0 <= k < posts - 1 :: Retried(replies[k])
      ensures posts < (if maxRetriesSetting > 0 then maxRetriesSetting else 0) + 1 ==> !Retried(replies[posts - 1])
      ensures result.Good? <==> Succeeds(replies[posts - 1])
      ensures result.Good? ==> replies[posts - 1].body == Object("", result.result)
      ensures result.Bad? ==> Reports(replies[posts - 1], StatusBefore(replies, posts - 1), result.error)
      ensures retryCount == posts - 1
      ensures SleptWithin(retryCount)
      ensures backoffSetting <= 0.0 ==> slept == 0.0
      ensures backoffSetting > 0.0 ==> backoffSetting * (Pow2(retryCount) - 1) as real <= slept
    {
      posts, slept, retryCount := 0, 0.0, 0;
      var httpStatus: Option<int> := None;
      var lastError: Option<BitrixError> := None;
      var maxRetries := MaxRetries(maxRetriesSetting);
      hide Judge, IsRetryable, Delay, Backoff, JitterFrom, Reports, Retried;
      assert SleptWithin(0);
      hide SleptWithin;
      for attempt := 0 to maxRetries + 1
        invariant posts == attempt == retryCount && attempt <= maxRetries
        invariant httpStatus == StatusBefore(replies, attempt)
        invariant forall j | 0 <= j < attempt :: Retried(replies[j])
        invariant SleptWithin(attempt)
      {
        var reply := replies[attempt];
        posts := posts + 1;
        StatusIrrelevant(reply, httpStatus);
        var judgement := Judge(reply, httpStatus);
        AnswerMeans(reply, httpStatus);
        httpStatus := StatusAfter(reply, httpStatus);
        if judgement.Good? {
          FirstSettledIs(replies, maxRetries, attempt);
          return judgement, retryCount;
        }
        lastError := Some(judgement.error);
        if attempt >= maxRetries || !IsRetryable(judgement.error) {
          FirstSettledIs(replies, maxRetries, attempt);
          break;
        }
        retryCount := retryCount + 1;
        SleepBeforeRetry(attempt, jitters[attempt]);
      }
      assert lastError.Some?;
      result := Bad(lastError.value);
    }
  }

  /** All posts but the last of a call were retried, and it gives up early only on an answer that is not. */
  lemma CallShape(replies: seq<PostReply>, maxRetries: nat)
    requires |replies| > maxRetries
    ensures var p := FirstSettled(replies, maxRetries) + 1;
            && 1 <= p <= maxRetries + 1
            && (forall j | 0 <= j < p - 1 :: Retried(replies[j]))
            && (p <= maxRetries ==> !Retried(replies[p - 1]))
            && (Judge(replies[p - 1], StatusBefore(replies, p - 1)).Good? ==> !Retried(replies[p - 1]))
  {
    FirstSettledSpec(replies, maxRetries);
    StatusIrrelevant(replies[FirstSettled(replies, maxRetries)],
        StatusBefore(replies, FirstSettled(replies, maxRetries)));
    hide IsRetryable, StatusBefore;
  }
}
