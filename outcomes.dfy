/** How each requester turns what the transport reported into an outcome
    record `{success, statusCode, responseTime, rateLimited, error}`.
    The transport itself (an HTTP client or a browser page) is replaced by
    what it reports back. */
module Outcomes {
  import opened Wrappers

  /** The HTTP status that marks a throttled request. */
  const TooManyRequests: int := 429

  predicate IsSuccessStatus(status: int) {
    200 <= status < 300
  }

  /** The `error` object attached to a failed outcome. */
  datatype ErrorDetail =
    | ClientError(message: string, code: Option<string>)   // HTTP client: `{message, code}`
    | BrowserError(message: string, stack: string)         // browser: `{message, stack}`

  /** The classified result of one request attempt; `responseTime` is in milliseconds. */
  datatype Outcome = Outcome(
    success: bool,
    statusCode: int,
    responseTime: nat,
    rateLimited: bool,
    error: Option<ErrorDetail>)

  /** What the HTTP client reported: a resolved response, or a rejection that
      may carry the response it received (`error.response?.status`). */
  datatype HttpReply =
    | Resolved(status: int)
    | Rejected(responseStatus: Option<int>, message: string, code: Option<string>)

  /** The outcome built by the HTTP-client requester. */
  function AxiosOutcome(reply: HttpReply, responseTime: nat): (o: Outcome)
    ensures o.responseTime == responseTime
    ensures o.success <==> reply.Resolved?
    ensures o.rateLimited <==> o.statusCode == TooManyRequests
    ensures o.success <==> o.error.None?
    ensures reply.Resolved? ==> o.statusCode == reply.status
    ensures reply.Rejected? ==> o.statusCode == reply.responseStatus.GetOr(0)
    ensures reply.Rejected? ==> o.error == Some(ClientError(reply.message, reply.code))
  {
    match reply
    case Resolved(status) =>
      Outcome(true, status, responseTime, status == TooManyRequests, None)
    case Rejected(status, message, code) =>
      // the falsy fallback to 0: a missing status and a status of 0 both give 0
      Outcome(false, status.GetOr(0), responseTime,
              status == Some(TooManyRequests), Some(ClientError(message, code)))
  }

  /** What the browser reported: the navigation finished, having seen the status
      of the response for the requested URL if one arrived; or something threw. */
  datatype BrowserReply =
    | Navigated(capturedStatus: Option<int>)
    | Threw(message: string, stack: string)

  /** The outcome built by the browser requester. The status starts at 0 and is
      overwritten by the response handler when it sees the requested URL. */
  function PuppeteerOutcome(reply: BrowserReply, responseTime: nat): (o: Outcome)
    ensures o.responseTime == responseTime
    ensures o.success <==> IsSuccessStatus(o.statusCode)
    ensures o.rateLimited <==> o.statusCode == TooManyRequests
    ensures o.rateLimited ==> !o.success
    ensures reply.Navigated? ==> o.statusCode == reply.capturedStatus.GetOr(0) && o.error.None?
    ensures reply.Threw? ==> o.statusCode == 0 && o.error == Some(BrowserError(reply.message, reply.stack))
  {
    match reply
    case Navigated(captured) =>
      var statusCode := captured.GetOr(0);
      Outcome(IsSuccessStatus(statusCode), statusCode, responseTime, statusCode == TooManyRequests, None)
    case Threw(message, stack) =>
      Outcome(false, 0, responseTime, false, Some(BrowserError(message, stack)))
  }

  /** A throttled response is recorded as a rate-limited failure by both requesters,
      when the HTTP client rejects it. */
  lemma ThrottledIsRateLimitedFailure(responseTime: nat, message: string, code: Option<string>)
    ensures var o := PuppeteerOutcome(Navigated(Some(TooManyRequests)), responseTime);
      !o.success && o.rateLimited && o.statusCode == TooManyRequests
    ensures var o := AxiosOutcome(Rejected(Some(TooManyRequests), message, code), responseTime);
      !o.success && o.rateLimited && o.statusCode == TooManyRequests
  {
  }

  /** A browser navigation that failed on an HTTP status carries no error
      detail: only thrown exceptions do. */
  lemma BrowserHttpFailureHasNoDetail(status: int, responseTime: nat)
    requires !IsSuccessStatus(status)
    ensures var o := PuppeteerOutcome(Navigated(Some(status)), responseTime);
      !o.success && o.error.None?
  {
  }
}
