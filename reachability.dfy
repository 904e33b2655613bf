/**
 * How the two HTTP helpers classify what `URLSession` hands their data-task
 * callback: `APIHelper.makeRequest` (which may also ask its caller to follow a
 * redirect) and `SessionEndpoint.makeRequest` (which may not). The JSON
 * decoders and `URL(string:)` are parameters.
 */
module Reachability {
  import opened Wrappers
  import opened SwiftText
  import Transport

  /** `ReachabilityError(type:title:status:detail:)`. */
  datatype ReachabilityError = ReachabilityError(errorType: string, title: string, status: int, detail: string)

  /** An `HTTPURLResponse`: its status code and its `Location` header, if any. */
  datatype HttpUrlResponse = HttpUrlResponse(statusCode: int, location: Option<string>)

  /**
   * The three arguments of the data-task callback. A transport error is its
   * `localizedDescription`; a response that is no `HTTPURLResponse` is `None`.
   */
  datatype TaskReply<D> = TaskReply(data: Option<D>, response: Option<HttpUrlResponse>, error: Option<string>)

  /** `ConnectionResult<URL, U, ReachabilityError>`. */
  datatype ConnectionResult<U> = Follow(url: Transport.Url) | Data(model: U) | Complete(error: ReachabilityError)

  /** Swift's `Result<U, ReachabilityError>`. */
  datatype Result<U> = Success(model: U) | Failure(error: ReachabilityError)

  const UnknownRedirectUrl := "https://unknown-redirect-url"
  const UnexpectedData := "Unexpected data form Server for failure"

  predicate IsSuccessStatus(status: int) {
    200 <= status <= 299
  }

  predicate IsRedirectionStatus(status: int) {
    300 <= status <= 399
  }

  /** The callback got a body on an HTTP response, and no transport error. */
  predicate Answered<D>(reply: TaskReply<D>) {
    reply.error.None? && reply.response.Some? && reply.data.Some?
  }

  /** The failure both helpers report when the body is not a success. */
  function BodyFailure<D>(status: int, data: D, decodeError: D -> Option<ReachabilityError>): ReachabilityError {
    match decodeError(data)
    case Some(e) => e
    case None => ReachabilityError("HTTP", "Error", status, UnexpectedData)
  }

  /**
   * The callback of `APIHelper.makeRequest`. `None` is the trap of the
   * force-unwrapped `URL(string:)` when a redirect's target does not parse.
   */
  function ApiOutcome<D, U>(reply: TaskReply<D>, decode: D -> Option<U>, decodeError: D -> Option<ReachabilityError>,
                            parseUrl: string -> Option<Transport.Url>): (r: Option<ConnectionResult<U>>)
    ensures reply.error.Some? ==> r == Some(Complete(ReachabilityError("Network", "Error", -1, reply.error.value)))
    ensures reply.error.None? && reply.response.None? ==>
      r == Some(Complete(ReachabilityError("HTTP", "Error", -1, "No response")))
    ensures reply.error.None? && reply.response.Some? && reply.data.None? ==>
      r == Some(Complete(ReachabilityError("HTTP", "Error", reply.response.value.statusCode, "No data")))
    ensures (r.Some? && r.value.Data?) <==>
      Answered(reply) && IsSuccessStatus(reply.response.value.statusCode) && decode(reply.data.value).Some?
    ensures r.Some? && r.value.Data? ==> r.value.model == decode(reply.data.value).value
    ensures (r.None? || r.value.Follow?) <==> Answered(reply) && IsRedirectionStatus(reply.response.value.statusCode)
    ensures r.Some? && r.value.Follow? ==>
      parseUrl(reply.response.value.location.GetOr(UnknownRedirectUrl)) == Some(r.value.url)
    ensures r.None? ==> parseUrl(reply.response.value.location.GetOr(UnknownRedirectUrl)).None?
    ensures (&& Answered(reply) && !IsRedirectionStatus(reply.response.value.statusCode)
             && !(IsSuccessStatus(reply.response.value.statusCode) && decode(reply.data.value).Some?)) ==>
      r == Some(Complete(BodyFailure(reply.response.value.statusCode, reply.data.value, decodeError)))
  {
    if reply.error.Some? then
      Some(Complete(ReachabilityError("Network", "Error", -1, reply.error.value)))
    else if reply.response.None? then
      Some(Complete(ReachabilityError("HTTP", "Error", -1, "No response")))
    else
      var status := reply.response.value.statusCode;
      if reply.data.None? then
        Some(Complete(ReachabilityError("HTTP", "Error", status, "No data")))
      else
        var data := reply.data.value;
        if IsSuccessStatus(status) && decode(data).Some? then
          Some(Data(decode(data).value))
        else if IsRedirectionStatus(status) then
          match parseUrl(reply.response.value.location.GetOr(UnknownRedirectUrl))
          case Some(url) => Some(Follow(url))
          case None => None
        else
          match decodeError(data)
          case Some(e) => Some(Complete(e))
          case None => Some(Complete(ReachabilityError("HTTP", "Error", status, UnexpectedData)))
  }

  /** The handler call of `SessionEndpoint.makeRequest`: there is no redirect case. */
  function SessionOutcome<D, U>(reply: TaskReply<D>, decode: D -> Option<U>, decodeError: D -> Option<ReachabilityError>): (r: Result<U>)
    ensures reply.error.Some? ==> r == Failure(ReachabilityError("Network", "Error", -1, reply.error.value))
    ensures reply.error.None? && reply.response.None? ==>
      r == Failure(ReachabilityError("HTTP", "Error", -1, "No response"))
    ensures reply.error.None? && reply.response.Some? && reply.data.None? ==>
      r == Failure(ReachabilityError("HTTP", "Error", reply.response.value.statusCode, "No data"))
    ensures r.Success? <==>
      Answered(reply) && IsSuccessStatus(reply.response.value.statusCode) && decode(reply.data.value).Some?
    ensures r.Success? ==> r.model == decode(reply.data.value).value
    ensures Answered(reply) && !(IsSuccessStatus(reply.response.value.statusCode) && decode(reply.data.value).Some?) ==>
      r == Failure(BodyFailure(reply.response.value.statusCode, reply.data.value, decodeError))
  {
    if reply.error.Some? then
      Failure(ReachabilityError("Network", "Error", -1, reply.error.value))
    else if reply.response.None? then
      Failure(ReachabilityError("HTTP", "Error", -1, "No response"))
    else
      var status := reply.response.value.statusCode;
      if reply.data.None? then
        Failure(ReachabilityError("HTTP", "Error", status, "No data"))
      else
        var data := reply.data.value;
        if IsSuccessStatus(status) && decode(data).Some? then
          Success(decode(data).value)
        else
          match decodeError(data)
          case Some(e) => Failure(e)
          case None => Failure(ReachabilityError("HTTP", "Error", status, UnexpectedData))
  }

  /** The `ConnectionResult` a `Result` corresponds to. */
  function AsConnectionResult<U>(r: Result<U>): ConnectionResult<U> {
    match r
    case Success(m) => Data(m)
    case Failure(e) => Complete(e)
  }

  /**
   * The two helpers agree on every reply that is not an answered 3xx: a
   * success is `.data`, a failure is `.complete` with the same error.
   */
  lemma HelpersAgreeOutsideRedirects<D, U>(reply: TaskReply<D>, decode: D -> Option<U>,
                                           decodeError: D -> Option<ReachabilityError>, parseUrl: string -> Option<Transport.Url>)
    requires !(Answered(reply) && IsRedirectionStatus(reply.response.value.statusCode))
    ensures ApiOutcome(reply, decode, decodeError, parseUrl) == Some(AsConnectionResult(SessionOutcome(reply, decode, decodeError)))
  {
  }

  /**
   * On an answered 3xx `APIHelper` asks to follow the redirect (or traps),
   * while `SessionEndpoint` reports the body as a failure.
   */
  lemma OnlyApiHelperFollows<D, U>(reply: TaskReply<D>, decode: D -> Option<U>,
                                   decodeError: D -> Option<ReachabilityError>, parseUrl: string -> Option<Transport.Url>)
    requires Answered(reply) && IsRedirectionStatus(reply.response.value.statusCode)
    ensures var api := ApiOutcome(reply, decode, decodeError, parseUrl);
      api.None? || api.value.Follow?
    ensures SessionOutcome(reply, decode, decodeError)
      == Failure(BodyFailure(reply.response.value.statusCode, reply.data.value, decodeError))
  {
  }

  /** `userAgent(sdkVersion:)`, with `deviceString()` as a parameter. */
  function UserAgent(sdkVersion: string, device: string): (agent: string)
    ensures |agent| == 13 + |sdkVersion| + |device|
    ensures agent[..12] == "tru-sdk-ios/" && agent[12..12 + |sdkVersion|] == sdkVersion
    ensures agent[12 + |sdkVersion|] == ' ' && agent[13 + |sdkVersion|..] == device
  {
    "tru-sdk-ios/" + sdkVersion + " " + device
  }

  /**
   * The version reads back from the user agent: it sits after the product
   * name and runs to the first space.
   */
  lemma UserAgentVersion(sdkVersion: string, device: string)
    requires forall i :: 0 <= i < |sdkVersion| ==> sdkVersion[i] != ' '
    ensures var agent := UserAgent(sdkVersion, device);
      && StartsWith(agent, "tru-sdk-ios/")
      && IndexOf(agent, " ", 0) == Some(12 + |sdkVersion|)
      && agent[12..12 + |sdkVersion|] == sdkVersion
      && agent[13 + |sdkVersion|..] == device
  {
    var agent := UserAgent(sdkVersion, device);
    forall j: nat | j < 12 + |sdkVersion| ensures !OccursAt(agent, " ", j) {
      assert agent[j] != ' ' by {
        if j >= 12 {
          assert agent[j] == sdkVersion[j - 12];
        }
      }
    }
    assert OccursAt(agent, " ", 12 + |sdkVersion|);
  }
}
