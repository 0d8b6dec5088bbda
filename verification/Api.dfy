/** Errors of the request engine and the replies of the management endpoint. */
module Api {
  datatype ApiError = ApiError(kind: string, status: int, retryable: bool)

  datatype Reply<+T> = Good(value: T) | Bad(error: ApiError)

  predicate RetryableStatus(status: int) {
    status == 429 || status == 500 || status == 502 || status == 503 || status == 504
  }

  predicate Successful(status: int) {
    200 <= status < 300
  }

  /** A login or logout exchange: a request that could not be built, no response, or a status with
      the token header and the value of the first cookie of that name (empty when there is none). */
  datatype LoginReply =
    | Unbuilt
    | Unreachable(retryable: bool)
    | Answer(status: int, header: string, cookie: string)

  /** A token that can be sent as a header value. */
  predicate Sendable(token: string) {
    token != "" && |token| <= 4096 && '\r' !in token && '\n' !in token
  }

  /** The header takes precedence over the cookie. */
  function TokenOf(reply: LoginReply): string
    requires reply.Answer?
  {
    if reply.header != "" then reply.header else reply.cookie
  }

  /** The kinds of a login that was answered and failed. */
  function RejectionOf(status: int, token: string): string {
    if status in {401, 403} then "authentication"
    else if !(200 <= status <= 299) then "http"
    else if token == "" then "missing_token" else "invalid_token"
  }

  function LoginResult(reply: LoginReply): (r: Reply<string>)
    ensures r.Good? <==> reply.Answer? && 200 <= reply.status <= 299 && Sendable(TokenOf(reply))
    ensures r.Good? ==> r.value == reply.header || (reply.header == "" && r.value == reply.cookie)
    ensures r.Good? ==> r.value == TokenOf(reply)
    ensures r.Bad? ==>
              (r.error.retryable
               <==> (reply.Unreachable? && reply.retryable)
                    || (reply.Answer? && reply.status in {429, 500, 502, 503, 504}))
    ensures r.Bad? && reply.Answer? ==>
              r.error.status == reply.status && r.error.kind == RejectionOf(reply.status, TokenOf(reply))
  {
    match reply
    case Unbuilt => Bad(ApiError("request", 0, false))
    case Unreachable(retryable) => Bad(ApiError("transport", 0, retryable))
    case Answer(status, header, cookie) =>
      if !Successful(status) then
        Bad(ApiError(if status == 401 || status == 403 then "authentication" else "http", status,
                     RetryableStatus(status)))
      else
        var token := if header == "" then cookie else header;
        if |token| > 4096 || '\r' in token || '\n' in token then Bad(ApiError("invalid_token", status, false))
        else if token == "" then Bad(ApiError("missing_token", status, false))
        else Good(token)
  }
}
