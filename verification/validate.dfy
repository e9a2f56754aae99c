/** The gateway's `validate.token`: forward the Authorization header to the
    auth service and classify the outcome as a `(value, error)` pair. */
module Validate {
  import opened Base
  import opened Http

  /** `token(request)`, with `header` the Authorization header (`None` when
      absent) and `service` the auth service's reaction to a forwarded token. */
  function Token(header: Option<string>, service: string -> AuthCall): (p: AuthPair)
    ensures OneOf(p)
    // no header, or an empty one: missing credentials
    ensures header.None? || header == Some("") ==> p == AuthPair(None, Some(MISSING_CREDENTIALS))
    // otherwise the header is forwarded unchanged and the answer classified
    ensures header.Some? && header.value != "" ==>
              match service(header.value)
              case Unreachable => p == AuthPair(None, Some(AUTH_UNREACHABLE))
              case Answered(status, text) =>
                p == if status == 200 then AuthPair(Some(text), None) else AuthPair(None, Some(Text(text, status)))
  {
    if header.None? || header.value == "" then AuthPair(None, Some(MISSING_CREDENTIALS))
    else Classify(service(header.value))
  }

  /** The auth service is consulted only for a non-empty header: without
      one, the result does not depend on the service at all. */
  lemma NoCallWithoutHeader(header: Option<string>, s1: string -> AuthCall, s2: string -> AuthCall)
    requires header.None? || header == Some("")
    ensures Token(header, s1) == Token(header, s2)
  {
  }
}
