/** The gateway's `access.login`: forward basic-auth credentials to the auth
    service and classify the outcome as a `(value, error)` pair. */
module Access {
  import opened Base
  import opened Http

  /** `login(request)`, with `auth` the request's basic-auth credentials
      (`None` when absent) and `service` the auth service's reaction to them. */
  function Login(auth: Option<Credentials>, service: Credentials -> AuthCall): (p: AuthPair)
    ensures OneOf(p)
    ensures auth.None? ==> p == AuthPair(None, Some(MISSING_CREDENTIALS))
    // the (username, password) pair is forwarded as received
    ensures auth.Some? ==>
              match service(Credentials(auth.value.username, auth.value.password))
              case Unreachable => p == AuthPair(None, Some(AUTH_UNREACHABLE))
              case Answered(status, text) =>
                p == if status == 200 then AuthPair(Some(text), None) else AuthPair(None, Some(Text(text, status)))
  {
    match auth
    case None => AuthPair(None, Some(MISSING_CREDENTIALS))
    case Some(c) => Classify(service(Credentials(c.username, c.password)))
  }

  /** Only the credentials' answer matters: two services that agree on the
      credentials give the same result. */
  lemma ForwardsCredentialsOnly(c: Credentials, s1: Credentials -> AuthCall, s2: Credentials -> AuthCall)
    requires s1(c) == s2(c)
    ensures Login(Some(c), s1) == Login(Some(c), s2)
  {
  }
}
