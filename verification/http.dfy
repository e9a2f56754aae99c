/** What the gateway's Flask handlers see and return. */
module Http {
  import opened Base

  /** A Flask response: a `(text, status)` pair (a bare string means status
      200), or a `send_file` of stored bytes under a download name. */
  datatype Response = Text(body: string, status: int) | File(data: Bytes, name: string)

  const INTERNAL_ERROR: Response := Text("internal server error", 500)
  const MISSING_CREDENTIALS: Response := Text("missing credentials", 401)
  const AUTH_UNREACHABLE: Response := Text("auth service unreachable", 500)

  /** The decoded claims of a validated token: `access["admin"]` and
      `access["username"]`, the latter `None` when the key is absent. */
  datatype Claims = Claims(admin: bool, username: Option<string>)

  /** Basic-auth credentials of a login request. */
  datatype Credentials = Credentials(username: string, password: string)

  /** What `requests.post` to the auth service did: raised, or answered. */
  datatype AuthCall = Unreachable | Answered(status: int, text: string)

  /** The `(value, error)` pair `validate.token` and `access.login` return. */
  datatype AuthPair = AuthPair(value: Option<string>, err: Option<Response>)

  /** Exactly one component of the pair is `None`. */
  predicate OneOf(p: AuthPair)
  {
    p.value.Some? != p.err.Some?
  }

  /** How both auth calls classify the service's answer. */
  function Classify(call: AuthCall): (p: AuthPair)
    ensures OneOf(p)
    ensures p.value.Some? <==> call.Answered? && call.status == 200
    ensures p.value.Some? ==> p.value.value == call.text
    ensures call.Unreachable? ==> p.err == Some(AUTH_UNREACHABLE)
    ensures call.Answered? && call.status != 200 ==> p.err == Some(Text(call.text, call.status))
  {
    match call
    case Unreachable => AuthPair(None, Some(AUTH_UNREACHABLE))
    case Answered(status, text) =>
      if status == 200 then AuthPair(Some(text), None) else AuthPair(None, Some(Text(text, status)))
  }
}
