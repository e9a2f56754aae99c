/** The notification service's `email.notification`: tell the job's user that
    the mp3 is ready. Every failure is returned as a value, never raised. */
module Email {
  import opened Base
  import opened Messages

  const SUBJECT: string := "MP3 Download"

  /** The EmailMessage built by lines 28-32. */
  datatype Mail = Mail(subject: string, from: string, to: string, content: string)

  /** One `send_message(msg, from_addr, to_addrs)` call that reached the server. */
  datatype Envelope = Envelope(mailFrom: string, rcptTo: string, mail: Mail)

  /** How the SMTP session went: every call succeeded, something up to and
      including `send_message` raised, or only the final `quit` raised. */
  datatype SmtpOutcome = SmtpOk | FailsBeforeSend | FailsAfterSend

  /** The exception `notification` returns: a payload that does not parse, a
      From or To value the message refuses (ValueError), or an SMTP failure. */
  datatype NotifyError = Malformed | BadHeader | Transport

  /** The returned error (`None` on success) and the mail that went out, if any. */
  datatype Notified = Notified(err: Option<NotifyError>, sent: Option<Envelope>)

  /** Python's `f"{x}"` of a value that may be `None`. */
  function Show(v: Option<string>): string
  {
    match v
    case None => "None"
    case Some(s) => s
  }

  /** The body text announcing mp3 `fid`. */
  function ReadyText(fid: Option<string>): (t: string)
    ensures |t| == 27 + |Show(fid)|
    ensures t[..13] == "mp3 file_id: "
    ensures t[13..13 + |Show(fid)|] == Show(fid)
    ensures t[13 + |Show(fid)|..] == " is now ready!"
    ensures fid.Some? ==> t[13..13 + |fid.value|] == fid.value
  {
    "mp3 file_id: " + Show(fid) + " is now ready!"
  }

  /** The mail's text determines the mp3 id it announces: two texts agree
      exactly when the ids they render agree. */
  lemma ReadyTextIdentifies(a: Option<string>, b: Option<string>)
    ensures ReadyText(a) == ReadyText(b) <==> Show(a) == Show(b)
  {
  }

  /** The characters Python's `str.splitlines` treats as line boundaries. */
  predicate LineBreak(c: char)
  {
    c in {'\n', '\r', '\U{B}', '\U{C}', '\U{1C}', '\U{1D}', '\U{1E}', '\U{85}', '\U{2028}', '\U{2029}'}
  }

  /** The index of the first line boundary in `s`, or `|s|` if there is none. */
  function FirstBreak(s: string): (r: nat)
    ensures r <= |s|
    ensures r < |s| ==> LineBreak(s[r])
    ensures forall i :: 0 <= i < r ==> !LineBreak(s[i])
  {
    if s == [] then 0
    else if LineBreak(s[0]) then 0
    else 1 + FirstBreak(s[1..])
  }

  /** Where the line boundary at `i` ends: "\r\n" counts as one boundary. */
  function BreakEnd(s: string, i: nat): (e: nat)
    requires i < |s|
    ensures i < e <= |s| && e <= i + 2
  {
    if s[i] == '\r' && i + 1 < |s| && s[i + 1] == '\n' then i + 2 else i + 1
  }

  /** Python's `s.splitlines()`. */
  function SplitLines(s: string): (r: seq<string>)
    ensures r == [] <==> s == []
    ensures s != [] && FirstBreak(s) == |s| ==> r == [s]
    decreases |s|
  {
    var i := FirstBreak(s);
    if i == |s| then (if s == [] then [] else [s])
    else [s[..i]] + SplitLines(s[BreakEnd(s, i)..])
  }

  /** Assigning a header of the default policy raises ValueError when the
      value splits into more than one line. */
  predicate RejectedHeader(v: string)
  {
    |SplitLines(v)| > 1
  }

  /** A header value is refused exactly when some line boundary in it is
      followed by more text; a single trailing boundary is accepted. */
  lemma RejectedHeaderIff(v: string)
    ensures RejectedHeader(v) <==> exists i :: 0 <= i < |v| && LineBreak(v[i]) && BreakEnd(v, i) < |v|
  {
  }

  /** `v` contains no line boundary at all, so neither the header policy nor
      the address parser (which refuses CR and LF in an address's parts)
      objects to it. */
  predicate SingleLine(v: string)
  {
    forall i :: 0 <= i < |v| ==> !LineBreak(v[i])
  }

  /** A value without line boundaries passes the header policy's line check. */
  lemma SingleLineAccepted(v: string)
    requires SingleLine(v)
    ensures !RejectedHeader(v)
  {
  }

  /** Both address headers pass the header policy's line check. */
  predicate HeadersAccepted(sender: string, m: Msg)
  {
    !RejectedHeader(sender) && !RejectedHeader(m.username)
  }

  /** `notification(message)` with the GMAIL_ADDRESS environment value `sender`. */
  function Notification(body: Body, sender: string, smtp: SmtpOutcome): (r: Notified)
    // success exactly when the body parses, both headers accept their
    // values and the whole session succeeds
    ensures r.err.None? <==> Loads(body).Some? && HeadersAccepted(sender, Loads(body).value) && smtp == SmtpOk
    // a malformed payload is an error and sends nothing
    ensures Loads(body).None? ==> r == Notified(Some(Malformed), None)
    // a From or To value spanning several lines is an error and sends nothing
    ensures Loads(body).Some? && !HeadersAccepted(sender, Loads(body).value) ==>
              r == Notified(Some(BadHeader), None)
    // transport failures come back as values
    ensures Loads(body).Some? && HeadersAccepted(sender, Loads(body).value) && smtp != SmtpOk ==>
              r.err == Some(Transport)
    // a mail is handed to the server unless the payload, a header or the
    // session failed first
    ensures r.sent.Some? <==> Loads(body).Some? && HeadersAccepted(sender, Loads(body).value) && smtp != FailsBeforeSend
    // what is sent: from the sender, to the job's user, announcing its mp3 id
    ensures r.sent.Some? ==>
              var m := Loads(body).value;
              && r.sent.value.mailFrom == sender
              && r.sent.value.rcptTo == m.username
              && r.sent.value.mail == Mail(SUBJECT, sender, m.username, ReadyText(m.mp3Fid))
  {
    match Loads(body)
    case None => Notified(Some(Malformed), None)
    case Some(m) =>
      if !HeadersAccepted(sender, m) then Notified(Some(BadHeader), None) else
      var mail := Mail(SUBJECT, sender, m.username, ReadyText(m.mp3Fid));
      match smtp
      case SmtpOk => Notified(None, Some(Envelope(sender, m.username, mail)))
      case FailsBeforeSend => Notified(Some(Transport), None)
      case FailsAfterSend => Notified(Some(Transport), Some(Envelope(sender, m.username, mail)))
  }
}
