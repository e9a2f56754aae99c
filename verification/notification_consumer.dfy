/** The notification service's consumer callback: nack when
    `email.notification` returns an error, ack when it returns None. */
module NotificationConsumer {
  import opened Base
  import opened Messages
  import opened Email

  /** `callback(ch, method, properties, body)` for delivery `tag`. */
  function Callback(tag: nat, body: Body, sender: string, smtp: SmtpOutcome): (r: (Handled, Option<Envelope>))
    // every delivery ends in exactly one ack or nack, since notification never raises
    ensures SettledOnce(r.0, tag)
    ensures r.0.signals[0].Nack? <==> Notification(body, sender, smtp).err.Some?
    ensures r.1 == Notification(body, sender, smtp).sent
  {
    var n := Notification(body, sender, smtp);
    // any exception object is truthy
    if n.err.Some? then (Handled([Nack(tag)], None), n.sent)
    else (Handled([Ack(tag)], None), n.sent)
  }

  /** A delivery is acked exactly when its mail went out and the session
      closed cleanly; a mail can go out and still be nacked (quit failed),
      which leads to a second mail on redelivery. */
  lemma AckMeansMailed(tag: nat, body: Body, sender: string, smtp: SmtpOutcome)
    ensures var (h, sent) := Callback(tag, body, sender, smtp);
            && (h.signals == [Ack(tag)] <==> sent.Some? && smtp == SmtpOk)
            && (smtp == FailsAfterSend && Loads(body).Some? && HeadersAccepted(sender, Loads(body).value) ==> h.signals == [Nack(tag)] && sent.Some?)
  {
  }
}
