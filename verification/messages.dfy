/** The job message the services pass through RabbitMQ, and the
    acknowledgements a consumer sends back for a delivery. */
module Messages {
  import opened Base

  /** The JSON object `{"video_fid": ..., "mp3_fid": ..., "username": ...}`.
      `mp3Fid` is `None` (JSON null) until the converter has stored the mp3. */
  datatype Msg = Msg(videoFid: string, mp3Fid: Option<string>, username: string)

  /** A delivered message body: the JSON text of a `Msg`, or bytes that
      `json.loads` rejects or that lack one of the three keys. */
  datatype Body = Json(msg: Msg) | Unparsable

  /** `json.dumps(message)`; a dict of strings and None always serialises. */
  function Dumps(m: Msg): (b: Body)
    ensures Loads(b) == Some(m)
  {
    Json(m)
  }

  /** `json.loads(body)` followed by the key lookups the consumers make. */
  function Loads(b: Body): Option<Msg>
  {
    match b
    case Json(m) => Some(m)
    case Unparsable => None
  }

  /** pika's `PERSISTENT_DELIVERY_MODE`: the broker writes the message to disk. */
  const PERSISTENT_DELIVERY_MODE: nat := 2

  /** One `basic_publish` that the broker accepted. */
  datatype Publication = Publication(body: Body, deliveryMode: nat)

  /** What a consumer callback says to the broker about one delivery. */
  datatype Signal = Ack(deliveryTag: nat) | Nack(deliveryTag: nat)

  /** The end of one callback: the signals it sent, in order, and the
      exception that escaped it, if any. */
  datatype Handled = Handled(signals: seq<Signal>, escaped: Option<Failure>)

  /** The broker is told exactly one thing about delivery `tag`, and nothing escapes. */
  predicate SettledOnce(h: Handled, tag: nat)
  {
    h.escaped.None? && |h.signals| == 1 && h.signals[0].deliveryTag == tag
  }
}
