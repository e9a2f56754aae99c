/** The converter's consumer callback: run `to_mp3.start` on the delivered
    body, then nack a truthy result and ack a falsy one. */
module ConverterConsumer {
  import opened Base
  import opened ObjectIds
  import opened Messages
  import opened Worlds
  import opened ToMp3

  /** `callback(ch, method, properties, body)` for delivery `tag`. */
  function Callback(w: World, tag: nat, body: Body, convert: Bytes -> Transcoding, fx: Effects): (r: (Handled, World))
    requires FreshIn(fx, w.mp3s)
    ensures var s := Start(w, body, convert, fx);
            && r.1 == s.world
            // a returned error is nacked, a returned None acked, each once with this delivery's tag
            && (s.outcome.Return? ==> SettledOnce(r.0, tag))
            && (s.outcome.Return? ==> (r.0.signals[0].Nack? <==> Truthy(s.outcome.value)))
            // an exception from start passes through with no ack and no nack
            && (s.outcome.Raise? ==> r.0 == Handled([], Some(s.outcome.failure)))
  {
    var s := Start(w, body, convert, fx);
    match s.outcome
    case Raise(f) => (Handled([], Some(f)), s.world)
    case Return(err) =>
      if Truthy(err) then (Handled([Nack(tag)], None), s.world)
      else (Handled([Ack(tag)], None), s.world)
  }

  /** The callback acks exactly when the job was convertible, its mp3 stored
      and the completion published; it nacks exactly when that publish failed
      and the mp3 was deleted again. Short of a failing compensating delete,
      an unacked delivery leaves the world as it was. */
  lemma AckIffPublished(w: World, tag: nat, body: Body, convert: Bytes -> Transcoding, fx: Effects)
    requires FreshIn(fx, w.mp3s)
    ensures var (h, w') := Callback(w, tag, body, convert, fx);
            && (h.signals == [Ack(tag)] <==> Convertible(w, body, convert) && fx.put.Stored? && fx.publishOk)
            && (h.signals == [Nack(tag)] <==>
                  Convertible(w, body, convert) && fx.put.Stored? && !fx.publishOk && fx.deleteOk)
            && (h.signals == [Ack(tag)] ==> |w'.mp3Queue| == |w.mp3Queue| + 1)
            && (h.signals != [Ack(tag)] ==> w'.mp3Queue == w.mp3Queue)
            && (h.signals != [Ack(tag)] && h.escaped != Some(DeleteFailed) ==> w' == w)
  {
  }

  /** A video whose audio cannot be extracted or encoded is never acked and
      leaves the mp3 store alone; as written it is not nacked either: the
      exception (a RuntimeError after a failed extraction, a FileNotFoundError
      from the `finally` after a failed encoding) escapes the callback and
      `start_consuming`. */
  lemma TransformErrorEscapes(w: World, tag: nat, job: Msg, convert: Bytes -> Transcoding, fx: Effects)
    requires FreshIn(fx, w.mp3s)
    requires ParseObjectId(job.videoFid).Some? && ParseObjectId(job.videoFid).value in w.videos
    requires !convert(w.videos[ParseObjectId(job.videoFid).value]).Mp3?
    ensures var (h, w') := Callback(w, tag, Json(job), convert, fx);
            && h == Handled([], Some(if convert(w.videos[ParseObjectId(job.videoFid).value]).ExtractError?
                                     then ExtractFailed else WriteFailed))
            && w' == w
  {
  }
}
