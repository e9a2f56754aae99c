/** The converter's `to_mp3.start`: fetch the video named by a job, extract
    its audio, store the mp3, publish the job with `mp3_fid` set, and delete
    the mp3 again if that publish fails. */
module ToMp3 {
  import opened Base
  import opened ObjectIds
  import opened Messages
  import opened Worlds

  /** What MoviePy does with a video: an mp3 encoding of its audio track,
      or the step at which it raised (`VideoFileClip(...).audio`, or
      `audio.write_audiofile(...)`, which also covers a clip with no audio). */
  datatype Transcoding = Mp3(data: Bytes) | ExtractError | EncodeError

  const PUBLISH_FAILED: string := "failed to publish message"

  /** The completion message: the incoming job with `mp3_fid` set. */
  function Completed(job: Msg, mp3: Id): (m: Msg)
    ensures m.videoFid == job.videoFid && m.username == job.username
    ensures m.mp3Fid == Some(IdString(mp3))
  {
    job.(mp3Fid := Some(IdString(mp3)))
  }

  /** The video a job names, when its payload parses, its `video_fid` is an
      ObjectId and that video is stored. */
  function Source(w: World, body: Body): (r: Option<Id>)
    ensures r.Some? ==> r.value in w.videos
  {
    match Loads(body)
    case None => None
    case Some(job) =>
      match ParseObjectId(job.videoFid)
      case None => None
      case Some(vid) => if vid in w.videos then Some(vid) else None
  }

  /** The job names a stored video whose audio MoviePy extracts and encodes. */
  predicate Convertible(w: World, body: Body, convert: Bytes -> Transcoding)
  {
    Source(w, body).Some? && convert(w.videos[Source(w, body).value]).Mp3?
  }

  /** The encoded mp3 of a convertible job. */
  function Audio(w: World, body: Body, convert: Bytes -> Transcoding): Bytes
    requires Convertible(w, body, convert)
  {
    convert(w.videos[Source(w, body).value]).data
  }

  /** `start(message, fs_videos, fs_mp3s, channel)`: `None` on success,
      "failed to publish message" after a rolled-back publish; every other
      failure is an exception. */
  function Start(w: World, body: Body, convert: Bytes -> Transcoding, fx: Effects): (r: Step<Option<string>>)
    requires FreshIn(fx, w.mp3s)
    // the video side is only read
    ensures r.world.videos == w.videos && r.world.videoQueue == w.videoQueue
    ensures Keeps(w.mp3s, r.world.mp3s)
    // only None or the publish-failure string is ever returned
    ensures r.outcome.Return? ==> r.outcome.value in {None, Some(PUBLISH_FAILED)}
    // a bad payload, id, fetch, extraction or encoding raises before any mp3 write
    ensures Loads(body).None? ==> r == Step(Raise(BadPayload), w)
    ensures Loads(body).Some? && ParseObjectId(Loads(body).value.videoFid).None? ==>
              r == Step(Raise(InvalidId), w)
    ensures Loads(body).Some? && ParseObjectId(Loads(body).value.videoFid).Some?
            && ParseObjectId(Loads(body).value.videoFid).value !in w.videos ==>
              r == Step(Raise(NoSuchFile), w)
    ensures Source(w, body).Some? && convert(w.videos[Source(w, body).value]).ExtractError? ==>
              r == Step(Raise(ExtractFailed), w)
    ensures Source(w, body).Some? && convert(w.videos[Source(w, body).value]).EncodeError? ==>
              r == Step(Raise(WriteFailed), w)
    ensures Convertible(w, body, convert) && fx.put.PutFailed? ==> r == Step(Raise(StoreFailed), w)
    // a value is returned only once the mp3 has been stored
    ensures r.outcome.Return? ==> Convertible(w, body, convert) && fx.put.Stored?
    ensures r.outcome.Raise? && r.outcome.failure != DeleteFailed ==> r.world == w
    ensures r.outcome.Raise? ==> r.world.mp3Queue == w.mp3Queue
    // success: the mp3 is stored under the new id and exactly one persistent
    // message, the job with mp3_fid naming that id, is published
    ensures r.outcome == Return(None) <==> Convertible(w, body, convert) && fx.put.Stored? && fx.publishOk
    ensures r.outcome == Return(None) ==>
              && r.world.mp3s == w.mp3s[fx.put.id := Audio(w, body, convert)]
              && r.world.mp3Queue == w.mp3Queue
                   + [Publication(Dumps(Completed(Loads(body).value, fx.put.id)), PERSISTENT_DELIVERY_MODE)]
    // failed publish: the mp3 is deleted again and the world is as before
    ensures r.outcome == Return(Some(PUBLISH_FAILED)) ==> r.world == w
    ensures Convertible(w, body, convert) && fx.put.Stored? && !fx.publishOk && fx.deleteOk ==>
              r == Step(Return(Some(PUBLISH_FAILED)), w)
    // a failing compensating delete escapes, with the mp3 still stored
    ensures Convertible(w, body, convert) && fx.put.Stored? && !fx.publishOk && !fx.deleteOk ==>
              && r.outcome == Raise(DeleteFailed)
              && r.world.mp3s == w.mp3s[fx.put.id := Audio(w, body, convert)]
    ensures r.outcome.Return? ==> NoOrphan(w.mp3s, r.world.mp3s, r.world.mp3Queue[|w.mp3Queue|..], Mp3Ref)
    ensures Extends(w.mp3Queue, r.world.mp3Queue)
  {
    NothingSentNoOrphan(w.mp3s, w.mp3Queue, Mp3Ref);
    match Fetch(w, body)
    case Raise(f) => Step(Raise(f), w)
    case Return(job) => Transcode(w, job, Source(w, body).value, convert, fx)
  }

  /** The first lines of `start`: parse the job and look its video up. */
  function Fetch(w: World, body: Body): (r: Outcome<Msg>)
    ensures r.Return? <==> Source(w, body).Some?
    ensures r.Return? ==> Loads(body) == Some(r.value)
    ensures Loads(body).None? ==> r == Raise(BadPayload)
    ensures Loads(body).Some? && ParseObjectId(Loads(body).value.videoFid).None? ==> r == Raise(InvalidId)
    ensures Loads(body).Some? && ParseObjectId(Loads(body).value.videoFid).Some?
            && ParseObjectId(Loads(body).value.videoFid).value !in w.videos ==>
              r == Raise(NoSuchFile)
  {
    match Loads(body)
    case None => Raise(BadPayload)
    case Some(job) =>
      match ParseObjectId(job.videoFid)
      case None => Raise(InvalidId)
      case Some(vid) => if vid !in w.videos then Raise(NoSuchFile) else Return(job)
  }

  /** The part of `start` after the video `vid` was fetched: extract and
      encode its audio, then store and publish the mp3. */
  function Transcode(w: World, job: Msg, vid: Id, convert: Bytes -> Transcoding, fx: Effects): (r: Step<Option<string>>)
    requires vid in w.videos && FreshIn(fx, w.mp3s)
    ensures r.world.videos == w.videos && r.world.videoQueue == w.videoQueue
    ensures Keeps(w.mp3s, r.world.mp3s) && Extends(w.mp3Queue, r.world.mp3Queue)
    ensures convert(w.videos[vid]).ExtractError? ==> r == Step(Raise(ExtractFailed), w)
    ensures convert(w.videos[vid]).EncodeError? ==> r == Step(Raise(WriteFailed), w)
    ensures convert(w.videos[vid]).Mp3? && fx.put.PutFailed? ==> r == Step(Raise(StoreFailed), w)
    ensures convert(w.videos[vid]).Mp3? && fx.put.Stored? ==>
              r == PublishMp3(w, job, fx.put.id, convert(w.videos[vid]).data, fx)
  {
    match convert(w.videos[vid])
    case ExtractError => Step(Raise(ExtractFailed), w)
    case EncodeError => Step(Raise(WriteFailed), w)
    case Mp3(data) =>
      match fx.put
      case PutFailed => Step(Raise(StoreFailed), w)
      case Stored(id) => PublishMp3(w, job, id, data, fx)
  }

  /** The tail of `start` once the mp3 `data` is stored under the new `id`:
      publish the completion message, and delete the mp3 again if that
      publish fails. */
  function PublishMp3(w: World, job: Msg, id: Id, data: Bytes, fx: Effects): (r: Step<Option<string>>)
    requires id !in w.mp3s
    ensures r.world.videos == w.videos && r.world.videoQueue == w.videoQueue
    ensures Keeps(w.mp3s, r.world.mp3s) && Extends(w.mp3Queue, r.world.mp3Queue)
    ensures fx.publishOk ==>
              && r.outcome == Return(None)
              && r.world.mp3s == w.mp3s[id := data]
              && r.world.mp3Queue == w.mp3Queue + [Publication(Dumps(Completed(job, id)), PERSISTENT_DELIVERY_MODE)]
              && NoOrphan(w.mp3s, r.world.mp3s, r.world.mp3Queue[|w.mp3Queue|..], Mp3Ref)
    ensures !fx.publishOk && fx.deleteOk ==> r == Step(Return(Some(PUBLISH_FAILED)), w)
    ensures !fx.publishOk && !fx.deleteOk ==>
              r == Step(Raise(DeleteFailed), w.(mp3s := w.mp3s[id := data]))
  {
    var stored := w.mp3s[id := data];
    if fx.publishOk then
      var sent := [Publication(Dumps(Completed(job, id)), PERSISTENT_DELIVERY_MODE)];
      var w' := w.(mp3s := stored, mp3Queue := w.mp3Queue + sent);
      assert w'.mp3Queue[|w.mp3Queue|..] == sent;
      Mp3IsNamed(w.mp3s, stored, sent, job, id);
      Step(Return(None), w')
    else if fx.deleteOk then
      assert stored - {id} == w.mp3s;
      Step(Return(Some(PUBLISH_FAILED)), w.(mp3s := stored - {id}))
    else
      Step(Raise(DeleteFailed), w.(mp3s := stored))
  }

  lemma Mp3IsNamed(before: Store, after: Store, sent: seq<Publication>, job: Msg, id: Id)
    requires id !in before && after.Keys == before.Keys + {id}
    requires sent == [Publication(Dumps(Completed(job, id)), PERSISTENT_DELIVERY_MODE)]
    ensures NoOrphan(before, after, sent, Mp3Ref)
  {
    forall other: Id
      ensures (other in after && other !in before) <==> Named(sent, Mp3Ref, other)
    {
      IdStringInjective(id, other);
      if Named(sent, Mp3Ref, other) {
        assert sent[0].body.msg.mp3Fid == Some(IdString(other));
      }
      if other == id {
        assert Mp3Ref(sent[0].body.msg) == Some(IdString(other));
      }
    }
  }

  /** The published `mp3_fid` parses back to an id whose blob is in the mp3
      store at the moment of publishing. */
  lemma PublishedMp3IsStored(w: World, body: Body, convert: Bytes -> Transcoding, fx: Effects)
    requires FreshIn(fx, w.mp3s)
    requires Start(w, body, convert, fx).outcome == Return(None)
    ensures var w' := Start(w, body, convert, fx).world;
            && |w'.mp3Queue| == |w.mp3Queue| + 1
            && var m := w'.mp3Queue[|w.mp3Queue|].body.msg;
            && m.mp3Fid.Some?
            && ParseObjectId(m.mp3Fid.value).Some?
            && ParseObjectId(m.mp3Fid.value).value in w'.mp3s
  {
    ParseIdString(fx.put.id);
  }
}
