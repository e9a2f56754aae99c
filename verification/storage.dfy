/** The gateway's `util.upload`: put the video, publish a job for it on the
    "video" queue, and delete the video again if the publish fails. */
module Storage {
  import opened Base
  import opened ObjectIds
  import opened Messages
  import opened Worlds
  import opened Http

  /** The job published for a freshly stored video. */
  function Job(id: Id, user: string): Msg
  {
    Msg(IdString(id), None, user)
  }

  /** `upload(f, fs_videos, channel, access)`. Returns `None` on success or
      the error response; a missing username claim or a failing compensating
      delete escapes as an exception. */
  function Upload(w: World, file: Bytes, access: Claims, fx: Effects): (r: Step<Option<Response>>)
    requires FreshIn(fx, w.videos)
    // the mp3 side is never touched, and no stored video is lost or altered
    ensures r.world.mp3s == w.mp3s && r.world.mp3Queue == w.mp3Queue
    ensures Keeps(w.videos, r.world.videos)
    // a failed put answers 500 before anything is published
    ensures fx.put.PutFailed? ==> r == Step(Return(Some(INTERNAL_ERROR)), w)
    // success: one new video and exactly one persistent job naming it
    ensures r.outcome == Return(None) <==> fx.put.Stored? && access.username.Some? && fx.publishOk
    ensures r.outcome == Return(None) ==>
              && r.world.videos == w.videos[fx.put.id := file]
              && r.world.videoQueue == w.videoQueue
                   + [Publication(Dumps(Msg(IdString(fx.put.id), None, access.username.value)), PERSISTENT_DELIVERY_MODE)]
    // failed publish: the just-stored video is deleted and the world is as before
    ensures fx.put.Stored? && access.username.Some? && !fx.publishOk && fx.deleteOk ==>
              r == Step(Return(Some(INTERNAL_ERROR)), w)
    // the two exceptions: a missing username claim, and a failed delete after
    // a failed publish; either leaves the new video stored
    ensures fx.put.Stored? && access.username.None? ==> r.outcome == Raise(MissingUsername)
    ensures fx.put.Stored? && access.username.Some? && !fx.publishOk && !fx.deleteOk ==>
              r.outcome == Raise(DeleteFailed)
    ensures r.outcome.Raise? ==> fx.put.Stored? && r.world.videos == w.videos[fx.put.id := file]
    // the only error value ever returned is the 500 response
    ensures r.outcome.Return? && r.outcome.value.Some? ==> r.outcome.value == Some(INTERNAL_ERROR)
    // nothing is published unless the call returns None
    ensures r.outcome != Return(None) ==> r.world.videoQueue == w.videoQueue
    // no orphan on any returning path
    ensures Extends(w.videoQueue, r.world.videoQueue)
    ensures r.outcome.Return? ==> NoOrphan(w.videos, r.world.videos, r.world.videoQueue[|w.videoQueue|..], VideoRef)
  {
    NothingSentNoOrphan(w.videos, w.videoQueue, VideoRef);
    match fx.put
    case PutFailed => Step(Return(Some(INTERNAL_ERROR)), w)
    case Stored(id) =>
      var stored := w.videos[id := file];
      PutKeeps(w.videos, id, file);
      match access.username
      case None => Step(Raise(MissingUsername), w.(videos := stored))
      case Some(user) => PublishVideo(w, file, id, user, fx)
  }

  /** The tail of `upload` once `file` is stored under the new `id`: publish
      the job, and delete the video again if that publish fails. */
  function PublishVideo(w: World, file: Bytes, id: Id, user: string, fx: Effects): (r: Step<Option<Response>>)
    requires id !in w.videos
    ensures r.world.mp3s == w.mp3s && r.world.mp3Queue == w.mp3Queue
    ensures Keeps(w.videos, r.world.videos) && Extends(w.videoQueue, r.world.videoQueue)
    ensures fx.publishOk ==>
              && r.outcome == Return(None)
              && r.world.videos == w.videos[id := file]
              && r.world.videoQueue == w.videoQueue + [Publication(Dumps(Job(id, user)), PERSISTENT_DELIVERY_MODE)]
              && NoOrphan(w.videos, r.world.videos, r.world.videoQueue[|w.videoQueue|..], VideoRef)
    ensures !fx.publishOk && fx.deleteOk ==> r == Step(Return(Some(INTERNAL_ERROR)), w)
    ensures !fx.publishOk && !fx.deleteOk ==>
              r == Step(Raise(DeleteFailed), w.(videos := w.videos[id := file]))
  {
    var stored := w.videos[id := file];
    if fx.publishOk then
      var w' := w.(videos := stored, videoQueue := w.videoQueue + [Publication(Dumps(Job(id, user)), PERSISTENT_DELIVERY_MODE)]);
      UploadedIsNamed(w.videos, w'.videos, w'.videoQueue[|w.videoQueue|..], id, user);
      Step(Return(None), w')
    else if fx.deleteOk then
      assert stored - {id} == w.videos;
      Step(Return(Some(INTERNAL_ERROR)), w.(videos := stored - {id}))
    else
      Step(Raise(DeleteFailed), w.(videos := stored))
  }

  lemma UploadedIsNamed(before: Store, after: Store, sent: seq<Publication>, id: Id, user: string)
    requires id !in before && after.Keys == before.Keys + {id}
    requires sent == [Publication(Dumps(Job(id, user)), PERSISTENT_DELIVERY_MODE)]
    ensures NoOrphan(before, after, sent, VideoRef)
  {
    forall other: Id
      ensures (other in after && other !in before) <==> Named(sent, VideoRef, other)
    {
      IdStringInjective(id, other);
      if Named(sent, VideoRef, other) {
        assert sent[0].body.msg.videoFid == IdString(other);
      }
      if other == id {
        assert VideoRef(sent[0].body.msg) == Some(IdString(other));
      }
    }
  }

  /** As written, the job is built only after the put, so a token without a
      "username" claim raises KeyError with the new video still stored and
      no job naming it. */
  lemma MissingUsernameLeavesVideo(w: World, file: Bytes, fx: Effects)
    requires FreshIn(fx, w.videos) && fx.put.Stored?
    ensures var r := Upload(w, file, Claims(true, None), fx);
            && r.outcome == Raise(MissingUsername)
            && fx.put.id in r.world.videos && fx.put.id !in w.videos
            && r.world.videoQueue == w.videoQueue
  {
  }
}
