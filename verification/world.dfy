/** The shared state the services act on: two GridFS stores and two durable
    queues, plus the outcomes of the external calls that change them. */
module Worlds {
  import opened Base
  import opened ObjectIds
  import opened Messages

  type Store = map<Id, Bytes>

  /** `videos` and `mp3s` are the two GridFS databases; `videoQueue` is the
      queue named "video" and `mp3Queue` the queue named by MP3_QUEUE. */
  datatype World = World(videos: Store, mp3s: Store, videoQueue: seq<Publication>, mp3Queue: seq<Publication>)

  /** What `fs.put(...)` did: stored the data under a new id, or raised. */
  datatype PutOutcome = Stored(id: Id) | PutFailed

  /** The outcomes of the three effectful calls of a store-then-publish step. */
  datatype Effects = Effects(put: PutOutcome, publishOk: bool, deleteOk: bool)

  /** GridFS hands out a new ObjectId on every put. */
  predicate FreshIn(fx: Effects, s: Store)
  {
    fx.put.Stored? ==> fx.put.id !in s
  }

  /** A call either returns a value or lets an exception escape. */
  datatype Outcome<+T> = Return(value: T) | Raise(failure: Failure)

  /** The outcome of a call together with the world it leaves behind. */
  datatype Step<+T> = Step(outcome: Outcome<T>, world: World)

  /** Every blob stored before is still stored, with the same contents. */
  ghost predicate Keeps(before: Store, after: Store)
  {
    forall id :: id in before ==> id in after && after[id] == before[id]
  }

  /** Storing a blob under a new id keeps every blob stored before. */
  lemma PutKeeps(s: Store, id: Id, data: Bytes)
    requires id !in s
    ensures Keeps(s, s[id := data])
  {
  }

  /** The blob ids a message refers to: its video, and its mp3 once set. */
  function VideoRef(m: Msg): Option<string>
  {
    Some(m.videoFid)
  }

  function Mp3Ref(m: Msg): Option<string>
  {
    m.mp3Fid
  }

  /** Some publication in `sent` names the blob `id` through `ref`. */
  ghost predicate Named(sent: seq<Publication>, ref: Msg -> Option<string>, id: Id)
  {
    exists i :: 0 <= i < |sent| && sent[i].body.Json? && ref(sent[i].body.msg) == Some(IdString(id))
  }

  /** No orphan: a blob is new in `after` exactly when a message sent in the
      same step names it. */
  ghost predicate NoOrphan(before: Store, after: Store, sent: seq<Publication>, ref: Msg -> Option<string>)
  {
    forall id: Id :: (id in after && id !in before) <==> Named(sent, ref, id)
  }

  /** A step that changes no store and sends nothing leaves no orphan. */
  lemma NothingSentNoOrphan(s: Store, q: seq<Publication>, ref: Msg -> Option<string>)
    ensures NoOrphan(s, s, q[|q|..], ref)
  {
    assert q[|q|..] == [];
  }

  /** `after` is `before` with zero or more publications appended. */
  predicate Extends(before: seq<Publication>, after: seq<Publication>)
  {
    |before| <= |after| && after[..|before|] == before
  }
}
