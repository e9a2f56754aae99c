/** Properties of the whole pipeline: a video uploaded through the gateway,
    converted by the converter, announced by the notification service and
    fetched back through the gateway. */
module Pipeline {
  import opened Base
  import opened ObjectIds
  import opened Messages
  import opened Worlds
  import opened Http
  import Storage
  import ToMp3
  import ConverterConsumer
  import Email
  import NotificationConsumer
  import Validate
  import Gateway

  /** The job an upload publishes, delivered to the converter with a
      convertible video, is acked; the completion message names the stored
      mp3, keeps the video id and the user; when neither the sender nor the
      user contains a line boundary, the notification service mails that user
      the mp3 id; and a download of that id returns the mp3. */
  lemma UploadConvertNotifyDownload(w: World, file: Bytes, user: string, fxUp: Effects,
                                    convert: Bytes -> ToMp3.Transcoding, fxConv: Effects, tag: nat,
                                    sender: string, header: Option<string>, service: string -> AuthCall,
                                    claimsOf: string -> Claims)
    requires FreshIn(fxUp, w.videos) && fxUp.put.Stored? && fxUp.publishOk
    requires convert(file).Mp3?
    requires FreshIn(fxConv, w.mp3s) && fxConv.put.Stored? && fxConv.publishOk
    requires Email.SingleLine(sender) && Email.SingleLine(user)
    requires Validate.Token(header, service).err.None?
    requires claimsOf(Validate.Token(header, service).value.value).admin
    ensures var w1 := Storage.Upload(w, file, Claims(true, Some(user)), fxUp).world;
            var job := w1.videoQueue[|w.videoQueue|].body;
            var (h, w2) := ConverterConsumer.Callback(w1, tag, job, convert, fxConv);
            && h.signals == [Ack(tag)]
            && |w2.mp3Queue| == |w.mp3Queue| + 1
            && var done := w2.mp3Queue[|w.mp3Queue|].body.msg;
            && done == Msg(IdString(fxUp.put.id), Some(IdString(fxConv.put.id)), user)
            && var (n, mail) := NotificationConsumer.Callback(tag, Json(done), sender, Email.SmtpOk);
            && n.signals == [Ack(tag)]
            && mail.Some? && mail.value.rcptTo == user
            && mail.value.mail.content == Email.ReadyText(Some(IdString(fxConv.put.id)))
            && Gateway.Download(w2, header, service, claimsOf, done.mp3Fid)
               == File(convert(file).data, IdString(fxConv.put.id) + ".mp3")
  {
    var w1 := Storage.Upload(w, file, Claims(true, Some(user)), fxUp).world;
    var job := w1.videoQueue[|w.videoQueue|].body;
    ParseIdString(fxUp.put.id);
    ParseIdString(fxConv.put.id);
    Email.SingleLineAccepted(sender);
    Email.SingleLineAccepted(user);
    assert job == Json(Msg(IdString(fxUp.put.id), None, user));
    assert ToMp3.Start(w1, job, convert, fxConv).outcome == Return(None);
  }

  /** A redelivered job is converted again from scratch: each run stores its
      own mp3 and publishes its own completion message for the same video
      and user, and both mp3s stay stored. */
  lemma RedeliveryConvertsTwice(w: World, job: Msg, convert: Bytes -> ToMp3.Transcoding,
                                fx1: Effects, fx2: Effects, tag1: nat, tag2: nat)
    requires FreshIn(fx1, w.mp3s) && fx1.put.Stored? && fx1.publishOk
    requires ConverterConsumer.Callback(w, tag1, Json(job), convert, fx1).0.signals == [Ack(tag1)]
    requires var w1 := ConverterConsumer.Callback(w, tag1, Json(job), convert, fx1).1;
             FreshIn(fx2, w1.mp3s) && fx2.put.Stored? && fx2.publishOk
    ensures var w1 := ConverterConsumer.Callback(w, tag1, Json(job), convert, fx1).1;
            var (h2, w2) := ConverterConsumer.Callback(w1, tag2, Json(job), convert, fx2);
            && h2.signals == [Ack(tag2)]
            && fx1.put.id != fx2.put.id
            && fx1.put.id in w2.mp3s && fx2.put.id in w2.mp3s
            && w2.mp3Queue == w.mp3Queue
                 + [Publication(Json(ToMp3.Completed(job, fx1.put.id)), PERSISTENT_DELIVERY_MODE),
                    Publication(Json(ToMp3.Completed(job, fx2.put.id)), PERSISTENT_DELIVERY_MODE)]
  {
    ConverterConsumer.AckIffPublished(w, tag1, Json(job), convert, fx1);
    var w1 := ConverterConsumer.Callback(w, tag1, Json(job), convert, fx1).1;
    assert ToMp3.Source(w1, Json(job)) == ToMp3.Source(w, Json(job));
    assert ToMp3.Start(w1, Json(job), convert, fx2).outcome == Return(None);
  }
}
