# Video-to-mp3 pipeline: a Dafny model of its sequential core

The system converts uploaded videos to mp3 files through a RabbitMQ job
pipeline. The gateway stores an uploaded video in GridFS and publishes a job
on the "video" queue. The converter turns the video into an mp3, stores it,
and publishes the completed job on the mp3 queue. The notification service
emails the user that the mp3 is ready. A fourth piece is a build script:
`generate_init_sql.py` fills the auth database's SQL template from
environment variables.

This project models the sequential logic of those pieces as pure functions:

- **Store then publish, with a compensating delete.** This covers the
  gateway's `util.upload` and the converter's `to_mp3.start`. The world is two
  blob stores (`map<Id, Bytes>`) and two queues (`seq<Publication>`). Every
  external outcome is a parameter: the put (a fresh id, or a failure), the
  publish and the delete (succeed or fail), and MoviePy (an uninterpreted
  `Bytes -> Transcoding`). An escaping exception is a `Raise` outcome. The
  central property is "no orphan": after any call that returns, a blob is new
  exactly when a message published by that call names it.
- **Ack/nack decisions.** These are the two consumer callbacks and
  `email.notification`.
- **Gateway request classification.** This covers `validate.token`,
  `access.login` and the `login`, `upload` and `download` handlers. Each is a
  decision from abstract inputs to a response.
- **Placeholder substitution.** `Replace` models Python's `str.replace`. A
  lemma relates it to an independent `split`/`join` reference.
  `GenerateInitSql` is the script's loop.

GridFS ids are modelled as bson ObjectIds: 96-bit numbers whose `str()` is
24 lower-case hexadecimal digits. `ObjectId(s)` parses 24 hexadecimal digits
of either case. So "the message names the blob" is a proved round trip
rather than an assumption.

Three behaviours of the code as written are worth stating, because its own
comments suggest otherwise:

- The converter's comment (python/src/converter/consumer.py:47-48) presents
  `basic_nack` as the way a failure is signalled. But when the audio cannot be
  extracted or encoded, `to_mp3.start` raises. Extraction fails with a
  `RuntimeError` (python/src/converter/convert/to_mp3.py:45). Encoding fails
  with a `FileNotFoundError`: line 54 removes the video temp file, and the
  `finally` at line 58 removes it again, which replaces the `RuntimeError`
  raised at line 55. The callback does not catch either exception
  (python/src/converter/consumer.py:44). So no ack or nack is sent, and the
  exception leaves `start_consuming`.
  `ConverterConsumer.TransformErrorEscapes` states this.
- The rollback (python/src/gateway/storage/util.py:36,
  python/src/converter/convert/to_mp3.py:80) is a bare delete. If the delete
  itself raises, the exception propagates. The model returns
  `Raise(DeleteFailed)` and keeps the blob (see "Left out").
- The upload rolls back the stored video when the publish fails
  (python/src/gateway/storage/util.py:36). But `access["username"]` is read
  after the put and outside any `try` (python/src/gateway/storage/util.py:19).
  So a token without a "username" claim raises KeyError and leaves the stored
  video with no job.
  `Storage.MissingUsernameLeavesVideo` states this. No-orphan holds on every
  path that returns.

## Model

| member | source | states |
|---|---|---|
| `ObjectIds.ParseIdString` | python/src/converter/convert/to_mp3.py:35 | `ObjectId(str(fid))` gives back `fid`. So the `video_fid` string a job carries leads the converter to exactly the video that was stored. |
| `ObjectIds.IdStringInjective` | python/src/gateway/storage/util.py:17 | Two ids have the same `str()` only if they are the same id. So a message names at most one blob. |
| `Messages.Dumps` | python/src/gateway/storage/util.py:28 | `json.loads(json.dumps(message))` gives back the message. |
| `Http.Classify` | python/src/gateway/auth/validate.py:34-38 | A 200 answer gives `(text, None)`. Any other status gives `(None, (text, status))`. An unreachable service gives `(None, ("auth service unreachable", 500))`. Exactly one component is `None`. |
| `Storage.Upload` | python/src/gateway/storage/util.py:4-37 | The mp3 side is never touched, and no existing video is lost or altered. A failed put returns ("internal server error", 500) with the world unchanged and nothing published. It returns `None` iff the put, the username lookup and the publish all succeed. In that case the store gains exactly the new id and the "video" queue gains exactly one persistent job `{video_fid: str(fid), mp3_fid: None, username}`. When the publish fails and the compensating delete succeeds, exactly the new id is deleted, the whole world equals its pre-call state, and 500 is returned. Exactly two exceptions escape, both after a successful put and both leaving the new video stored: `MissingUsername` when the token has no "username" claim, and `DeleteFailed` when the publish and then the delete fail. No orphan on every returning path. |
| `Storage.PublishVideo` | python/src/gateway/storage/util.py:22-37 | The tail of `upload` after a put under a fresh id. If the publish succeeds, it returns `None`: the store gains the file under that id, one persistent job naming it is queued, and no orphan is left. If the publish fails and the delete succeeds, the world is as before the put and 500 is returned. If the delete fails too, `DeleteFailed` escapes with the video stored. Stored videos are kept and the queue is only appended to. |
| `Storage.MissingUsernameLeavesVideo` | python/src/gateway/storage/util.py:8-19 | As written, a token without a "username" claim raises after the put. The new video is left stored and no job names it. |
| `ToMp3.Completed` | python/src/converter/convert/to_mp3.py:67 | The outgoing message keeps `video_fid` and `username` and sets `mp3_fid` to `str(fid)`. |
| `ToMp3.Start` | python/src/converter/convert/to_mp3.py:18-81 | The video store and the "video" queue are never modified. No existing mp3 is lost. Each early failure raises its own exception with the world unchanged: a bad payload, an invalid video id, an unknown video, an extraction failure, an encoding failure, and a failed mp3 put. A value is returned only after the mp3 was stored. It returns `None` iff every step succeeds. Then the mp3 store gains exactly the converted bytes under the new id, and exactly one persistent message appears on the mp3 queue: the job with `mp3_fid` naming the new mp3. When the publish fails and the delete works, it returns "failed to publish message" with the world as it was. When the delete also fails, the exception escapes with the mp3 still stored. No other value is returned. No orphan on every returning path. |
| `ToMp3.Fetch` | python/src/converter/convert/to_mp3.py:30-37 | The job is read on only when its payload parses, its `video_fid` is an ObjectId and that video is stored. Otherwise the failing step's exception is raised: a bad payload, an invalid id, or a missing file. |
| `ToMp3.Transcode` | python/src/converter/convert/to_mp3.py:39-63 | After the fetch, a failed extraction, a failed encoding and a failed mp3 put each raise their own exception with the world unchanged. A stored mp3 moves on to the publish. The video side is untouched, stored mp3s are kept and the mp3 queue is only appended to. |
| `ToMp3.PublishMp3` | python/src/converter/convert/to_mp3.py:66-81 | The tail of `start` after the mp3 put under a fresh id. If the publish succeeds, it returns `None`: the store gains the mp3, one persistent completion message naming it is queued, and no orphan is left. If the publish fails and the delete succeeds, it returns "failed to publish message" with the world as before the put. If the delete fails too, `DeleteFailed` escapes with the mp3 stored. |
| `ToMp3.PublishedMp3IsStored` | python/src/converter/convert/to_mp3.py:63-78 | The published `mp3_fid` parses to an id whose blob is in the mp3 store when the message is published. |
| `ConverterConsumer.Callback` | python/src/converter/consumer.py:38-52 | When `start` returns, exactly one signal carrying this delivery's tag is sent: a nack if the result is truthy, an ack if it is falsy. When `start` raises, no signal is sent and the exception escapes. The world is what `start` left. |
| `ConverterConsumer.AckIffPublished` | python/src/converter/consumer.py:44-52 | The ack is sent iff the job names a stored, convertible video, the mp3 put succeeded and the publish succeeded. The nack is sent iff all of that held except that the publish failed and the compensating delete succeeded. Apart from a failed delete, an unacked delivery leaves the world unchanged. |
| `ConverterConsumer.TransformErrorEscapes` | python/src/converter/convert/to_mp3.py:40-58 | An extraction or encoding failure never acks and never writes the mp3 store. As written, it does not nack either. The exception escapes the callback: a RuntimeError after a failed extraction, and a FileNotFoundError from the `finally` after a failed encoding. |
| `Email.ReadyText` | python/src/notification/send/email.py:29 | The body is "mp3 file_id: {mp3_fid} is now ready!", with Python's rendering of `None`. The id appears verbatim after the prefix. |
| `Email.ReadyTextIdentifies` | python/src/notification/send/email.py:29 | Two mail texts are equal iff the mp3 ids they render are equal, so the mail identifies the mp3. |
| `Email.SplitLines` | python/src/notification/send/email.py:31-32 | Python's `str.splitlines`, which the message's header policy applies to each assigned value. The result is empty only for the empty string. A string with no line boundary is one line. |
| `Email.RejectedHeaderIff` | python/src/notification/send/email.py:31-32 | The header policy's line check refuses a From or To value iff some line boundary in the value is followed by more text. `\r\n` counts as one boundary, and a single trailing boundary is accepted. |
| `Email.SingleLineAccepted` | python/src/notification/send/email.py:31-32 | A value with no line boundary passes the header policy's line check. Such a value has no CR or LF either, so the address parser does not refuse it. |
| `Email.Notification` | python/src/notification/send/email.py:8-46 | It returns `None` iff the payload parses, the sender and the username are both accepted as header values, and the whole SMTP session succeeds. A malformed payload returns an error and sends nothing. A sender or username spanning several lines makes the header assignment raise, which is returned as an error with nothing sent. A transport failure is returned as an error value, never raised. A mail is handed over unless the payload, a header or the session failed before `send_message`. It goes from GMAIL_ADDRESS to the message's username, with subject "MP3 Download", From the sender, To the username, and the ready text. |
| `NotificationConsumer.Callback` | python/src/notification/consumer.py:16-23 | Every delivery ends in exactly one ack or nack carrying its tag, and nothing escapes. It is a nack iff `notification` returned an error. |
| `NotificationConsumer.AckMeansMailed` | python/src/notification/send/email.py:35-46 | A delivery is acked iff its mail was sent and the session closed cleanly. If only `quit` fails for a payload whose headers are accepted, the mail has gone out and the delivery is still nacked. |
| `Validate.Token` | python/src/gateway/auth/validate.py:7-38 | A missing or empty Authorization header gives `(None, ("missing credentials", 401))`. Otherwise the header is forwarded unchanged and the service outcome is classified: unreachable gives 500, 200 gives the text, any other status gives `(text, status)`. Exactly one component is `None` on every path. |
| `Validate.NoCallWithoutHeader` | python/src/gateway/auth/validate.py:9-17 | Without a usable header the result does not depend on the auth service, so it is not consulted. |
| `Access.Login` | python/src/gateway/auth_svc/access.py:9-35 | Missing credentials give `(None, ("missing credentials", 401))`. Otherwise `(username, password)` is forwarded unchanged and the outcome is classified as in `Http.Classify`. Exactly one component is `None` on every path. |
| `Access.ForwardsCredentialsOnly` | python/src/gateway/auth_svc/access.py:16-23 | The result depends only on the service's answer to the request's own credentials. |
| `Gateway.Login` | python/src/gateway/server.py:38-44 | It returns the token with status 200 when there is no error, otherwise the error unchanged. Missing credentials give ("missing credentials", 401). The status is 200 iff credentials were sent and the auth service answered them with 200, and then the body is the service's text. |
| `Gateway.Upload` | python/src/gateway/server.py:49-74 | A token error is returned unchanged before any other check, with the world unchanged. A non-admin gets ("not authorized", 401) whatever the file count. `files` holds the first file of each form field, because `len(request.files)` counts form fields and `items()` yields one file per field. An admin whose request has a number of file fields other than 1 gets ("exactly 1 file required", 400) with no storage call. With one field, `util.upload` runs once, on that field's first file: its error is returned, its exception escapes, and otherwise the response is ("success!", 200). |
| `Gateway.UploadTouchesNothingUnlessAdminWithOneFile` | python/src/gateway/server.py:50-74 | The world changes only for a validated admin request with exactly one file field. |
| `Gateway.UploadSuccessPublishesOneJob` | python/src/gateway/server.py:64-71 | A 200 upload stored exactly the first file of its one file field under a new id. It published exactly one persistent job naming that id and the token's username. |
| `Gateway.Download` | python/src/gateway/server.py:79-100 | A token error is returned unchanged. A non-admin gets 401. An admin with a missing or empty fid gets ("fid is required", 400). An invalid or unknown fid gives ("internal server error", 500). Otherwise the mp3 stored under that id is sent as "{fid}.mp3". |
| `InitSql.Split` | python/src/auth/generate_init_sql.py:31 | The reference for `str.replace` is `str.split`. Its pieces joined with the placeholder give back the string. No occurrence starts inside a piece, not even one running into the following separator. So the separators are the leftmost non-overlapping occurrences. |
| `InitSql.Replace` | python/src/auth/generate_init_sql.py:31 | `str.replace` changes the length by `len(v) - len(p)` once for each separator that `str.split` finds, and in no other way. |
| `InitSql.ReplaceIsJoinOfSplit` | python/src/auth/generate_init_sql.py:31 | `s.replace(p, v) == v.join(s.split(p))`. Every leftmost non-overlapping occurrence is replaced, and the value is inserted verbatim without being rescanned. |
| `InitSql.ReplaceAbsent` | python/src/auth/generate_init_sql.py:31 | A string without the placeholder is returned unchanged. |
| `InitSql.ReplaceBySelf` | python/src/auth/generate_init_sql.py:31 | Replacing the placeholder with itself changes nothing. |
| `InitSql.SubstituteAll` | python/src/auth/generate_init_sql.py:27-31 | The file content is produced iff every key is set and non-empty. A failure names one of the keys, and that key is unset or empty. |
| `InitSql.FirstMissingKey` | python/src/auth/generate_init_sql.py:27-30 | The script fails iff some key is unset or empty. It then names the first such key in the order MYSQL_USER, MYSQL_HOST, MYSQL_PASSWORD, MYSQL_DB, whatever the template. |
| `InitSql.NoPlaceholdersUnchanged` | python/src/auth/generate_init_sql.py:27-35 | A template with none of the four placeholders is written unchanged. |
| `InitSql.EarlierValueIsRescanned` | python/src/auth/generate_init_sql.py:27-31 | Substitution is sequential. If the MYSQL_USER value is the MYSQL_HOST placeholder, the later step replaces it with the host value. |
| `InitSql.GenerateInitSql` | python/src/auth/generate_init_sql.py:27-35 | The loop computes the sequential substitution of the four keys in order. It stops with the key's error at the first unset key, and the file content exists only after the last key. |
| `Pipeline.UploadConvertNotifyDownload` | python/src/converter/convert/to_mp3.py:30-78 | Consider the job an upload publishes, delivered to the converter with a convertible video. It is acked. The completion message is `{video_fid: str(video id), mp3_fid: str(mp3 id), username}`. When the sender and the username contain no line boundary, the notification for it is acked and mailed to that user with the mp3 id. A download of that mp3 id returns the converted bytes. |
| `Pipeline.RedeliveryConvertsTwice` | python/src/converter/convert/to_mp3.py:60-78 | Delivering the same job twice converts it twice. The result is two distinct stored mp3s and two completion messages, in order, for the same video and user. |

## Left out

- Connection and handle setup is wiring and is not modelled. This covers the Mongo/GridFS clients, the pika connections, `basic_consume`/`start_consuming` and the Flask app (python/src/converter/consumer.py:13-66, python/src/notification/consumer.py:8-35, python/src/gateway/server.py:11-34). One callback call models one delivery.
- MoviePy's decoding and encoding is numeric work in a foreign library. It is the parameter `convert: Bytes -> Transcoding`, which records whether extraction or encoding failed.
- Temp files are filesystem I/O and are not modelled (python/src/converter/convert/to_mp3.py:34-37, 48-64). The code does not remove them on every path anyway: the video temp file is removed twice when writing fails, and the mp3 temp file leaks when the put raises. Writing and reading them is assumed to succeed.
- The SMTP session and the HTTP calls to the auth service are network clients. Only their outcomes are kept: `SmtpOutcome`, and `AuthCall` supplied as a function of what is forwarded.
- GridFS `get` is a lookup in the modelled store. A network failure during a read is not modelled; in the source it would raise like a missing file.
- The store state after a failed compensating delete is unknown. The model keeps the blob.
- Broker semantics are not modelled: requeue on nack, redelivery, several worker instances, and the broker's own durability. The persistent delivery mode is recorded on each publication.
- `Messages.Dumps`: JSON is modelled at the level of whole messages. A body is either a `Msg` or unparsable, and a body missing any of the three keys counts as unparsable.
- `ToMp3.Start`: a payload that lacks only "username" or "mp3_fid" raises `BadPayload` here. In the source, `start` reads only "video_fid" and would pass such a payload through to the mp3 queue.
- `ObjectIds.ParseIdString`: only the 24-hex-digit string form of an ObjectId is modelled. `bytes.fromhex` skipping whitespace inside a 24-character string is not.
- `Email.Notification`: GMAIL_ADDRESS is taken as a string. An unset variable, which the source would turn into some returned exception, is not modelled separately. GMAIL_PASSWORD matters only to the SMTP login, which is part of `SmtpOutcome`. `RejectedHeader` is the header policy's line check only. After that check, the address parser also refuses a From or To value whose local part or display name still contains CR or LF (for example "u\n"); that refusal is not modelled, so the model mails such a value where the source returns ValueError.
- `Email.RejectedHeaderIff`: it characterises the header policy's line check, not every way the From or To assignment can raise; the address parser's refusal of CR or LF left in an address's local part or display name is not modelled.
- The MP3_QUEUE and VIDEO_QUEUE environment variables are assumed to name the mp3 queue and the "video" queue, and to be distinct.
- `Gateway.Upload`: decoding the validated token with `json.loads(access)` is the total parameter `claimsOf`. A body that is not JSON, or has no "admin" key, raises in the source and Flask answers 500. That case is not modelled. Likewise, an escaped exception is returned as `Raise` rather than as Flask's 500 page.
- `Gateway.Download`: the `send_file` response is reduced to the bytes and the download name.
- `InitSql.Split`: `Replace` and `Split` require a non-empty pattern. The script only substitutes non-empty placeholders, and Python's behaviour for an empty pattern is not modelled.
- The dotenv loading, template read, file write and final print of `generate_init_sql.py` are I/O.
- python/src/auth/server.py is a stub login handler plus MySQL configuration. It is not part of this model.
- Logging (`print`, `traceback.print_exc`) is not modelled.
