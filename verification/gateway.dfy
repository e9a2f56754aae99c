/** The gateway's Flask handlers `login`, `upload` and `download`, as
    decisions from the request's parts and the services' outcomes to a
    response (and, for upload, to the changed world). */
module Gateway {
  import opened Base
  import opened ObjectIds
  import opened Messages
  import opened Worlds
  import opened Http
  import Validate
  import Access
  import Storage

  /** POST /login: the token on success, else the error unchanged. */
  function Login(auth: Option<Credentials>, service: Credentials -> AuthCall): (r: Response)
    ensures var p := Access.Login(auth, service);
            && (p.err.None? ==> r == Text(p.value.value, 200))
            && (p.err.Some? ==> r == p.err.value)
    ensures auth.None? ==> r == MISSING_CREDENTIALS
    // 200 exactly when the auth service accepted the credentials, carrying its token
    ensures r.Text? && r.status == 200 <==>
              auth.Some? && service(auth.value).Answered? && service(auth.value).status == 200
    ensures r.Text? && r.status == 200 ==> r.body == service(auth.value).text
  {
    var p := Access.Login(auth, service);
    if p.err.None? then Text(p.value.value, 200) else p.err.value
  }

  /** POST /upload. `claimsOf` decodes the validated token body
      (`json.loads(access)`). `request.files` is a multi-dict keyed by form
      field: its length counts fields and `items()` yields the first file of
      each, so `files` holds the first file of each form field. */
  function Upload(w: World, header: Option<string>, service: string -> AuthCall, claimsOf: string -> Claims,
                  files: seq<Bytes>, fx: Effects): (r: Step<Response>)
    requires FreshIn(fx, w.videos)
    // a token error is answered unchanged, before any other check
    ensures var t := Validate.Token(header, service);
            t.err.Some? ==> r == Step(Return(t.err.value), w)
    ensures var t := Validate.Token(header, service);
            t.err.None? ==>
              var access := claimsOf(t.value.value);
              // non-admins are refused whatever they sent
              && (!access.admin ==> r == Step(Return(Text("not authorized", 401)), w))
              // admins must send exactly one file; otherwise nothing is stored
              && (access.admin && |files| != 1 ==> r == Step(Return(Text("exactly 1 file required", 400)), w))
              // one file: one call to util.upload, whose error is passed on
              && (access.admin && |files| == 1 ==>
                    var s := Storage.Upload(w, files[0], access, fx);
                    && r.world == s.world
                    && (s.outcome == Return(None) <==> r.outcome == Return(Text("success!", 200)))
                    && (s.outcome.Return? && s.outcome.value.Some? ==> r.outcome == Return(s.outcome.value.value))
                    && (s.outcome.Raise? ==> r.outcome == Raise(s.outcome.failure)))
  {
    var t := Validate.Token(header, service);
    if t.err.Some? then Step(Return(t.err.value), w)
    else
      var access := claimsOf(t.value.value);
      if !access.admin then Step(Return(Text("not authorized", 401)), w)
      else if |files| != 1 then Step(Return(Text("exactly 1 file required", 400)), w)
      else
        var s := Storage.Upload(w, files[0], access, fx);
        match s.outcome
        case Raise(f) => Step(Raise(f), s.world)
        case Return(err) =>
          if err.Some? then Step(Return(err.value), s.world) else Step(Return(Text("success!", 200)), s.world)
  }

  /** GET /download?fid=...: the mp3 named `fid`, sent as "<fid>.mp3". */
  function Download(w: World, header: Option<string>, service: string -> AuthCall, claimsOf: string -> Claims,
                    fid: Option<string>): (r: Response)
    ensures var t := Validate.Token(header, service);
            && (t.err.Some? ==> r == t.err.value)
            && (t.err.None? && !claimsOf(t.value.value).admin ==> r == Text("not authorized", 401))
            && (t.err.None? && claimsOf(t.value.value).admin ==>
                  && (fid.None? || fid == Some("") ==> r == Text("fid is required", 400))
                  && (fid.Some? && fid.value != "" ==>
                        match ParseObjectId(fid.value)
                        case None => r == INTERNAL_ERROR
                        case Some(id) => r == if id in w.mp3s then File(w.mp3s[id], fid.value + ".mp3") else INTERNAL_ERROR))
  {
    var t := Validate.Token(header, service);
    if t.err.Some? then t.err.value
    else if claimsOf(t.value.value).admin then
      if fid.None? || fid.value == "" then Text("fid is required", 400)
      else
        match ParseObjectId(fid.value)
        case None => INTERNAL_ERROR
        case Some(id) => if id in w.mp3s then File(w.mp3s[id], fid.value + ".mp3") else INTERNAL_ERROR
    else Text("not authorized", 401)
  }

  /** Only an admin upload of exactly one file that passes validation can
      change the world; every other request leaves it as it was. */
  lemma UploadTouchesNothingUnlessAdminWithOneFile(w: World, header: Option<string>, service: string -> AuthCall,
                                                   claimsOf: string -> Claims, files: seq<Bytes>, fx: Effects)
    requires FreshIn(fx, w.videos)
    requires Upload(w, header, service, claimsOf, files, fx).world != w
    ensures var t := Validate.Token(header, service);
            && t.err.None?
            && claimsOf(t.value.value).admin
            && |files| == 1
  {
  }

  /** An upload answered 200 put exactly one new video and one job naming
      it, from the token's username, on the "video" queue. */
  lemma UploadSuccessPublishesOneJob(w: World, header: Option<string>, service: string -> AuthCall,
                                     claimsOf: string -> Claims, files: seq<Bytes>, fx: Effects)
    requires FreshIn(fx, w.videos)
    requires Upload(w, header, service, claimsOf, files, fx).outcome == Return(Text("success!", 200))
    ensures var w' := Upload(w, header, service, claimsOf, files, fx).world;
            var user := claimsOf(Validate.Token(header, service).value.value).username;
            && |files| == 1 && fx.put.Stored? && user.Some?
            && w'.videos == w.videos[fx.put.id := files[0]]
            && w'.videoQueue == w.videoQueue
                 + [Publication(Dumps(Msg(IdString(fx.put.id), None, user.value)), PERSISTENT_DELIVERY_MODE)]
  {
  }
}
