/**
 * The API router of src/handlers/api.ts (the same routing opens
 * src/worker.js): the method and path pick a handler, and the admin routes
 * other than login go through the bearer check first.
 */
module Api {
  import opened Wrappers
  import opened JsString
  import opened Uri
  import opened KvStore
  import opened DownloadTypes
  import opened Http
  import opened Turnstile
  import opened Ip
  import opened Gate
  import opened Auth
  import opened Downloads
  import opened DownloadHandlers
  import opened AdminHandlers

  datatype Route =
    | ListFiles                  // GET /api/files
    | AdminFiles                 // GET /api/admin/files
    | AdminLogin                 // POST /api/admin/login
    | AdminLink                  // POST /api/admin/link
    | AdminUpload                // POST /api/admin/upload
    | AdminDelete(id: string)    // DELETE /api/admin/files/<id>
    | VerifyPassword             // POST /api/verify-password
    | DownloadFile(encoded: string)  // GET /api/download/<encoded>
    | NoRoute

  predicate NoLineTerminator(s: string) {
    forall k :: 0 <= k < |s| ==> !IsLineTerminator(s[k])
  }

  /** The capture of `/^<prefix>(.+)$/`: `.` matches anything but a line
      terminator, and without the `m` flag `$` is the end of the input. */
  function RegexTail(path: string, prefix: string): (r: Option<string>)
    ensures r.Some? <==> StartsWith(path, prefix) && |path| > |prefix| && NoLineTerminator(path[|prefix|..])
    ensures r.Some? ==> path == prefix + r.value && r.value != ""
  {
    if StartsWith(path, prefix) && |path| > |prefix| && NoLineTerminator(path[|prefix|..]) then
      assert path == prefix + path[|prefix|..];
      Some(path[|prefix|..])
    else None
  }

  /** The tests of `handleApiRequest`, in their order. */
  function RouteOf(verb: string, path: string): (r: Route)
    ensures r == ListFiles <==> verb == "GET" && path == "/api/files"
    ensures r == AdminLogin <==> verb == "POST" && path == "/api/admin/login"
    ensures r == VerifyPassword <==> verb == "POST" && path == "/api/verify-password"
    ensures r == AdminFiles <==> verb == "GET" && path == "/api/admin/files"
    ensures r == AdminLink <==> verb == "POST" && path == "/api/admin/link"
    ensures r == AdminUpload <==> verb == "POST" && path == "/api/admin/upload"
    ensures r.AdminDelete? <==> verb == "DELETE" && RegexTail(path, "/api/admin/files/").Some?
    ensures r.AdminDelete? ==> path == "/api/admin/files/" + r.id && r.id != "" && NoLineTerminator(r.id)
    ensures r.DownloadFile? <==> verb == "GET" && RegexTail(path, "/api/download/").Some?
    ensures r.DownloadFile? ==> path == "/api/download/" + r.encoded && r.encoded != "" && NoLineTerminator(r.encoded)
  {
    if verb == "GET" && path == "/api/files" then ListFiles
    else if verb == "GET" && path == "/api/admin/files" then
      assert path[5] == 'a';
      AdminFiles
    else if verb == "POST" && path == "/api/admin/login" then AdminLogin
    else if verb == "POST" && path == "/api/admin/link" then AdminLink
    else if verb == "POST" && path == "/api/admin/upload" then AdminUpload
    else if verb == "DELETE" && RegexTail(path, "/api/admin/files/").Some? then AdminDelete(RegexTail(path, "/api/admin/files/").value)
    else if verb == "POST" && path == "/api/verify-password" then VerifyPassword
    else if verb == "GET" && RegexTail(path, "/api/download/").Some? then DownloadFile(RegexTail(path, "/api/download/").value)
    else NoRoute
  }

  /** The routes behind `requireAdminAuth`. */
  predicate Gated(route: Route) {
    route.AdminFiles? || route.AdminLink? || route.AdminUpload? || route.AdminDelete?
  }

  /** What the outside world answers during one request: the siteverify
      reply, whether `new URL(url)` parses, the token and the catalog id
      with its timestamp the handler draws, and `Date.now()`. */
  datatype World = World(reply: Reply, urlParses: bool, token: string, draw: Fresh, now: nat)

  function FromOutcome(o: Outcome, objects: Objects): Effect {
    Effect(o.store, objects, o.response)
  }

  /** The route's handler, once past any bearer check. */
  function Dispatch(variant: Variant, route: Route, m: Store, objects: Objects, env: Env, req: Request, world: World): Effect {
    match route
    case ListFiles => Effect(m, objects, Json(200, Listing(AllItemsIn(m))))
    case AdminFiles => Effect(m, objects, Json(200, Listing(AllItemsIn(m))))
    case AdminLogin => FromOutcome(GateOutcome(AdminScope, m, env, ClientIp(req.headers), SubmissionOf(req), world.reply, world.token), objects)
    case AdminLink => FromOutcome(LinkOutcome(m, req, world.urlParses, world.draw), objects)
    case AdminUpload => UploadEffect(m, objects, req, world.now, world.draw)
    case AdminDelete(id) => DeleteEffect(variant, m, objects, id)
    case VerifyPassword => FromOutcome(GateOutcome(DownloadScope, m, env, ClientIp(req.headers), SubmissionOf(req), world.reply, world.token), objects)
    case DownloadFile(encoded) =>
      // `decodeURIComponent` throws on a malformed escape, and the
      // rejection of `handleApiRequest` is not caught
      (match DecodeURIComponent(encoded)
       case None => Effect(m, objects, Uncaught)
       case Some(filename) => Effect(m, objects, DownloadResponse(variant, m, objects, Field(req.query, "token"), filename)))
    case NoRoute => Effect(m, objects, Json(404, Failure(NoSuchRoute)))
  }

  /** `handleApiRequest(request, env)`. */
  function ApiEffect(variant: Variant, m: Store, objects: Objects, env: Env, req: Request, world: World): (e: Effect)
    ensures Gated(RouteOf(req.verb, req.path)) && RequireAdminAuth(m, Header(req, "authorization")).Some? ==>
      e.store == m && e.objects == objects && e.response.Json? && e.response.status == 401
    ensures RouteOf(req.verb, req.path) == NoRoute ==> e == Effect(m, objects, Json(404, Failure(NoSuchRoute)))
    ensures RouteOf(req.verb, req.path).ListFiles? ==> e == Effect(m, objects, Json(200, Listing(AllItemsIn(m))))
  {
    var route := RouteOf(req.verb, req.path);
    var authError := RequireAdminAuth(m, Header(req, "authorization"));
    if Gated(route) && authError.Some? then Effect(m, objects, authError.value)
    else Dispatch(variant, route, m, objects, env, req, world)
  }

  method HandleApiRequest(variant: Variant, kv: Kv, bucket: Bucket, env: Env, req: Request, world: World) returns (resp: Response)
    modifies kv, bucket
    ensures Effect(kv.entries, bucket.objects, resp) == ApiEffect(variant, old(kv.entries), old(bucket.objects), env, req, world)
  {
    var route := RouteOf(req.verb, req.path);
    if Gated(route) {
      var authError := Authorise(kv, req);
      if authError.Some? {
        return authError.value;
      }
    }
    match route
    case ListFiles =>
      var items := GetAllItems(kv);
      return Json(200, Listing(items));
    case AdminFiles =>
      var items := GetAllItems(kv);
      return Json(200, Listing(items));
    case AdminLogin =>
      resp := HandleAdminLogin(kv, env, req, world.reply, world.token);
    case AdminLink =>
      resp := HandleAdminLink(kv, req, world.urlParses, world.draw);
    case AdminUpload =>
      resp := HandleAdminUpload(kv, bucket, req, world.now, world.draw);
    case AdminDelete(id) =>
      resp := HandleAdminDelete(variant, kv, bucket, id);
    case VerifyPassword =>
      resp := HandleVerifyPassword(kv, env, req, world.reply, world.token);
    case DownloadFile(encoded) =>
      var filename := DecodeURIComponent(encoded);
      if filename.None? {
        return Uncaught;
      }
      resp := HandleDownload(variant, kv, bucket, req, filename.value);
    case NoRoute =>
      return Json(404, Failure(NoSuchRoute));
  }

  // ---------------------------------------------------------------------
  // Properties

  /** The public listing needs no token and changes nothing. */
  lemma ListingIsPublic(variant: Variant, m: Store, objects: Objects, env: Env, req: Request, world: World)
    requires req.verb == "GET" && req.path == "/api/files"
    ensures ApiEffect(variant, m, objects, env, req, world) == Effect(m, objects, Json(200, Listing(AllItemsIn(m))))
  {
  }

  /** Without a live admin token every gated route answers the 401 of the
      bearer check, and neither the store nor the bucket changes. */
  lemma GatedRoutesNeedAdminToken(variant: Variant, m: Store, objects: Objects, env: Env, req: Request, world: World)
    requires Gated(RouteOf(req.verb, req.path))
    requires var t := BearerToken(Header(req, "authorization"));
      !Truthy(t) || !TextTruthy(Lookup(m, TokenKey(AdminScope, t.value)))
    ensures var e := ApiEffect(variant, m, objects, env, req, world);
      e.store == m && e.objects == objects && e.response.Json? && e.response.status == 401
  {
  }

  /** With a live admin token a gated route runs its handler. */
  lemma GatedRoutesRunWithAdminToken(variant: Variant, m: Store, objects: Objects, env: Env, req: Request, world: World)
    requires Gated(RouteOf(req.verb, req.path))
    requires var t := BearerToken(Header(req, "authorization"));
      Truthy(t) && TextTruthy(Lookup(m, TokenKey(AdminScope, t.value)))
    ensures ApiEffect(variant, m, objects, env, req, world) == Dispatch(variant, RouteOf(req.verb, req.path), m, objects, env, req, world)
  {
  }

  /** Admin login and the download password are not behind the bearer
      check: any `Authorization` header, or none, gives the same effect,
      and that effect is the scope's password gate. */
  lemma PasswordRoutesAreOpen(variant: Variant, m: Store, objects: Objects, env: Env, req: Request, world: World, h: string)
    requires RouteOf(req.verb, req.path) == AdminLogin || RouteOf(req.verb, req.path) == VerifyPassword
    ensures ApiEffect(variant, m, objects, env, req, world)
         == ApiEffect(variant, m, objects, env, req.(headers := req.headers["authorization" := h]), world)
    ensures RouteOf(req.verb, req.path) == AdminLogin ==>
      ApiEffect(variant, m, objects, env, req, world)
      == FromOutcome(GateOutcome(AdminScope, m, env, ClientIp(req.headers), SubmissionOf(req), world.reply, world.token), objects)
    ensures RouteOf(req.verb, req.path) == VerifyPassword ==>
      ApiEffect(variant, m, objects, env, req, world)
      == FromOutcome(GateOutcome(DownloadScope, m, env, ClientIp(req.headers), SubmissionOf(req), world.reply, world.token), objects)
  {
    var req2 := req.(headers := req.headers["authorization" := h]);
    assert ClientIp(req2.headers) == ClientIp(req.headers);
  }

  /** The delete route takes everything after the prefix as the id, `/`
      included; the bare collection path with DELETE matches nothing. */
  lemma DeleteRouteCapture()
    ensures RouteOf("DELETE", "/api/admin/files/a/b") == AdminDelete("a/b")
    ensures RouteOf("DELETE", "/api/admin/files/") == NoRoute
    ensures RouteOf("DELETE", "/api/admin/files") == NoRoute
  {
    assert RegexTail("/api/admin/files/a/b", "/api/admin/files/") == Some("a/b");
  }

  /** A link built with `encodeURIComponent(filename)` reaches the download
      handler with the filename itself. */
  lemma DownloadRouteDecodes(variant: Variant, m: Store, objects: Objects, env: Env, req: Request, world: World, filename: string)
    requires filename != ""
    requires req.verb == "GET" && req.path == "/api/download/" + EncodeURIComponent(filename)
    ensures ApiEffect(variant, m, objects, env, req, world)
         == Effect(m, objects, DownloadResponse(variant, m, objects, Field(req.query, "token"), filename))
  {
    EncodedRoute(filename);
    DecodeEncode(filename);
  }

  /** The path of an encoded filename routes to the download handler with
      the encoded text as the capture. */
  lemma EncodedRoute(filename: string)
    requires filename != ""
    ensures RouteOf("GET", "/api/download/" + EncodeURIComponent(filename)) == DownloadFile(EncodeURIComponent(filename))
  {
    var prefix := "/api/download/";
    var enc := EncodeURIComponent(filename);
    var path := prefix + enc;
    EncodedOutput(filename);
    assert path[..|prefix|] == prefix;
    assert path[|prefix|..] == enc;
    assert NoLineTerminator(enc) by {
      forall k | 0 <= k < |enc|
        ensures !IsLineTerminator(enc[k])
      {
        assert IsUriOutput(enc[k]);
      }
    }
    assert RegexTail(path, prefix) == Some(enc);
  }

  /** A download path whose rest holds a malformed escape gets no answer
      from the site: `decodeURIComponent` throws, the rejection escapes the
      `catch` of `fetch`, and the platform answers with its own error. */
  lemma MalformedDownloadPathUncaught(variant: Variant, m: Store, objects: Objects, env: Env, req: Request, world: World)
    requires RouteOf(req.verb, req.path).DownloadFile? && DecodeURIComponent(RouteOf(req.verb, req.path).encoded).None?
    ensures ApiEffect(variant, m, objects, env, req, world) == Effect(m, objects, Uncaught)
  {
  }

  /** `/api/download/%E0` is such a path: `%E0` opens a three-byte sequence
      that never comes. */
  lemma TruncatedEscapeUncaught(variant: Variant, m: Store, objects: Objects, env: Env, req: Request, world: World)
    requires req.verb == "GET" && req.path == "/api/download/%E0"
    ensures RouteOf(req.verb, req.path) == DownloadFile("%E0")
    ensures ApiEffect(variant, m, objects, env, req, world) == Effect(m, objects, Uncaught)
  {
    assert RegexTail(req.path, "/api/download/") == Some("%E0");
    MalformedDownloadPathUncaught(variant, m, objects, env, req, world);
  }

  /** Anything else is a 404 that changes nothing. */
  lemma UnknownRoute(variant: Variant, m: Store, objects: Objects, env: Env, req: Request, world: World)
    requires RouteOf(req.verb, req.path) == NoRoute
    ensures ApiEffect(variant, m, objects, env, req, world) == Effect(m, objects, Json(404, Failure(NoSuchRoute)))
  {
  }
}
