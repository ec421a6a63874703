/**
 * The public handlers of src/handlers/download.ts: the download password
 * (`handleVerifyPassword`) and the token-checked file download
 * (`handleDownload`).
 */
module DownloadHandlers {
  import opened Wrappers
  import opened JsString
  import opened Uri
  import opened KvStore
  import opened DownloadTypes
  import opened Http
  import opened Attempts
  import opened Constants
  import opened Turnstile
  import opened Ip
  import opened Gate
  import opened Filename
  import opened Downloads

  /** `handleVerifyPassword`, step by step against the store. */
  method HandleVerifyPassword(kv: Kv, env: Env, req: Request, reply: Reply, token: string) returns (resp: Response)
    modifies kv
    ensures Outcome(kv.entries, resp) == GateOutcome(DownloadScope, old(kv.entries), env, ClientIp(req.headers), SubmissionOf(req), reply, token)
  {
    var sub := SubmissionOf(req);
    var ip := ClientIp(req.headers);
    var suffix := CounterSuffix(DownloadScope, ip);
    var attempts, refusal := RunChallenge(kv, env, suffix, sub, reply);
    if refusal.Some? {
      return refusal.value;
    }
    resp := Settle(kv, DownloadScope, env, suffix, attempts, sub.password, token);
  }

  // ---------------------------------------------------------------------
  // Download

  /** The value of `Content-Disposition` for a download named `name`. */
  function DispositionHeader(name: string): string {
    "attachment; filename*=UTF-8''" + EncodeRFC5987Value(name)
  }

  /** `item.originalName || item.filename`. */
  function DownloadName(item: Item, key: string): string {
    OrElse(item.originalName, key)
  }

  /** The headers of a download: the object's content type, when it has
      one, the disposition and `no-store`. */
  function DownloadHeaders(blob: Blob, name: string): (h: map<string, string>)
    ensures "content-type" in h <==> blob.contentType.Some?
    ensures blob.contentType.Some? ==> h["content-type"] == blob.contentType.value
    ensures "content-disposition" in h && h["content-disposition"] == DispositionHeader(name)
    ensures "cache-control" in h && h["cache-control"] == "no-store"
    ensures forall k :: k in h ==> k in {"content-type", "content-disposition", "cache-control"}
  {
    var base := if blob.contentType.Some? then map["content-type" := blob.contentType.value] else map[];
    base["content-disposition" := DispositionHeader(name)]["cache-control" := "no-store"]
  }

  /** The token of the query string opens the download routes. */
  predicate TokenValid(m: Store, token: Option<string>) {
    Truthy(token) && TextTruthy(Lookup(m, TokenKey(DownloadScope, token.value)))
  }

  /** The catalog items a build serves from R2.  The modular build also
      demands `type === 'file'`; the single-file build looks only at
      `storage`. */
  predicate ServedFromBucket(variant: Variant, item: Item) {
    item.storage == Some("r2") && (variant == SingleFileWorker || item.kind == "file")
  }

  /** The reply when the item is missing or not served from R2. */
  function NotServed(variant: Variant, item: Option<Item>): Response {
    if variant == SingleFileWorker && item.Some? then Json(404, Failure(StorageUnavailable))
    else Json(404, Failure(FileMissing))
  }

  /** The reply of `handleDownload` for the decoded `filename`. */
  function DownloadResponse(variant: Variant, m: Store, objects: Objects, token: Option<string>, filename: string): (r: Response)
    ensures !Truthy(token) ==> r == Json(401, Failure(Unauthorized))
    ensures Truthy(token) && !TokenValid(m, token) ==> r == Json(401, Failure(TokenInvalid))
    ensures r.Attachment? <==>
      && TokenValid(m, token)
      && var item := ItemByFilenameIn(m, filename);
         item.Some? && ServedFromBucket(variant, item.value) && item.value.filename.Some? && item.value.filename.value in objects
    ensures r.Attachment? ==>
      var item := ItemByFilenameIn(m, filename).value;
      var blob := objects[item.filename.value];
      r.body == blob.body && r.headers == DownloadHeaders(blob, DownloadName(item, item.filename.value))
    ensures TokenValid(m, token) && !r.Attachment? ==> r.Json? && r.status == 404
    ensures TokenValid(m, token) && ItemByFilenameIn(m, filename).None? ==> r == Json(404, Failure(FileMissing))
    ensures TokenValid(m, token) && ItemByFilenameIn(m, filename).Some? && !ServedFromBucket(variant, ItemByFilenameIn(m, filename).value) ==>
      r == NotServed(variant, ItemByFilenameIn(m, filename))
    ensures TokenValid(m, token) && ItemByFilenameIn(m, filename).Some? && ServedFromBucket(variant, ItemByFilenameIn(m, filename).value) && !r.Attachment? ==>
      r == Json(404, Failure(ObjectMissing))
  {
    if !Truthy(token) then Json(401, Failure(Unauthorized))
    else if !TextTruthy(Lookup(m, TokenKey(DownloadScope, token.value))) then Json(401, Failure(TokenInvalid))
    else
      var item := ItemByFilenameIn(m, filename);
      if item.None? || !ServedFromBucket(variant, item.value) then NotServed(variant, item)
      else if item.value.filename.None? || item.value.filename.value !in objects then Json(404, Failure(ObjectMissing))
      else
        var key := item.value.filename.value;
        Attachment(DownloadHeaders(objects[key], DownloadName(item.value, key)), objects[key].body)
  }

  /** A catalog file the build serves from R2, whose object exists, is
      served to a holder of a valid token. */
  lemma ServedFile(variant: Variant, m: Store, objects: Objects, token: Option<string>, key: string, item: Item)
    requires TokenValid(m, token) && ItemByFilenameIn(m, key) == Some(item)
    requires ServedFromBucket(variant, item) && item.filename == Some(key) && key in objects
    ensures DownloadResponse(variant, m, objects, token, key) == Attachment(DownloadHeaders(objects[key], DownloadName(item, key)), objects[key].body)
  {
  }

  /** `handleDownload`, reading the store and the bucket; it writes nothing. */
  method HandleDownload(variant: Variant, kv: Kv, bucket: Bucket, req: Request, filename: string) returns (resp: Response)
    ensures resp == DownloadResponse(variant, kv.entries, bucket.objects, Field(req.query, "token"), filename)
  {
    var token := Field(req.query, "token");
    if !Truthy(token) {
      return Json(401, Failure(Unauthorized));
    }
    var tokenValid := kv.Get(TokenKey(DownloadScope, token.value));
    if !TextTruthy(tokenValid) {
      return Json(401, Failure(TokenInvalid));
    }
    var item := GetItemByFilename(kv, filename);
    if item.None? {
      return Json(404, Failure(FileMissing));
    }
    if variant == ModularWorker && (item.value.kind != "file" || item.value.storage != Some("r2")) {
      return Json(404, Failure(FileMissing));
    }
    if variant == SingleFileWorker && item.value.storage != Some("r2") {
      return Json(404, Failure(StorageUnavailable));
    }
    if item.value.filename.None? {
      return Json(404, Failure(ObjectMissing));
    }
    var key := item.value.filename.value;
    var blob := bucket.Get(key);
    if blob.None? {
      return Json(404, Failure(ObjectMissing));
    }
    return Attachment(DownloadHeaders(blob.value, DownloadName(item.value, key)), blob.value.body);
  }

  /** The disposition header names the download exactly: its value is
      made of RFC 5987 value characters only, and percent-decoding it
      gives the name back. */
  lemma DispositionNamesDownload(name: string)
    ensures var h := DispositionHeader(name);
      var prefix := "attachment; filename*=UTF-8''";
      && h[..|prefix|] == prefix
      && IsValueChars(h[|prefix|..])
      && DecodeURIComponent(h[|prefix|..]) == Some(name)
  {
    var prefix := "attachment; filename*=UTF-8''";
    var h := DispositionHeader(name);
    assert h[..|prefix|] == prefix;
    assert h[|prefix|..] == EncodeRFC5987Value(name);
    EncodedIsValueChars(name);
    DecodeEncodedValue(name);
  }

  /** Whatever the catalog and the bucket hold, a request without a valid
      token learns nothing about them. */
  lemma TokenCheckedFirst(variant: Variant, m1: Store, m2: Store, o1: Objects, o2: Objects, token: Option<string>, f1: string, f2: string)
    requires !TokenValid(m1, token)
    requires Truthy(token) ==> Lookup(m1, TokenKey(DownloadScope, token.value)) == Lookup(m2, TokenKey(DownloadScope, token.value))
    ensures DownloadResponse(variant, m1, o1, token, f1) == DownloadResponse(variant, m2, o2, token, f2)
    ensures DownloadResponse(variant, m1, o1, token, f1).status == 401
  {
  }

  /** The modular build never serves a link item, even when an object
      has its name; the single-file build serves any item stored in R2. */
  lemma LinksAreNotServed(m: Store, objects: Objects, token: Option<string>, filename: string)
    requires var item := ItemByFilenameIn(m, filename); item.Some? && item.value.kind != "file"
    ensures !DownloadResponse(ModularWorker, m, objects, token, filename).Attachment?
    ensures DownloadResponse(SingleFileWorker, m, objects, token, filename).Attachment? <==>
      && TokenValid(m, token)
      && var item := ItemByFilenameIn(m, filename).value;
         item.storage == Some("r2") && item.filename.Some? && item.filename.value in objects
  {
  }

  /** For file items the two builds answer alike, except for the message
      of a file that is not kept in R2. */
  lemma BuildsAgreeOnFiles(m: Store, objects: Objects, token: Option<string>, filename: string)
    requires var item := ItemByFilenameIn(m, filename); item.None? || item.value.kind == "file"
    ensures var a, b := DownloadResponse(ModularWorker, m, objects, token, filename), DownloadResponse(SingleFileWorker, m, objects, token, filename);
      a == b || (a == Json(404, Failure(FileMissing)) && b == Json(404, Failure(StorageUnavailable)))
  {
  }
}
