/**
 * The admin handlers of src/handlers/admin.ts (repeated in src/worker.js):
 * login, adding a link, uploading a file to R2 and deleting an item.  Each
 * mutating handler has a function that gives the new state and a method
 * that gets there call by call.
 */
module AdminHandlers {
  import opened Wrappers
  import opened JsString
  import opened JsNumber
  import opened Uri
  import opened KvStore
  import opened DownloadTypes
  import opened Http
  import opened Attempts
  import opened Constants
  import opened Turnstile
  import opened Ip
  import opened Gate
  import opened Filename
  import opened Downloads
  import opened DownloadHandlers

  // ---------------------------------------------------------------------
  // Login

  /** `handleAdminLogin`, step by step: the configuration is checked before
      the counter is read. */
  method HandleAdminLogin(kv: Kv, env: Env, req: Request, reply: Reply, token: string) returns (resp: Response)
    modifies kv
    ensures Outcome(kv.entries, resp) == GateOutcome(AdminScope, old(kv.entries), env, ClientIp(req.headers), SubmissionOf(req), reply, token)
  {
    var sub := SubmissionOf(req);
    var ip := ClientIp(req.headers);
    if !Truthy(env.adminPassword) {
      return Json(500, Failure(AdminNotConfigured));
    }
    var suffix := CounterSuffix(AdminScope, ip);
    var attempts, refusal := RunChallenge(kv, env, suffix, sub, reply);
    if refusal.Some? {
      return refusal.value;
    }
    resp := Settle(kv, AdminScope, env, suffix, attempts, sub.password, token);
  }

  // ---------------------------------------------------------------------
  // Link

  /** `(field || '').trim()` for an optional string of the JSON body. */
  function TrimmedField(req: Request, name: string): (r: string)
    ensures BodyField(req, name).None? ==> r == ""
    ensures BodyField(req, name).Some? ==> exists i :: TrimAt(BodyField(req, name).value, r, i)
    ensures NoOuterWhiteSpace(r)
  {
    var field := BodyField(req, name);
    var r := Trim(OrElse(field, ""));
    assert field.Some? ==> exists i :: TrimAt(field.value, r, i) by {
      if field.Some? {
        assert OrElse(field, "") == field.value;
      }
    }
    r
  }

  /** The record `handleAdminLink` builds; `draw` holds `createId()` and
      the timestamp. */
  function LinkItem(req: Request, draw: Fresh): Item {
    Item(draw.id, "link", TrimmedField(req, "name"), None, None, None, None, Some(TrimmedField(req, "url")),
         TrimmedField(req, "description"), TrimmedField(req, "badge"), TrimmedField(req, "version"),
         TrimmedField(req, "arch"), draw.createdAt)
  }

  /** `handleAdminLink`; `urlParses` says whether `new URL(url)` returns. */
  function LinkOutcome(m: Store, req: Request, urlParses: bool, draw: Fresh): (o: Outcome)
    ensures o.response.Json? && (o.response.status == 200 || o.response.status == 400)
    ensures o.response.status == 200 <==> Truthy(BodyField(req, "name")) && Truthy(BodyField(req, "url")) && urlParses
    ensures o.response.status == 400 ==> o.store == m
  {
    if !Truthy(BodyField(req, "name")) || !Truthy(BodyField(req, "url")) then Outcome(m, Json(400, Failure(NameAndUrlRequired)))
    else if !urlParses then Outcome(m, Json(400, Failure(BadUrl)))
    else
      var item := LinkItem(req, draw);
      Outcome(Inserted(m, item), Json(200, Created(item)))
  }

  method HandleAdminLink(kv: Kv, req: Request, urlParses: bool, draw: Fresh) returns (resp: Response)
    modifies kv
    ensures Outcome(kv.entries, resp) == LinkOutcome(old(kv.entries), req, urlParses, draw)
  {
    var name, url := BodyField(req, "name"), BodyField(req, "url");
    if !Truthy(name) || !Truthy(url) {
      return Json(400, Failure(NameAndUrlRequired));
    }
    if !urlParses {
      return Json(400, Failure(BadUrl));
    }
    var item := LinkItem(req, draw);
    InsertItem(kv, item);
    return Json(200, Created(item));
  }

  /** A rejected link writes nothing, and the reply is a 400. */
  lemma LinkRejected(m: Store, req: Request, urlParses: bool, draw: Fresh)
    requires !Truthy(BodyField(req, "name")) || !Truthy(BodyField(req, "url")) || !urlParses
    ensures LinkOutcome(m, req, urlParses, draw).store == m
    ensures LinkOutcome(m, req, urlParses, draw).response.status == 400
  {
  }

  /** An accepted link heads the listing, is found under its id and keeps
      the filename mappings as they were. */
  lemma LinkCreated(m: Store, req: Request, draw: Fresh, objects: Objects, token: Option<string>, filename: string)
    requires Truthy(BodyField(req, "name")) && Truthy(BodyField(req, "url"))
    ensures var o := LinkOutcome(m, req, true, draw);
      && o.response == Json(200, Created(LinkItem(req, draw)))
      && |AllItemsIn(o.store)| > 0 && AllItemsIn(o.store)[0] == LinkItem(req, draw)
      && ItemByIdIn(o.store, draw.id) == Some(LinkItem(req, draw))
      && Lookup(o.store, FilenameKey(filename)) == Lookup(m, FilenameKey(filename))
    ensures var item := LinkItem(req, draw);
      && item.kind == "link" && item.id == draw.id && item.filename.None? && item.storage.None?
      && (exists i :: TrimAt(BodyField(req, "name").value, item.name, i))
      && item.url.Some? && (exists i :: TrimAt(BodyField(req, "url").value, item.url.value, i))
      && (BodyField(req, "description").None? ==> item.description == "")
      && (BodyField(req, "badge").None? ==> item.badge == "")
      && (BodyField(req, "version").None? ==> item.version == "")
      && (BodyField(req, "arch").None? ==> item.arch == "")
  {
    var item := LinkItem(req, draw);
    assert LinkOutcome(m, req, true, draw) == Outcome(Inserted(m, item), Json(200, Created(item)));
    InsertedListedFirst(m, item);
    InsertedIsFound(m, item);
    InsertedLinkKeepsFilenames(m, item, filename);
  }

  // ---------------------------------------------------------------------
  // Upload

  /** What an upload or a delete leaves in the store and in the bucket. */
  datatype Effect = Effect(store: Store, objects: Objects, response: Response)

  /** `${Date.now()}-${sanitizeFilename(original)}`. */
  function UploadKey(now: nat, original: string): (key: string)
    ensures AllSafe(key)
    ensures var stamp := NatToString(now);
      |key| > |stamp| && key[..|stamp|] == stamp && key[|stamp|] == '-'
      && Utf16Length(key[|stamp| + 1..]) == Utf16Length(original)
    ensures key[|NatToString(now)| + 1..] == SanitizeFilename(original)
  {
    var stamp := NatToString(now);
    var key := stamp + "-" + SanitizeFilename(original);
    assert key[|stamp| + 1..] == SanitizeFilename(original);
    forall k | 0 <= k < |key|
      ensures IsSafeFilenameChar(key[k])
    {
      if k < |stamp| {
        assert IsDigit(stamp[k]);
      } else if k > |stamp| {
        assert key[k] == SanitizeFilename(original)[k - |stamp| - 1];
      }
    }
    key
  }

  /** `(form.get(field) || '').toString().trim()`: a file entry prints as
      `[object File]`. */
  function FormText(form: map<string, FormEntry>, field: string): string {
    var entry: Option<FormEntry> := Field(form, field);
    match entry
    case None => ""
    case Some(TextEntry(s)) => Trim(s)
    case Some(FileEntry(_, _, _, _)) => "[object File]"
  }

  /** `file.name || 'upload.bin'`. */
  function OriginalName(file: FormEntry): (r: string)
    requires file.FileEntry?
    ensures r != ""
  {
    if file.fileName != "" then file.fileName else "upload.bin"
  }

  /** The object put in R2: the bytes and `file.type || 'application/octet-stream'`. */
  function UploadedBlob(file: FormEntry): Blob
    requires file.FileEntry?
  {
    Blob(file.bytes, Some(if file.mediaType != "" then file.mediaType else "application/octet-stream"))
  }

  /** The record `handleAdminUpload` builds. */
  function UploadedItem(form: map<string, FormEntry>, file: FormEntry, now: nat, draw: Fresh): Item
    requires file.FileEntry?
  {
    var original := OriginalName(file);
    var name := FormText(form, "name");
    Item(draw.id, "file", if name != "" then name else StripExtension(original),
         Some(UploadKey(now, original)), Some(original), Some("r2"), Some(file.size), None,
         FormText(form, "description"), FormText(form, "badge"), FormText(form, "version"),
         FormText(form, "arch"), draw.createdAt)
  }

  /** The multipart check of `handleAdminUpload`. */
  predicate IsMultipart(req: Request) {
    Contains(OrElse(Header(req, "content-type"), ""), "multipart/form-data")
  }

  /** `handleAdminUpload`; `now` is `Date.now()`.  A body that does not
      parse as a form makes `request.formData()` reject, and nothing
      catches it. */
  function UploadEffect(m: Store, objects: Objects, req: Request, now: nat, draw: Fresh): (e: Effect)
    ensures e.response.Json? && e.response.status == 200 <==>
      IsMultipart(req) && req.form.Some? && "file" in req.form.value && req.form.value["file"].FileEntry?
    ensures !(e.response.Json? && e.response.status == 200) ==> e.store == m && e.objects == objects
    ensures forall k :: k in objects ==> k in e.objects
  {
    if !IsMultipart(req) then Effect(m, objects, Json(400, Failure(BadUploadFormat)))
    else if req.form.None? then Effect(m, objects, Uncaught)
    else
      var form := req.form.value;
      var entry: Option<FormEntry> := Field(form, "file");
      match entry
      case Some(FileEntry(fileName, mediaType, size, bytes)) =>
        var file := FileEntry(fileName, mediaType, size, bytes);
        var item := UploadedItem(form, file, now, draw);
        Effect(Inserted(m, item), objects[UploadKey(now, OriginalName(file)) := UploadedBlob(file)], Json(200, Created(item)))
      case _ => Effect(m, objects, Json(400, Failure(NoFile)))
  }

  method HandleAdminUpload(kv: Kv, bucket: Bucket, req: Request, now: nat, draw: Fresh) returns (resp: Response)
    modifies kv, bucket
    ensures Effect(kv.entries, bucket.objects, resp) == UploadEffect(old(kv.entries), old(bucket.objects), req, now, draw)
  {
    var contentType := OrElse(Header(req, "content-type"), "");
    if !Contains(contentType, "multipart/form-data") {
      return Json(400, Failure(BadUploadFormat));
    }
    if req.form.None? {
      return Uncaught;
    }
    var form := req.form.value;
    var file := Field(form, "file");
    if file.None? || file.value.TextEntry? {
      return Json(400, Failure(NoFile));
    }
    var original := OriginalName(file.value);
    var key := UploadKey(now, original);
    bucket.Put(key, UploadedBlob(file.value));
    var item := UploadedItem(form, file.value, now, draw);
    InsertItem(kv, item);
    return Json(200, Created(item));
  }

  /** The file entry of an upload that goes through. */
  predicate UploadAccepted(req: Request) {
    IsMultipart(req) && req.form.Some? && var f := Field(req.form.value, "file"); f.Some? && f.value.FileEntry?
  }

  /** An upload that is not accepted changes neither the store nor the bucket. */
  lemma UploadRejected(m: Store, objects: Objects, req: Request, now: nat, draw: Fresh)
    requires !UploadAccepted(req)
    ensures var e := UploadEffect(m, objects, req, now, draw);
      e.store == m && e.objects == objects
      && (e.response == Uncaught || (e.response.Json? && e.response.status == 400))
  {
  }

  /** An accepted upload adds exactly one object, under a key of safe
      characters, and one catalog record that heads the listing, shows the
      form's name or else the file name without its extension, and keeps
      the file name as sent. */
  lemma UploadStoresFile(m: Store, objects: Objects, req: Request, now: nat, draw: Fresh)
    requires UploadAccepted(req)
    ensures var e := UploadEffect(m, objects, req, now, draw);
      var form := req.form.value;
      var file := Field(form, "file").value;
      var item := UploadedItem(form, file, now, draw);
      var key := UploadKey(now, OriginalName(file));
      && e.response == Json(200, Created(item))
      && e.objects == objects[key := UploadedBlob(file)]
      && e.objects[key].body == file.bytes
      && item.filename == Some(key) && AllSafe(key)
      && item.originalName == Some(OriginalName(file))
      && item.name == (if FormText(form, "name") != "" then FormText(form, "name") else StripExtension(OriginalName(file)))
      && |AllItemsIn(e.store)| > 0 && AllItemsIn(e.store)[0] == item
  {
    var form := req.form.value;
    var file := Field(form, "file").value;
    InsertedListedFirst(m, UploadedItem(form, file, now, draw));
  }

  /** The download token key is none of the catalog's keys. */
  lemma TokenKeyOutsideCatalog(t: string)
    ensures var k := TokenKey(DownloadScope, t); |k| < 10 || k[..10] != "downloads:"
  {
    assert TokenKey(DownloadScope, t)[8] == '_';
  }

  /** A file just uploaded is served, under its stored key, to any holder
      of a valid download token: the bytes that were sent, their content
      type, and a disposition header that decodes to the file name as sent. */
  lemma UploadThenDownload(variant: Variant, m: Store, objects: Objects, req: Request, now: nat, draw: Fresh, token: string)
    requires UploadAccepted(req) && draw.id != ""
    requires TokenValid(m, Some(token))
    ensures var e := UploadEffect(m, objects, req, now, draw);
      var file := Field(req.form.value, "file").value;
      var key := UploadKey(now, OriginalName(file));
      var r := DownloadResponse(variant, e.store, e.objects, Some(token), key);
      && r == Attachment(DownloadHeaders(UploadedBlob(file), OriginalName(file)), file.bytes)
      && DecodeURIComponent(r.headers["content-disposition"][|"attachment; filename*=UTF-8''"|..]) == Some(OriginalName(file))
  {
    var form := req.form.value;
    var file := Field(form, "file").value;
    var item := UploadedItem(form, file, now, draw);
    var key := UploadKey(now, OriginalName(file));
    var e := UploadEffect(m, objects, req, now, draw);
    assert e == Effect(Inserted(m, item), objects[key := UploadedBlob(file)], Json(200, Created(item)));
    assert key != "";
    UploadedIsServable(variant, m, item, token, key);
    ServedFile(variant, e.store, e.objects, Some(token), key, item);
    DispositionNamesDownload(OriginalName(file));
  }

  /** After inserting an uploaded item the download token still holds and
      the item is found under its key. */
  lemma UploadedIsServable(variant: Variant, m: Store, item: Item, token: string, key: string)
    requires TokenValid(m, Some(token))
    requires item.kind == "file" && item.storage == Some("r2") && item.filename == Some(key) && key != "" && item.id != ""
    ensures TokenValid(Inserted(m, item), Some(token))
    ensures ItemByFilenameIn(Inserted(m, item), key) == Some(item)
    ensures ServedFromBucket(variant, item)
  {
    TokenKeyOutsideCatalog(token);
    CatalogKeysOnly(m, item, "", None, TokenKey(DownloadScope, token));
    InsertedIsFound(m, item);
  }

  // ---------------------------------------------------------------------
  // Delete

  /** Whether deleting `item` also deletes its R2 object.  The single-file
      build also demands a truthy `filename`; the modular build calls
      `delete` with whatever `filename` holds, and an item without one is
      modelled as deleting nothing. */
  predicate DeletesObject(variant: Variant, item: Item) {
    item.kind == "file" && item.storage == Some("r2") && item.filename.Some?
    && (variant == ModularWorker || item.filename.value != "")
  }

  /** `handleAdminDelete(id)`. */
  function DeleteEffect(variant: Variant, m: Store, objects: Objects, id: string): (e: Effect)
    ensures e.response.Json? && (e.response.status == 200 || e.response.status == 404)
    ensures e.response.status == 404 <==> ItemByIdIn(m, id).None?
    ensures e.response.status == 404 ==> e.store == m && e.objects == objects
    ensures forall k :: k in e.objects ==> k in objects && e.objects[k] == objects[k]
  {
    var removed := ItemByIdIn(m, id);
    if removed.None? then Effect(m, objects, Json(404, Failure(ItemNotFound)))
    else
      var objects1 := if DeletesObject(variant, removed.value) then objects - {removed.value.filename.value} else objects;
      Effect(Deleted(m, id, removed), objects1, Json(200, Done))
  }

  method HandleAdminDelete(variant: Variant, kv: Kv, bucket: Bucket, id: string) returns (resp: Response)
    modifies kv, bucket
    ensures Effect(kv.entries, bucket.objects, resp) == DeleteEffect(variant, old(kv.entries), old(bucket.objects), id)
  {
    var removed := GetItemById(kv, id);
    if removed.None? {
      return Json(404, Failure(ItemNotFound));
    }
    var r := removed.value;
    if r.kind == "file" && r.storage == Some("r2") && (variant == ModularWorker || Truthy(r.filename)) && r.filename.Some? {
      bucket.Delete(r.filename.value);
    }
    DeleteItem(kv, id, removed);
    return Json(200, Done);
  }

  /** Deleting an unknown id changes nothing and answers 404. */
  lemma DeleteUnknown(variant: Variant, m: Store, objects: Objects, id: string)
    requires ItemByIdIn(m, id).None?
    ensures DeleteEffect(variant, m, objects, id) == Effect(m, objects, Json(404, Failure(ItemNotFound)))
  {
  }

  /** Deleting a known id removes it from the index and the records, drops
      its filename mapping, and for an R2 file its object. */
  lemma DeleteKnown(variant: Variant, m: Store, objects: Objects, id: string)
    requires ItemByIdIn(m, id).Some?
    ensures var e, item := DeleteEffect(variant, m, objects, id), ItemByIdIn(m, id).value;
      && e.response == Json(200, Done)
      && id !in DownloadIndexIn(e.store)
      && ItemByIdIn(e.store, id).None?
      && (MapsFilename(item) ==> FilenameKey(item.filename.value) !in e.store)
      && (DeletesObject(variant, item) ==> item.filename.value !in e.objects)
      && (forall k :: k in e.objects <==> k in objects && !(DeletesObject(variant, item) && k == item.filename.value))
  {
    DeletedRemoves(m, id, ItemByIdIn(m, id));
  }

  /** The two builds part ways only on an R2 file whose `filename` is the
      empty string. */
  lemma DeleteBuildsDiffer(m: Store, objects: Objects, id: string)
    ensures var item := ItemByIdIn(m, id);
      DeleteEffect(ModularWorker, m, objects, id) != DeleteEffect(SingleFileWorker, m, objects, id)
      ==> item.Some? && item.value.kind == "file" && item.value.storage == Some("r2")
          && item.value.filename == Some("") && "" in objects
  {
  }

  /** Uploading a file and deleting the item it created gives back the
      store and the bucket, when the id, the key and the filename mapping
      were all unused. */
  lemma UploadThenDelete(variant: Variant, m: Store, objects: Objects, req: Request, now: nat, draw: Fresh, ids: seq<string>)
    requires UploadAccepted(req)
    requires DownloadIndexKey in m && m[DownloadIndexKey] == Entry(IdList(ids), None)
    requires draw.id !in ids && ItemKey(draw.id) !in m
    requires var key := UploadKey(now, OriginalName(Field(req.form.value, "file").value));
      key !in objects && FilenameKey(key) !in m
    ensures var e := UploadEffect(m, objects, req, now, draw);
      var d := DeleteEffect(variant, e.store, e.objects, draw.id);
      d.store == m && d.objects == objects
  {
    var form := req.form.value;
    var file := Field(form, "file").value;
    var item := UploadedItem(form, file, now, draw);
    var key := UploadKey(now, OriginalName(file));
    var e := UploadEffect(m, objects, req, now, draw);
    assert e == Effect(Inserted(m, item), objects[key := UploadedBlob(file)], Json(200, Created(item)));
    InsertedIsFound(m, item);
    assert ItemByIdIn(e.store, draw.id) == Some(item);
    assert key != "";
    assert DeletesObject(variant, item);
    InsertThenDeleteRestores(m, item, ids);
    assert e.objects - {key} == objects;
    assert DeleteEffect(variant, e.store, e.objects, draw.id) == Effect(Deleted(e.store, draw.id, Some(item)), e.objects - {key}, Json(200, Done));
  }
}
