/**
 * The `fetch` entry of the Worker (src/index.ts; the same code opens
 * src/worker.js): API paths seed the catalog once and go to the router,
 * everything else is a static asset.
 */
module Worker {
  import opened Wrappers
  import opened JsString
  import opened KvStore
  import opened DownloadTypes
  import opened Http
  import opened Constants
  import opened Gate
  import opened Downloads
  import opened AdminHandlers
  import opened Api

  /** One request; `draws` are the ids and timestamps seeding would draw. */
  function FetchEffect(variant: Variant, m: Store, objects: Objects, env: Env, req: Request, world: World, draws: seq<Fresh>): (e: Effect)
    requires |draws| == |DefaultDownloads|
    ensures !StartsWith(req.path, "/api/") ==> e.store == m && e.objects == objects && e.response.Asset?
  {
    if StartsWith(req.path, "/api/") then ApiEffect(variant, Seeded(m, draws), objects, env, req, world)
    else if req.path == "/" then Effect(m, objects, Asset("/index.html"))
    else if req.path == "/admin" then Effect(m, objects, Asset("/admin.html"))
    else Effect(m, objects, Asset(req.path))
  }

  method Fetch(variant: Variant, kv: Kv, bucket: Bucket, env: Env, req: Request, world: World, draws: seq<Fresh>) returns (resp: Response)
    requires |draws| == |DefaultDownloads|
    modifies kv, bucket
    ensures Effect(kv.entries, bucket.objects, resp) == FetchEffect(variant, old(kv.entries), old(bucket.objects), env, req, world, draws)
  {
    if StartsWith(req.path, "/api/") {
      EnsureSeeded(kv, draws);
      resp := HandleApiRequest(variant, kv, bucket, env, req, world);
      return;
    }
    if req.path == "/" {
      return Asset("/index.html");
    }
    if req.path == "/admin" {
      return Asset("/admin.html");
    }
    return Asset(req.path);
  }

  /** Outside `/api/` the site root gets `/index.html`, `/admin` gets
      `/admin.html`, and any other path its own asset; neither the store
      nor the bucket is read or written. */
  lemma AssetPaths(variant: Variant, m: Store, objects: Objects, env: Env, req: Request, world: World, draws: seq<Fresh>)
    requires |draws| == |DefaultDownloads| && !StartsWith(req.path, "/api/")
    ensures var e := FetchEffect(variant, m, objects, env, req, world, draws);
      e == Effect(m, objects, Asset(if req.path == "/" then "/index.html" else if req.path == "/admin" then "/admin.html" else req.path))
  {
  }

  /** The first listing of a fresh deployment shows the two defaults, the
      one inserted last first, and leaves the store seeded. */
  lemma FirstListingShowsDefaults(variant: Variant, m: Store, objects: Objects, env: Env, req: Request, world: World, draws: seq<Fresh>)
    requires |draws| == |DefaultDownloads| && draws[0].id != draws[1].id
    requires !TextTruthy(Lookup(m, SeededKey)) && DownloadIndexIn(m) == []
    requires req.verb == "GET" && req.path == "/api/files"
    ensures var e := FetchEffect(variant, m, objects, env, req, world, draws);
      && e.response == Json(200, Listing([DefaultItem(DefaultDownloads[1], draws[1]), DefaultItem(DefaultDownloads[0], draws[0])]))
      && TextTruthy(Lookup(e.store, SeededKey))
  {
    var s := Seeded(m, draws);
    assert req.path[..5] == "/api/";
    SeedingEmptyCatalog(m, draws);
    var ids := DownloadIndexIn(s);
    PresentItemsAllPresent(s, ids);
    assert |PresentItems(s, ids)| == 2;
    assert PresentItems(s, ids) == [PresentItems(s, ids)[0], PresentItems(s, ids)[1]];
    ListingIsPublic(variant, s, objects, env, req, world);
  }

  /** A deployment that has been seeded is never seeded again, and one
      whose catalog is not empty never gets the defaults. */
  lemma SeedingHappensOnce(m: Store, draws: seq<Fresh>)
    requires |draws| == |DefaultDownloads|
    ensures TextTruthy(Lookup(m, SeededKey)) ==> Seeded(m, draws) == m
    ensures DownloadIndexIn(m) != [] ==> DownloadIndexIn(Seeded(m, draws)) == DownloadIndexIn(m)
  {
    if DownloadIndexIn(m) != [] {
      SeedingKeepsNonEmptyCatalog(m, draws);
      assert SeededKey != DownloadIndexKey;
    }
  }
}
