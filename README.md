# Password-gated download site: a Dafny model

The system is a small download site. Visitors see a public catalog of
downloads. A file can be fetched only with a download token, and a token is
granted for the right download password. Administrators log in with a
second password and then add link items, upload files to an object bucket
and delete items. Repeated wrong passwords from one client address make the
next attempt bring a Cloudflare Turnstile challenge response, which the
server verifies.

The site exists in three forms, and the model keeps all three apart
wherever they behave differently:

- the modular Cloudflare Worker under `src/`, which keeps every piece of
  state in a Workers KV namespace and the files in an R2 bucket;
- the single-file Worker `src/worker.js`, the same program in one file with
  two small differences, selected in the model by `Variant.SingleFileWorker`;
- the Express server `server.js`, which keeps its counters and tokens in
  four in-memory `Map`s with explicit expiry times and sweeps them
  periodically (module `Server`).

Module layout:

| module | models |
|---|---|
| `Wrappers`, `JsString`, `JsNumber`, `Uri` | the JavaScript semantics the code relies on: truthiness, `\|\| fallback`, `trim`, `split(',')[0]`, `lastIndexOf`, `parseInt`/`String`, and `encodeURIComponent`/`decodeURIComponent` over UTF-8 |
| `KvStore` | the KV namespace (a class over `map<string, Entry>`) and the R2 bucket (a class over `map<string, Blob>`) |
| `Constants`, `DownloadTypes`, `Http` | `src/constants/index.ts`, the item record of `src/types/download.ts`, requests and the three kinds of response (JSON, attachment, static asset) |
| `Attempts`, `Downloads`, `Filename`, `Ip`, `Turnstile` | `src/storage/*.ts` and `src/utils/*.ts` |
| `Gate` | the password gate shared by the download and the admin scope in both Workers |
| `Auth`, `DownloadHandlers`, `AdminHandlers`, `Api`, `Worker` | `src/handlers/*.ts` and `src/index.ts` |
| `Server` | the gate, token Maps, token checks and sweep of `server.js` |

Every handler that changes state has two parts: a pure function
(`GateOutcome`, `LinkOutcome`, `UploadEffect`, `DeleteEffect`, `ApiEffect`,
`FetchEffect`, `ServerGate`) giving the new store and the response, and a
method that performs the source's reads, puts and deletes one by one and
is proved to end in that state with that response. The properties are
lemmas about the pure functions. The outside world enters as parameters:
the siteverify reply (`Reply`), whether `new URL(url)` parses, the token
and the catalog id and timestamp a handler draws, and the clock
(`Api.World`).

Behaviour the model records as the code has it:

- After a verified challenge the Workers write the count read before the
  reset plus one, so the counter keeps growing and every later reply asks
  for the challenge again (`Gate.StaleCountAfterChallenge`). `server.js`
  re-reads the counter after the reset, so it starts again at 1
  (`Server.ServerRereadsAfterChallenge`). `Server.CountersDiverge` puts the
  two side by side.
- In both Workers an unset `DOWNLOAD_PASSWORD` grants a token to a body
  that has no `password` field, because `undefined === undefined`
  (`Gate.UnsetDownloadPasswordAdmits`). Only the admin scope refuses an
  unset password, with a 500.
- A download path with a malformed percent escape makes
  `decodeURIComponent` throw. `handleApiRequest` is returned without
  `await` inside the `try` of `fetch`, so the rejection is not caught and
  the platform, not the site, answers with an error; the model answers
  `Uncaught` (`Api.MalformedDownloadPathUncaught`).
- `src/worker.js` serves any catalog item stored in R2 without checking
  `type` (`DownloadHandlers.LinksAreNotServed`). It deletes the bucket
  object only for a non-empty `filename` (`AdminHandlers.DeleteBuildsDiffer`).
- `server.js` accepts a token while `now <= expiresAt`. Its `verifyTurnstile`
  posts even without a secret key, so the server's verifier is the bare
  oracle `Server.ServerVerifies`, with no fail-closed check. It reads
  `DOWNLOAD_PASSWORD.substring` at start-up, so the server model takes the
  download password as a string that is always set.

## Model

| member | source | states |
|---|---|---|
| `JsString.Trim` | src/utils/ip.ts:5 | `trim()` is the input with exactly its leading and trailing white space removed: a contiguous piece with only white space before and after it, and no white space at either of its ends |
| `JsString.OrElse` | src/handlers/auth.ts:5 | `x \|\| fallback` on an optional string is the value when it is a non-empty string and the fallback otherwise |
| `JsString.BeforeFirst` | src/utils/ip.ts:5 | `split(sep)[0]` is the longest prefix without `sep`, followed by `sep` or the end of the text |
| `JsString.LastIndexOf` | src/utils/filename.ts:6 | `lastIndexOf(c)` is -1 or an index holding `c`, with no `c` after it |
| `JsNumber.ParseInt` | src/storage/attempts.ts:6 | `Number.parseInt(v, 10)` is NaN exactly when no digit follows the leading white space and the optional sign |
| `JsNumber.IntToString` | src/storage/attempts.ts:10 | `String(count)` is a non-empty text that starts with `-` or a digit |
| `JsNumber.ParseIntOfIntToString` | src/storage/attempts.ts:6-10 | parsing the text `String(n)` writes gives back `n`, for every integer `n` |
| `Uri.Utf8` | src/utils/filename.ts:11 | a character becomes 1 to 4 bytes, one byte exactly below U+0080, all bytes after the first being continuation bytes |
| `Uri.EncodeURIComponent` | src/utils/filename.ts:11 | `encodeURIComponent` output is never shorter than its input; `EncodedOutput` and `DecodeEncode` state its alphabet and its inverse |
| `Uri.EncodedOutput` | src/utils/filename.ts:11 | `encodeURIComponent` output is never shorter than its input and holds only unreserved characters, `%` and hex digits |
| `Uri.DecodeURIComponent` | src/handlers/api.ts:50 | a successful decode is never longer than its input; `DecodeEncode` states that it inverts the encoding |
| `Uri.DecodeEncode` | src/handlers/api.ts:49-51 | `decodeURIComponent(encodeURIComponent(s)) == s` for every string of scalar values |
| `Attempts.CountOf` | src/storage/attempts.ts:4-7 | the counter value reads as its parsed integer, and as 0 when absent, not text, NaN or 0 |
| `Attempts.GetFailedAttempts` | src/storage/attempts.ts:4-7 | reads the count of `failed:<suffix>` in the store, leaving the store unchanged |
| `Attempts.SetFailedAttempts` | src/storage/attempts.ts:9-11 | the new store is the old one with `failed:<suffix>` set to the count's text and the failed-attempt TTL |
| `Attempts.ResetFailedAttempts` | src/storage/attempts.ts:13-15 | the new store is the old one without `failed:<suffix>` |
| `Attempts.SetThenGet` | src/storage/attempts.ts:6-10 | after `set(n)` the count reads `n`, for every integer `n`, and the key carries FAILED_ATTEMPT_TTL |
| `Attempts.ResetThenGet` | src/storage/attempts.ts:13-14 | after `reset` the count reads 0, and a second reset changes nothing |
| `Attempts.UnparsableReadsZero` | src/storage/attempts.ts:6 | a stored text that parses to NaN or to 0 reads as 0 |
| `Attempts.OnlyCounterKeyChanges` | src/storage/attempts.ts:5-14 | `set` and `reset` leave every key but `failed:<suffix>` unchanged |
| `Attempts.FailedKeyInjective` | src/storage/attempts.ts:5 | distinct suffixes have distinct counter keys |
| `Ip.ClientIp` | src/utils/ip.ts:1-7 | a non-empty `cf-connecting-ip` is returned as is; else a non-empty `x-forwarded-for` gives its trimmed text before the first comma, without a comma or outer white space; else `unknown` |
| `Ip.CloudflareHeaderWins` | src/utils/ip.ts:2-3 | with a non-empty `cf-connecting-ip`, any `x-forwarded-for` value gives the same address |
| `Turnstile.IsTurnstileEnabled` | src/utils/turnstile.ts:3-5 | the challenge is enabled exactly for boolean `true` or the string `"true"` |
| `Turnstile.VerifyTurnstile` | src/utils/turnstile.ts:7-23 | the verifier accepts exactly when a secret is set and the reply's `success` is boolean `true`; a failed call or a bad body refuses |
| `Turnstile.FailsClosedWithoutSecret` | src/utils/turnstile.ts:8 | without a secret every reply is refused, so the reply does not matter |
| `Filename.SanitizeChar` | src/utils/filename.ts:2 | one character becomes safe characters of the same UTF-16 length |
| `Filename.SanitizeFilename` | src/utils/filename.ts:1-3 | the result has the input's UTF-16 length, holds only `[A-Za-z0-9._-]` and so neither `/` nor `\` |
| `Filename.SanitizeFilenameBmp` | src/utils/filename.ts:2 | for text below U+10000, each character is kept when safe and becomes `_` otherwise, position by position |
| `Filename.SanitizeFilenameKeepsSafe` | src/utils/filename.ts:2 | a name of safe characters is left unchanged |
| `Filename.SanitizeFilenameIdempotent` | src/utils/filename.ts:2 | sanitising twice is sanitising once |
| `Filename.StripExtension` | src/utils/filename.ts:5-8 | the name is unchanged exactly when it has no `.` after index 0; otherwise the result is the non-empty strict prefix before the last `.` |
| `Filename.EncodeRFC5987Value` | src/utils/filename.ts:10-15 | the four passes equal an independent per-character encoding (`ExtValue`): ALPHA, DIGIT and `-._!~` literal, `\|` as `%7c`, `^` as `%5e`, every other character as its upper-case UTF-8 triplets; `EncodedIsValueChars`, `NoSpecialsInEncoding` and `DecodeEncodedValue` state its properties |
| `Filename.EncodedIsValueChars` | src/utils/filename.ts:10-15 | the output is value-chars of section 3.2.1 of RFC 5987: attr-char and `%HH` only, for any input |
| `Filename.NoSpecialsInEncoding` | src/utils/filename.ts:12-13 | the output contains no raw `'`, `(`, `)` or `*` |
| `Filename.DecodeEncodedValue` | src/utils/filename.ts:10-15 | percent-decoding the output gives back the input, so the escapes and the lower-casing lose nothing |
| `Downloads.CatalogKeysDistinct` | src/storage/downloads.ts:80-86 | item keys, filename keys, the index key and `seeded` never coincide |
| `Downloads.ItemKeyInjective` | src/storage/downloads.ts:80-82 | distinct ids have distinct item keys |
| `Downloads.ItemByFilenameIn` | src/storage/downloads.ts:28-31 | no item when the filename mapping is absent, not text or empty; otherwise exactly the item stored under the mapped id |
| `Downloads.Without` | src/storage/downloads.ts:39 | the filter keeps exactly the other ids and removes every occurrence of the given one |
| `Downloads.WithoutAppend` | src/storage/downloads.ts:50 | the filter works piecewise, so the order of the remaining ids is kept |
| `Downloads.WithoutAbsent` | src/storage/downloads.ts:50 | filtering an id that is not there changes nothing |
| `Downloads.GetItemById` | src/storage/downloads.ts:24-26 | reads the record stored under `downloads:item:<id>`, if any |
| `Downloads.GetItemByFilename` | src/storage/downloads.ts:28-31 | reads the item the filename mapping points to |
| `Downloads.InsertItem` | src/storage/downloads.ts:33-41 | the store gains the record, the filename mapping for a file with a filename, and the moved-to-front index |
| `Downloads.Inserted` | src/storage/downloads.ts:33-41 | an insert adds only the item key, the index key and, for a file with a filename, its filename key; `InsertedKeepsOthers` states that every other key keeps its value, and `InsertedIndex` and `InsertedIsFound` state the new values |
| `Downloads.DeleteItem` | src/storage/downloads.ts:43-52 | the store loses the record, the filename mapping of a file item, and the id from the index |
| `Downloads.Deleted` | src/storage/downloads.ts:43-52 | a delete adds no key but the index; `DeletedKeepsOthers` states that every key other than the item key, the index and the deciding record's filename key keeps its value, and `DeletedRemoves` states what goes |
| `Downloads.InsertedIndex` | src/storage/downloads.ts:38-40 | the new index is `[id]` followed by the old index without `id`: the id comes first and only once |
| `Downloads.InsertedIsFound` | src/storage/downloads.ts:34-37 | the inserted item is found by id, and by filename when it is a file whose filename is set |
| `Downloads.InsertedLinkKeepsFilenames` | src/storage/downloads.ts:35-37 | inserting a link item writes no filename mapping |
| `Downloads.InsertedKeepsOtherItems` | src/storage/downloads.ts:34 | inserting leaves every other item's record as it was |
| `Downloads.InsertedKeepsOthers` | src/storage/downloads.ts:33-41 | an insert changes no key but the item key, the index and the inserted file's own filename key, so another file's mapping is kept |
| `Downloads.CatalogKeysOnly` | src/storage/downloads.ts:33-52 | insert and delete touch only keys under `downloads:` |
| `Downloads.DeletedRemoves` | src/storage/downloads.ts:44-51 | after a delete the id is out of the index, its record is gone, and so is a file item's filename mapping |
| `Downloads.DeletedKeepsOthers` | src/storage/downloads.ts:43-52 | a delete changes no key but the item key, the index and the filename key of the given (or else stored) record |
| `Downloads.DeletedKeepsOtherItems` | src/storage/downloads.ts:43-52 | deleting one id leaves every other id's record as it was |
| `Downloads.InsertThenDeleteRestores` | src/storage/downloads.ts:39-50 | inserting an unused id and deleting it gives back the original store |
| `Downloads.GetAllItems` | src/storage/downloads.ts:6-22 | the batched loop returns exactly the stored records of the index ids, in index order, skipping missing ones |
| `Downloads.AllItemsIn` | src/storage/downloads.ts:6-22 | the listing is never longer than the index; `PresentItemsAllPresent`, `PresentItemsAreStored` and `PresentItemsAppend` state order and contents |
| `Downloads.PresentItemsAppend` | src/storage/downloads.ts:11-19 | the records of two concatenated index pieces are the concatenated records, so batches of 100 do not change the listing |
| `Downloads.PresentItemsAllPresent` | src/storage/downloads.ts:15-18 | when every id has a record the listing has one entry per id, in order |
| `Downloads.PresentItemsAreStored` | src/storage/downloads.ts:15-18 | every listed item is the stored record of some id of the index |
| `Downloads.InsertedListedFirst` | src/storage/downloads.ts:39 | after an insert the listing starts with the inserted item |
| `Downloads.DefaultItems` | src/storage/downloads.ts:60-74 | one default record per entry of DEFAULT_DOWNLOADS |
| `Downloads.InsertedAllTwo` | src/storage/downloads.ts:60-74 | seeding the two defaults is inserting the first and then the second |
| `Downloads.EnsureSeeded` | src/storage/downloads.ts:54-78 | the store becomes the seeded store: unchanged once `seeded` is set, the defaults inserted only into an empty index, and `seeded` set |
| `Downloads.Seeded` | src/storage/downloads.ts:54-78 | the result is always marked seeded, and an already seeded store is unchanged; `SeedingEmptyCatalog` and `SeedingKeepsNonEmptyCatalog` state the rest |
| `Downloads.SeededIdempotent` | src/storage/downloads.ts:55-77 | seeding always sets `seeded`, and a second seeding changes nothing, whatever it draws |
| `Downloads.SeedingKeepsNonEmptyCatalog` | src/storage/downloads.ts:58-59 | a non-empty catalog only gets the `seeded` flag |
| `Downloads.SeedingEmptyCatalog` | src/storage/downloads.ts:59-75 | a fresh store gets both defaults, indexed last-inserted first |
| `Gate.GateKeysDistinct` | src/handlers/download.ts:14-33 | counter keys never equal token keys, and the two scopes share no counter key and no token key |
| `Gate.TokenKeyInjective` | src/handlers/download.ts:33 | distinct tokens have distinct token keys |
| `Gate.RunChallenge` | src/handlers/download.ts:14-28 | reads the count; refuses with 400 and `requireCaptcha` when the challenge is due and has no response or a refused one, leaving the store unchanged; otherwise resets the counter if and only if the challenge was due |
| `Gate.Settle` | src/handlers/download.ts:30-43 | a matching password removes the counter and stores `download_token:<t>` with its TTL; otherwise the pre-read count plus one is written and 401 returned |
| `Gate.UnconfiguredAdmin` | src/handlers/admin.ts:16-18 | admin login without ADMIN_PASSWORD answers 500 and leaves the store unchanged |
| `Gate.ChallengeWithoutResponse` | src/handlers/download.ts:17-20 | a due challenge without a response answers 400 with `requireCaptcha` and writes nothing |
| `Gate.ChallengeRejected` | src/handlers/download.ts:22-25 | a refused challenge answers 400 and writes nothing, whatever password was sent |
| `Gate.CorrectPassword` | src/handlers/download.ts:30-34 | the right password removes the counter and stores exactly one token key, with the scope's TTL, for the token the reply carries; all other keys are unchanged |
| `Gate.WrongPassword` | src/handlers/download.ts:37-43 | a wrong password stores the count read at the start plus one, with its TTL, and answers 401 with `requireCaptcha` exactly when enabled and that count reaches 3; all other keys are unchanged |
| `Gate.StaleCountAfterChallenge` | src/handlers/download.ts:14-42 | after a verified challenge a wrong password writes the pre-reset count plus one, at least 4, and still asks for the challenge |
| `Gate.ScopeIsolation` | src/handlers/download.ts:14-38 | a gate run of one scope changes no counter key and no token key of the other scope |
| `Gate.GateOutcome` | src/handlers/download.ts:11-44 | one gate run (download scope here, admin scope at src/handlers/admin.ts:12-50): 500 exactly when unconfigured, 400 exactly when the due challenge is not passed, 200 exactly when it is passed and the password accepted, and a 400 or 500 leaves the store as it was; `CorrectPassword`, `WrongPassword`, `StaleCountAfterChallenge` and `ScopeIsolation` state the rest |
| `Gate.GateTouchesTwoKeys` | src/handlers/admin.ts:20-49 | a gate run changes the store at its counter key and its token key only |
| `Gate.AdminEmptyPasswordCounts` | src/handlers/admin.ts:36-38 | a missing or empty admin password is a failure that adds one to the count |
| `Gate.UnsetDownloadPasswordAdmits` | src/handlers/download.ts:30 | with DOWNLOAD_PASSWORD unset, a body without `password` is granted a token |
| `Gate.ThreeStrikes` | src/handlers/download.ts:17-42 | from a fresh address with the challenge enabled, three wrong passwords ask for the challenge on the third reply, and the fourth request without a response is refused |
| `DownloadHandlers.HandleVerifyPassword` | src/handlers/download.ts:11-44 | the download gate's store and response are the gate outcome of the download scope for the client address, body and oracle answers (the same code is src/worker.js:265-302) |
| `DownloadHandlers.DownloadHeaders` | src/handlers/download.ts:63-66 | the headers are the blob's content type when known, the attachment disposition and `no-store` caching, and nothing else |
| `DownloadHandlers.DownloadResponse` | src/handlers/download.ts:46-68 | no token or an unknown token gives 401 before any lookup; an attachment is served exactly for a known token, a catalog file kept in R2 and a present object, with that object's body and headers; every other answer with a valid token is a 404: `FileMissing` for an unknown filename, the build's not-served reply for an item not kept in R2 (or, in the modular build, not a file), `ObjectMissing` for a missing object |
| `DownloadHandlers.ServedFile` | src/handlers/download.ts:54-67 | a file the build serves from R2, found under the requested name and whose object exists, is answered with that object's bytes and the download headers |
| `DownloadHandlers.HandleDownload` | src/worker.js:305-339 | reads the token, the item and the object once each and answers the download response of the build |
| `DownloadHandlers.DispositionNamesDownload` | src/handlers/download.ts:62-65 | the disposition is `attachment; filename*=UTF-8''` followed by value-chars that decode to the download name |
| `DownloadHandlers.TokenCheckedFirst` | src/handlers/download.ts:48-52 | without a valid token the answer is a 401 that does not depend on the catalog, the bucket or the filename |
| `DownloadHandlers.LinksAreNotServed` | src/worker.js:318-325 | the modular build never serves a non-file item; the single-file build serves one exactly when it is stored in R2 and its object exists |
| `DownloadHandlers.BuildsAgreeOnFiles` | src/handlers/download.ts:54-60 | for file items both builds answer alike, except the message for a file not kept in R2 |
| `AdminHandlers.HandleAdminLogin` | src/handlers/admin.ts:12-50 | the admin login's store and response are the gate outcome of the admin scope (the same code is src/worker.js:128-168) |
| `AdminHandlers.TrimmedField` | src/handlers/admin.ts:75-80 | an absent body field gives `''`; a present one gives the field with exactly its leading and trailing white space removed |
| `AdminHandlers.HandleAdminLink` | src/handlers/admin.ts:52-86 | the store and response are the link outcome: validation first, then one insert |
| `AdminHandlers.LinkOutcome` | src/handlers/admin.ts:52-86 | 200 exactly for a truthy name and url that parses, otherwise a 400 that leaves the store unchanged; `LinkCreated` states the item |
| `AdminHandlers.LinkRejected` | src/handlers/admin.ts:62-70 | a missing name or url, or an unparsable url, answers 400 and leaves the store unchanged |
| `AdminHandlers.LinkCreated` | src/handlers/admin.ts:72-85 | a valid link answers with a `link` item of the drawn id, no filename or storage, the trimmed name and url and the other fields `''` when absent; it heads the listing, is found by its id and adds no filename mapping |
| `AdminHandlers.UploadKey` | src/handlers/admin.ts:106-108 | the key is the timestamp's digits, `-`, and exactly `SanitizeFilename(original)`, which has the original's UTF-16 length; the whole key holds only safe characters |
| `AdminHandlers.OriginalName` | src/handlers/admin.ts:106 | the original name is never empty: a nameless file is `upload.bin` |
| `AdminHandlers.HandleAdminUpload` | src/handlers/admin.ts:88-131 | the store, the bucket and the response are the upload effect of the request |
| `AdminHandlers.UploadEffect` | src/handlers/admin.ts:88-131 | 200 exactly for a multipart request whose `file` entry is a file; any other answer leaves store and bucket unchanged, and no object is ever removed; `UploadStoresFile` and `UploadKey` state the rest |
| `AdminHandlers.UploadRejected` | src/handlers/admin.ts:89-98 | a non-multipart request or a missing or text `file` is refused and writes neither the store nor the bucket |
| `AdminHandlers.UploadStoresFile` | src/handlers/admin.ts:106-130 | an accepted upload adds one object under its safe key and one file item that heads the listing, named by the form or by the original name without its extension |
| `AdminHandlers.TokenKeyOutsideCatalog` | src/handlers/download.ts:33 | token keys are not catalog keys |
| `AdminHandlers.UploadThenDownload` | src/handlers/admin.ts:108-129 | with a valid token a just-uploaded file is served back: its bytes, and a disposition that decodes to the original name |
| `AdminHandlers.HandleAdminDelete` | src/handlers/admin.ts:133-145 | the store, the bucket and the response are the delete effect for the id (src/worker.js:250-262 for the single-file build) |
| `AdminHandlers.DeleteEffect` | src/handlers/admin.ts:133-145 | 404 exactly for an unknown id, and then nothing changes; otherwise 200; objects are only ever removed; `DeleteKnown` and `DeleteBuildsDiffer` state the rest |
| `AdminHandlers.DeleteUnknown` | src/handlers/admin.ts:134-137 | an unknown id answers 404 and deletes nothing |
| `AdminHandlers.DeleteKnown` | src/handlers/admin.ts:139-144 | a known id leaves the index and the record, the filename mapping of a file item, and for an R2 file exactly its object from the bucket |
| `AdminHandlers.DeleteBuildsDiffer` | src/worker.js:256-258 | the two builds delete differently only for an R2 file whose `filename` is empty |
| `AdminHandlers.UploadThenDelete` | src/handlers/admin.ts:110-143 | uploading a file and deleting the item it created gives back the store and the bucket |
| `Auth.BearerToken` | src/handlers/auth.ts:5-6 | a token exists exactly when the header starts with `Bearer ` (case-sensitive), and it is the rest of the header |
| `Auth.RequireAdminAuth` | src/handlers/auth.ts:4-12 | the request passes exactly for a non-empty bearer token whose `admin_token:` key holds a truthy value; otherwise 401, unauthorised without a token and expired with an unknown one |
| `Auth.Authorise` | src/worker.js:342-356 | one read of the store gives the bearer check's answer, changing nothing |
| `Auth.DownloadTokenNeverAuthorises` | src/handlers/auth.ts:9 | storing a download token never changes the admin check's answer |
| `Auth.IssuedTokenAuthorises` | src/handlers/admin.ts:46-49 | the token an admin login stores opens the admin routes as `Bearer <token>` |
| `Api.RegexTail` | src/handlers/api.ts:38 | `/^prefix(.+)$/` matches exactly a longer path with the prefix and no line terminator after it, and captures the non-empty rest |
| `Api.RouteOf` | src/handlers/api.ts:8-55 | each of the eight routes is picked exactly for its method and path; the delete id and the download name are the non-empty rest after their prefix |
| `Api.HandleApiRequest` | src/handlers/api.ts:8-55 | the store, bucket and response are the API effect: gated routes pass the bearer check first, then the handler runs (the same routing is src/worker.js:67-125) |
| `Api.ApiEffect` | src/handlers/api.ts:8-55 | a gated route refused by the bearer check answers 401 and changes nothing; an unknown route is a 404 that changes nothing; the listing needs no token |
| `Api.ListingIsPublic` | src/handlers/api.ts:12-14 | `GET /api/files` lists the catalog without any token and changes nothing |
| `Api.GatedRoutesNeedAdminToken` | src/handlers/api.ts:16-43 | without a live admin token the four admin routes answer 401 and change neither the store nor the bucket |
| `Api.GatedRoutesRunWithAdminToken` | src/handlers/api.ts:16-43 | with a live admin token a gated route runs its handler |
| `Api.PasswordRoutesAreOpen` | src/handlers/api.ts:22-47 | `POST /api/admin/login` and `POST /api/verify-password` are not behind the bearer check: any `Authorization` header gives the same effect, which is the admin-scope or download-scope password gate |
| `Api.DeleteRouteCapture` | src/handlers/api.ts:38-43 | the delete id may contain `/`; the bare collection path matches no route |
| `Api.EncodedRoute` | src/handlers/api.ts:49 | the path of an encoded filename routes to the download handler with the encoded text |
| `Api.DownloadRouteDecodes` | src/handlers/api.ts:49-51 | the path of an encoded filename reaches the download handler with the filename itself |
| `Api.MalformedDownloadPathUncaught` | src/handlers/api.ts:50 | any download path whose rest does not percent-decode makes the handler's promise reject uncaught (`Uncaught`), with nothing changed: the site's own JSON 500 is never sent, and the platform answers with its own error |
| `Api.TruncatedEscapeUncaught` | src/handlers/api.ts:49-51 | `/api/download/%E0` is such a path: it routes to the download handler, whose rejection escapes the site's `catch`, so only the platform's error answers it |
| `Api.UnknownRoute` | src/handlers/api.ts:54 | any other method and path answers 404 and changes nothing |
| `Worker.Fetch` | src/index.ts:7-30 | API paths are seeded first and then routed; `/`, `/admin` and other paths are static assets (the same order is src/worker.js:34-64) |
| `Worker.FetchEffect` | src/worker.js:34-64 | a path outside `/api/` is a static asset and changes nothing; `FirstListingShowsDefaults` and `SeedingHappensOnce` state the seeding before `/api/` |
| `Worker.AssetPaths` | src/worker.js:46-58 | outside `/api/`, `/` gets the `/index.html` asset, `/admin` gets `/admin.html` and any other path its own asset, and neither store nor bucket changes |
| `Worker.FirstListingShowsDefaults` | src/worker.js:41-43 | the first listing of a fresh deployment shows both defaults, last inserted first, and leaves the store seeded |
| `Worker.SeedingHappensOnce` | src/worker.js:418-442 | a seeded store is never seeded again, and a non-empty catalog never gets the defaults |
| `Server.WithCounters` | server.js:19-20 | replacing a scope's counter Map changes neither of that scope's token Maps |
| `Server.WithTokens` | server.js:22-26 | replacing a scope's token Map changes neither of that scope's counter Maps |
| `Server.DownloadTokenCheck` | server.js:355-383 | the download route passes exactly for a known token with `now <= expiresAt`; a missing, unknown or expired token gets its own 401; the Map loses the token exactly when it is known and expired |
| `Server.AdminTokenCheck` | server.js:582-603 | the admin check passes exactly for a bearer token that is known and unexpired; every refusal is 401, and the Map loses the token exactly on a refusal that has a token |
| `Server.Unexpired` | server.js:50-62 | the map keeps exactly the entries with `now <= expiresAt`, with their values |
| `Server.ServerGate` | server.js:273-329 | one server gate run (admin login at server.js:89-145): 500 exactly for an admin scope without password, 400 exactly for a due challenge not passed, 200 exactly for a passed one and an accepted password, and the Maps unchanged on 400 and 500; `ServerRereadsAfterChallenge`, `ServerCorrectPassword` and `ServerScopeIsolation` state the rest |
| `Server.ServerState.constructor` | server.js:19-26 | the four Maps start empty |
| `Server.ServerState.VerifyPassword` | server.js:273-329 | the four Maps and the response are the server gate of the download scope |
| `Server.ServerState.AdminLogin` | server.js:89-145 | the four Maps and the response are the server gate of the admin scope |
| `Server.ServerState.CheckDownloadToken` | server.js:355-383 | `validTokens` and the answer are the download token check, and the other Maps are unchanged |
| `Server.ServerState.RequireAdminAuth` | server.js:582-603 | `adminTokens` and the answer are the admin token check, and the other Maps are unchanged |
| `Server.ServerState.Sweep` | server.js:50-62 | both token Maps lose exactly their entries with `now > expiresAt`, and the counters are unchanged |
| `Server.ServerScopeIsolation` | server.js:19-26 | a gate run of one scope leaves both Maps of the other scope unchanged |
| `Server.ServerChallengeRefused` | server.js:281-299 | a due challenge without a response, or a refused one, answers 400 with `requireCaptcha` and changes no Map |
| `Server.ServerRereadsAfterChallenge` | server.js:301-326 | after a verified challenge a wrong password sets the counter to 1 and does not ask for the challenge |
| `Server.ServerWrongPassword` | server.js:318-327 | without a due challenge a wrong password adds one to the count and asks for the challenge once enabled and the count reaches 3 |
| `Server.ServerCorrectPassword` | server.js:302-316 | the right password clears the counter and maps the token to now + 3600000 (download) or now + 7200000 (admin) |
| `Server.ServerAdminUnconfigured` | server.js:94-99 | admin login without ADMIN_PASSWORD answers 500 and changes no Map |
| `Server.CountersDiverge` | server.js:320-326 | from the same count and wrong password after a verified challenge, the Workers write count + 1 and ask again, the server writes 1 and stops asking |
| `Server.DownloadTokenExpiry` | server.js:368-383 | an issued download token is accepted up to its expiry, and deleted and refused after it |
| `Server.AdminTokenExpiry` | server.js:593-602 | an issued admin token opens the admin routes up to its expiry, and is deleted after it |
| `Server.SweepKeepsValidTokens` | server.js:50-62 | the sweep keeps exactly the tokens the check accepts, does not change the check's answer, and is idempotent |
| `Server.SweepOrCheckRefuseExpired` | server.js:593-602 | the admin check answers the same before and after a sweep |

## Left out

- Network and platform I/O are not modelled. The Turnstile siteverify call is the oracle `Reply`, and the server's is `Server.ServerVerifies`. `new URL` is the boolean `urlParses`. `Date.now`, `crypto.randomUUID`, `Math.random` and the ISO timestamp are drawn parameters. Static assets are the `Asset(path)` response.
- Workers KV expiry is not modelled: a TTL is recorded with each put but never fires, so a counter or token lives until it is deleted. KV eventual consistency and concurrent requests (lost increments, last writer wins) are left out as well.
- A failing KV or R2 call, or a 500 thrown by the runtime, is never produced, and R2 `writeHttpMetadata` is reduced to the content type.
- `readJson` is modelled as "each body field is a string or absent". A field of another JSON type is not modelled.
- A JSON body that is literally `null`: `readJson` returns `null` and the destructuring in `handleVerifyPassword`, `handleAdminLogin` and `handleAdminLink` throws before any store access. The rejection escapes the `catch` of `fetch`, so the site's JSON 500 is not sent and the platform answers with its own error. The model has no such body: a body is a map of fields, and a `null` one would read as `{}`.
- `AdminHandlers.DeleteEffect`: for a file item kept in R2 without a `filename`, the modular `handleAdminDelete` calls `UPLOADS_BUCKET.delete(undefined)`. What R2 does with that is not modelled; the model deletes no object in that case.
- `DownloadHandlers.DownloadResponse`: for an item served from R2 without a `filename`, both builds call `UPLOADS_BUCKET.get(undefined)` (src/handlers/download.ts:59, src/worker.js:327). What R2 answers is not modelled; the model answers the `ObjectMissing` 404. No write of the source creates such an item.
- Strings are sequences of Unicode scalar values. Lone surrogates, and so the URIError `encodeURIComponent` throws on them, do not occur. UTF-16 length is computed where `sanitizeFilename` depends on it. `trim` uses JavaScript's white-space set.
- The rest of `server.js`: sql.js, `persistDb`, multer, the listing, link, upload and delete routes, the file part of `/api/download` (item lookup, disk path resolution, `res.download`) and the `setInterval` scheduling, of which only the body is modelled as `Sweep`. The iteration order of a `Map` does not affect the sweep's result and is not modelled.
- `server.js` takes the client address from `req.ip`; in the model it is a parameter.
- The browser scripts (`public/script.js`, `script.js`, `admin.js`) have no server-side behaviour and are not part of this model.
