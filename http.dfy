/**
 * Requests and responses as the handlers see them (src/utils/http.ts and
 * the Fetch API).  Bodies are already parsed: `readJson` yields the string
 * fields of the JSON body, `{}` when the body is absent or not JSON.
 */
module Http {
  import opened Wrappers
  import opened Uri
  import opened DownloadTypes

  /** An entry of a parsed multipart form. */
  datatype FormEntry =
    | FileEntry(fileName: string, mediaType: string, size: nat, bytes: seq<Byte>)
    | TextEntry(text: string)

  datatype Request = Request(
    verb: string,                          // `request.method`
    path: string,                          // `url.pathname`
    query: map<string, string>,            // `url.searchParams`
    headers: map<string, string>,          // header names in lower case
    body: map<string, string>,             // `await readJson(request)`
    form: Option<map<string, FormEntry>>)  // `await request.formData()`; None when it throws

  function Field<V>(m: map<string, V>, name: string): Option<V> {
    if name in m then Some(m[name]) else None
  }

  /** `request.headers.get(name)`. */
  function Header(req: Request, name: string): Option<string> {
    Field(req.headers, name)
  }

  /** A field of the parsed JSON body, `undefined` when missing. */
  function BodyField(req: Request, name: string): Option<string> {
    Field(req.body, name)
  }

  datatype Response =
    | Json(status: int, payload: DownloadTypes.Payload)   // `jsonResponse(payload, status)`
    | Attachment(headers: map<string, string>, body: seq<Byte>)
    | Asset(path: string)          // answered by the static-asset fetcher
    | Uncaught                     // a rejected promise that no `catch` sees

  function JsonOk(payload: DownloadTypes.Payload): Response {
    Json(200, payload)
  }
}
