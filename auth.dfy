/**
 * The admin bearer check of src/handlers/auth.ts (the same function sits in
 * src/worker.js): a request passes when its `Authorization` header carries
 * `Bearer <t>` with a non-empty `t` and `admin_token:<t>` holds a truthy
 * value.
 */
module Auth {
  import opened Wrappers
  import opened JsString
  import opened KvStore
  import opened DownloadTypes
  import opened Http
  import opened Gate

  /** The token taken from the header `authorization`, None for `null`. */
  function BearerToken(authorization: Option<string>): (t: Option<string>)
    ensures t.Some? <==> authorization.Some? && StartsWith(authorization.value, "Bearer ")
    ensures t.Some? ==> authorization.value == "Bearer " + t.value
  {
    var header := OrElse(authorization, "");
    if StartsWith(header, "Bearer ") then
      assert header == header[..7] + header[7..];
      Some(header[7..])
    else None
  }

  /** The reply that stops the request, None when it may go on. */
  function RequireAdminAuth(m: Store, authorization: Option<string>): (r: Option<Response>)
    ensures r.None? <==>
      var t := BearerToken(authorization); Truthy(t) && TextTruthy(Lookup(m, TokenKey(AdminScope, t.value)))
    ensures r.Some? ==> r.value.Json? && r.value.status == 401
    ensures r.Some? ==> r.value.payload == Failure(if Truthy(BearerToken(authorization)) then SessionExpired else Unauthorized)
  {
    var token := BearerToken(authorization);
    if !Truthy(token) then Some(Json(401, Failure(Unauthorized)))
    else if !TextTruthy(Lookup(m, TokenKey(AdminScope, token.value))) then Some(Json(401, Failure(SessionExpired)))
    else None
  }

  /** `requireAdminAuth(request, env)`, with its one read of the store. */
  method Authorise(kv: Kv, req: Request) returns (r: Option<Response>)
    ensures r == RequireAdminAuth(kv.entries, Header(req, "authorization"))
  {
    var token := BearerToken(Header(req, "authorization"));
    if !Truthy(token) {
      return Some(Json(401, Failure(Unauthorized)));
    }
    var valid := kv.Get(TokenKey(AdminScope, token.value));
    if !TextTruthy(valid) {
      return Some(Json(401, Failure(SessionExpired)));
    }
    return None;
  }

  /** A download token never opens the admin routes: storing one changes
      nothing about the check. */
  lemma DownloadTokenNeverAuthorises(m: Store, authorization: Option<string>, t: string, e: Entry)
    ensures RequireAdminAuth(m[TokenKey(DownloadScope, t) := e], authorization) == RequireAdminAuth(m, authorization)
  {
    var b := BearerToken(authorization);
    if Truthy(b) {
      GateKeysDistinct(AdminScope, DownloadScope, "", "", b.value, t);
    }
  }

  /** The token an admin login stores is accepted with the header
      `Bearer <token>`, for any non-empty token. */
  lemma IssuedTokenAuthorises(m: Store, token: string)
    requires token != ""
    ensures RequireAdminAuth(m[TokenKey(AdminScope, token) := Entry(Text("1"), Some(TokenTtl(AdminScope)))], Some("Bearer " + token)).None?
  {
    assert ("Bearer " + token)[..7] == "Bearer ";
  }
}
