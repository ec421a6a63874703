/**
 * The Express variant, server.js: failed-attempt counters and tokens live
 * in four in-memory Maps, tokens map to an expiry time in milliseconds and
 * are checked against `Date.now()`, and a periodic sweep drops expired
 * tokens.  The clock, the client address and the drawn token are
 * parameters.
 */
module Server {
  import opened Wrappers
  import opened JsString
  import opened DownloadTypes
  import opened Http
  import opened Constants
  import opened Turnstile
  import opened Gate
  import opened Auth

  /** The configuration read at start-up.  `DOWNLOAD_PASSWORD` must be set:
      start-up prints `DOWNLOAD_PASSWORD.substring(0, 2)` and throws
      without it. */
  datatype Config = Config(downloadPassword: string, adminPassword: Option<string>, turnstileEnabledVar: Option<string>)

  /** `process.env.TURNSTILE_ENABLED === 'true' || false`. */
  predicate ChallengeEnabled(cfg: Config) {
    cfg.turnstileEnabledVar == Some("true")
  }

  /** The server's verifier has no secret check: it posts whatever secret
      it has and accepts exactly `success === true`. */
  predicate ServerVerifies(reply: Reply) {
    reply == Body(Some(JsonBool(true)))
  }

  /** The lifetimes of server.js, in milliseconds. */
  const DownloadTokenMs: int := 60 * 60 * 1000
  const AdminTokenMs: int := 2 * 60 * 60 * 1000

  function Lifetime(scope: Scope): int {
    if scope == DownloadScope then DownloadTokenMs else AdminTokenMs
  }

  /** The four Maps: counters by address, tokens to expiry times. */
  datatype Tables = Tables(
    failed: map<string, int>,         // `failedAttempts`
    adminFailed: map<string, int>,    // `adminFailedAttempts`
    valid: map<string, int>,          // `validTokens`
    admin: map<string, int>)          // `adminTokens`

  function Counters(t: Tables, scope: Scope): map<string, int> {
    if scope == DownloadScope then t.failed else t.adminFailed
  }

  function WithCounters(t: Tables, scope: Scope, c: map<string, int>): (r: Tables)
    ensures Counters(r, scope) == c && Tokens(r, scope) == Tokens(t, scope)
  {
    if scope == DownloadScope then t.(failed := c) else t.(adminFailed := c)
  }

  function Tokens(t: Tables, scope: Scope): map<string, int> {
    if scope == DownloadScope then t.valid else t.admin
  }

  function WithTokens(t: Tables, scope: Scope, k: map<string, int>): (r: Tables)
    ensures Tokens(r, scope) == k && Counters(r, scope) == Counters(t, scope)
  {
    if scope == DownloadScope then t.(valid := k) else t.(admin := k)
  }

  /** `map.get(key) || 0`. */
  function CountIn(c: map<string, int>, ip: string): int {
    if ip in c then c[ip] else 0
  }

  /** Download: `password === DOWNLOAD_PASSWORD`; admin: the negation of
      `!password || password !== ADMIN_PASSWORD`. */
  predicate ServerAccepts(scope: Scope, cfg: Config, password: Option<string>) {
    match scope
    case DownloadScope => password == Some(cfg.downloadPassword)
    case AdminScope => Truthy(password) && password == cfg.adminPassword
  }

  datatype ServerOutcome = ServerOutcome(tables: Tables, response: Response)

  /** One run of `/api/verify-password` or `/api/admin/login`.  The admin
      handler reads its counter before the configuration check, which
      changes nothing. */
  function ServerGate(scope: Scope, t: Tables, cfg: Config, ip: string, sub: Submission, reply: Reply, token: string, now: int): (o: ServerOutcome)
    ensures o.response.Json?
    ensures o.response.status == 500 <==> scope == AdminScope && !Truthy(cfg.adminPassword)
    ensures var due := ChallengeEnabled(cfg) && CountIn(Counters(t, scope), ip) >= MaxFailedAttempts;
      o.response.status == 400 <==>
        !(scope == AdminScope && !Truthy(cfg.adminPassword)) && due && !(Truthy(sub.turnstileToken) && ServerVerifies(reply))
    ensures var due := ChallengeEnabled(cfg) && CountIn(Counters(t, scope), ip) >= MaxFailedAttempts;
      o.response.status == 200 <==>
        && !(scope == AdminScope && !Truthy(cfg.adminPassword))
        && (!due || (Truthy(sub.turnstileToken) && ServerVerifies(reply)))
        && ServerAccepts(scope, cfg, sub.password)
    ensures o.response.status == 400 || o.response.status == 500 ==> o.tables == t
  {
    if scope == AdminScope && !Truthy(cfg.adminPassword) then ServerOutcome(t, Json(500, Failure(AdminNotConfigured)))
    else
      var attempts := CountIn(Counters(t, scope), ip);
      var enabled := ChallengeEnabled(cfg);
      if enabled && attempts >= MaxFailedAttempts && !Truthy(sub.turnstileToken) then
        ServerOutcome(t, Json(400, CaptchaFailure(CaptchaRequired, true)))
      else if enabled && attempts >= MaxFailedAttempts && !ServerVerifies(reply) then
        ServerOutcome(t, Json(400, CaptchaFailure(CaptchaFailed, true)))
      else
        var c1 := if enabled && attempts >= MaxFailedAttempts then Counters(t, scope) - {ip} else Counters(t, scope);
        if ServerAccepts(scope, cfg, sub.password) then
          var t1 := WithCounters(t, scope, c1 - {ip});
          ServerOutcome(WithTokens(t1, scope, Tokens(t, scope)[token := now + Lifetime(scope)]),
                        Json(200, TokenGranted(token, SuccessMessage(scope))))
        else
          // the count is read again, after the reset above
          var current := CountIn(c1, ip);
          ServerOutcome(WithCounters(t, scope, c1[ip := current + 1]),
                        Json(401, CaptchaFailure(WrongMessage(scope), enabled && current + 1 >= MaxFailedAttempts)))
  }

  /** The result of a token check: the token Map afterwards and the reply
      that stops the request, if any. */
  datatype Check = Check(tokens: map<string, int>, error: Option<Response>)

  /** `!expiresAt` for `map.get(token)`. */
  predicate Unknown(tokens: map<string, int>, token: string) {
    token !in tokens || tokens[token] == 0
  }

  /** The token check of `/api/download/:filename`. */
  function DownloadTokenCheck(tokens: map<string, int>, token: Option<string>, now: int): (r: Check)
    ensures r.error.None? <==> Truthy(token) && !Unknown(tokens, token.value) && now <= tokens[token.value]
    ensures r.error.Some? ==> r.error.value.Json? && r.error.value.status == 401
    ensures r.tokens == if Truthy(token) && !Unknown(tokens, token.value) && now > tokens[token.value] then tokens - {token.value} else tokens
    ensures !Truthy(token) ==> r.error == Some(Json(401, Failure(Unauthorized)))
    ensures Truthy(token) && Unknown(tokens, token.value) ==> r.error == Some(Json(401, Failure(TokenInvalid)))
    ensures Truthy(token) && !Unknown(tokens, token.value) && now > tokens[token.value] ==> r.error == Some(Json(401, Failure(TokenExpired)))
  {
    if !Truthy(token) then Check(tokens, Some(Json(401, Failure(Unauthorized))))
    else if Unknown(tokens, token.value) then Check(tokens, Some(Json(401, Failure(TokenInvalid))))
    else if now > tokens[token.value] then Check(tokens - {token.value}, Some(Json(401, Failure(TokenExpired))))
    else Check(tokens, None)
  }

  /** The `requireAdminAuth` middleware of server.js. */
  function AdminTokenCheck(tokens: map<string, int>, authorization: Option<string>, now: int): (r: Check)
    ensures var t := BearerToken(authorization);
      r.error.None? <==> Truthy(t) && !Unknown(tokens, t.value) && now <= tokens[t.value]
    ensures r.error.Some? ==> r.error.value.Json? && r.error.value.status == 401
    ensures var t := BearerToken(authorization);
      r.tokens == if r.error.Some? && Truthy(t) then tokens - {t.value} else tokens
    ensures var t := BearerToken(authorization);
      !Truthy(t) ==> r.error == Some(Json(401, Failure(Unauthorized)))
    ensures var t := BearerToken(authorization);
      Truthy(t) && r.error.Some? ==> r.error == Some(Json(401, Failure(SessionExpired)))
  {
    var token := BearerToken(authorization);
    if !Truthy(token) then Check(tokens, Some(Json(401, Failure(Unauthorized))))
    else if Unknown(tokens, token.value) || now > tokens[token.value] then
      Check(tokens - {token.value}, Some(Json(401, Failure(SessionExpired))))
    else Check(tokens, None)
  }

  /** The entries the sweep keeps. */
  function Unexpired(tokens: map<string, int>, now: int): (r: map<string, int>)
    ensures forall k :: k in r <==> k in tokens && now <= tokens[k]
    ensures forall k :: k in r ==> r[k] == tokens[k]
  {
    map k | k in tokens && now <= tokens[k] :: tokens[k]
  }

  class ServerState {
    const cfg: Config
    var failedAttempts: map<string, int>
    var adminFailedAttempts: map<string, int>
    var validTokens: map<string, int>
    var adminTokens: map<string, int>

    /** Start-up: four empty Maps. */
    constructor (cfg: Config)
      ensures this.cfg == cfg && State() == Tables(map[], map[], map[], map[])
    {
      this.cfg := cfg;
      failedAttempts, adminFailedAttempts := map[], map[];
      validTokens, adminTokens := map[], map[];
    }

    function State(): Tables
      reads this
    {
      Tables(failedAttempts, adminFailedAttempts, validTokens, adminTokens)
    }

    /** `app.post('/api/verify-password')`. */
    method VerifyPassword(ip: string, sub: Submission, reply: Reply, token: string, now: int) returns (resp: Response)
      modifies this
      ensures ServerOutcome(State(), resp) == ServerGate(DownloadScope, old(State()), cfg, ip, sub, reply, token, now)
    {
      var attempts := CountIn(failedAttempts, ip);
      if ChallengeEnabled(cfg) && attempts >= 3 {
        if !Truthy(sub.turnstileToken) {
          return Json(400, CaptchaFailure(CaptchaRequired, true));
        }
        if !ServerVerifies(reply) {
          return Json(400, CaptchaFailure(CaptchaFailed, true));
        }
        failedAttempts := failedAttempts - {ip};
      }
      if sub.password == Some(cfg.downloadPassword) {
        failedAttempts := failedAttempts - {ip};
        validTokens := validTokens[token := now + 60 * 60 * 1000];
        return Json(200, TokenGranted(token, PasswordCorrect));
      }
      var current := CountIn(failedAttempts, ip);
      failedAttempts := failedAttempts[ip := current + 1];
      return Json(401, CaptchaFailure(PasswordWrong, ChallengeEnabled(cfg) && current + 1 >= 3));
    }

    /** `app.post('/api/admin/login')`. */
    method AdminLogin(ip: string, sub: Submission, reply: Reply, token: string, now: int) returns (resp: Response)
      modifies this
      ensures ServerOutcome(State(), resp) == ServerGate(AdminScope, old(State()), cfg, ip, sub, reply, token, now)
    {
      var attempts := CountIn(adminFailedAttempts, ip);
      if !Truthy(cfg.adminPassword) {
        return Json(500, Failure(AdminNotConfigured));
      }
      if ChallengeEnabled(cfg) && attempts >= 3 {
        if !Truthy(sub.turnstileToken) {
          return Json(400, CaptchaFailure(CaptchaRequired, true));
        }
        if !ServerVerifies(reply) {
          return Json(400, CaptchaFailure(CaptchaFailed, true));
        }
        adminFailedAttempts := adminFailedAttempts - {ip};
      }
      if !Truthy(sub.password) || sub.password != cfg.adminPassword {
        var current := CountIn(adminFailedAttempts, ip);
        adminFailedAttempts := adminFailedAttempts[ip := current + 1];
        return Json(401, CaptchaFailure(AdminPasswordWrong, ChallengeEnabled(cfg) && current + 1 >= 3));
      }
      adminFailedAttempts := adminFailedAttempts - {ip};
      adminTokens := adminTokens[token := now + 2 * 60 * 60 * 1000];
      return Json(200, TokenGranted(token, LoginOk));
    }

    /** The token checks of `app.get('/api/download/:filename')`; None lets
        the request go on to the file lookup. */
    method CheckDownloadToken(token: Option<string>, now: int) returns (error: Option<Response>)
      modifies this
      ensures Check(validTokens, error) == DownloadTokenCheck(old(validTokens), token, now)
      ensures failedAttempts == old(failedAttempts) && adminFailedAttempts == old(adminFailedAttempts) && adminTokens == old(adminTokens)
    {
      if !Truthy(token) {
        return Some(Json(401, Failure(Unauthorized)));
      }
      if token.value !in validTokens || validTokens[token.value] == 0 {
        return Some(Json(401, Failure(TokenInvalid)));
      }
      if now > validTokens[token.value] {
        validTokens := validTokens - {token.value};
        return Some(Json(401, Failure(TokenExpired)));
      }
      return None;
    }

    /** `requireAdminAuth`; None is `next()`. */
    method RequireAdminAuth(authorization: Option<string>, now: int) returns (error: Option<Response>)
      modifies this
      ensures Check(adminTokens, error) == AdminTokenCheck(old(adminTokens), authorization, now)
      ensures failedAttempts == old(failedAttempts) && adminFailedAttempts == old(adminFailedAttempts) && validTokens == old(validTokens)
    {
      var token := BearerToken(authorization);
      if !Truthy(token) {
        return Some(Json(401, Failure(Unauthorized)));
      }
      if token.value !in adminTokens || adminTokens[token.value] == 0 || now > adminTokens[token.value] {
        adminTokens := adminTokens - {token.value};
        return Some(Json(401, Failure(SessionExpired)));
      }
      return None;
    }

    /** The body of the ten-minute `setInterval`: both token Maps are
        walked and every entry with `now > expiresAt` is deleted. */
    method Sweep(now: int)
      modifies this
      ensures validTokens == Unexpired(old(validTokens), now)
      ensures adminTokens == Unexpired(old(adminTokens), now)
      ensures failedAttempts == old(failedAttempts) && adminFailedAttempts == old(adminFailedAttempts)
    {
      ghost var valid0 := validTokens;
      var pending := validTokens.Keys;
      while pending != {}
        invariant pending <= valid0.Keys
        invariant validTokens == map k | k in valid0 && (k in pending || now <= valid0[k]) :: valid0[k]
        invariant adminTokens == old(adminTokens)
        invariant failedAttempts == old(failedAttempts) && adminFailedAttempts == old(adminFailedAttempts)
        decreases pending
      {
        var token :| token in pending;
        if now > validTokens[token] {
          validTokens := validTokens - {token};
        }
        pending := pending - {token};
      }
      ghost var admin0 := adminTokens;
      pending := adminTokens.Keys;
      while pending != {}
        invariant pending <= admin0.Keys
        invariant adminTokens == map k | k in admin0 && (k in pending || now <= admin0[k]) :: admin0[k]
        invariant validTokens == Unexpired(valid0, now) && admin0 == old(adminTokens)
        invariant failedAttempts == old(failedAttempts) && adminFailedAttempts == old(adminFailedAttempts)
        decreases pending
      {
        var token :| token in pending;
        if now > adminTokens[token] {
          adminTokens := adminTokens - {token};
        }
        pending := pending - {token};
      }
    }
  }

  // ---------------------------------------------------------------------
  // The gate

  /** A run of one scope leaves both Maps of the other scope as they were. */
  lemma ServerScopeIsolation(scope: Scope, other: Scope, t: Tables, cfg: Config, ip: string, sub: Submission, reply: Reply, token: string, now: int)
    requires scope != other
    ensures var o := ServerGate(scope, t, cfg, ip, sub, reply, token, now);
      Counters(o.tables, other) == Counters(t, other) && Tokens(o.tables, other) == Tokens(t, other)
  {
  }

  /** A due challenge without a response, or one the verifier refuses,
      answers 400 and changes no Map. */
  lemma ServerChallengeRefused(scope: Scope, t: Tables, cfg: Config, ip: string, sub: Submission, reply: Reply, token: string, now: int)
    requires scope == AdminScope ==> Truthy(cfg.adminPassword)
    requires ChallengeEnabled(cfg) && CountIn(Counters(t, scope), ip) >= MaxFailedAttempts
    requires !Truthy(sub.turnstileToken) || !ServerVerifies(reply)
    ensures var o := ServerGate(scope, t, cfg, ip, sub, reply, token, now);
      o.tables == t && o.response.Json? && o.response.status == 400 && o.response.payload.requireCaptcha == Some(true)
  {
  }

  /** After a verified challenge a wrong password counts from zero again:
      the counter becomes 1 and no challenge is asked for. */
  lemma ServerRereadsAfterChallenge(scope: Scope, t: Tables, cfg: Config, ip: string, sub: Submission, reply: Reply, token: string, now: int)
    requires scope == AdminScope ==> Truthy(cfg.adminPassword)
    requires ChallengeEnabled(cfg) && CountIn(Counters(t, scope), ip) >= MaxFailedAttempts
    requires Truthy(sub.turnstileToken) && ServerVerifies(reply)
    requires !ServerAccepts(scope, cfg, sub.password)
    ensures var o := ServerGate(scope, t, cfg, ip, sub, reply, token, now);
      && CountIn(Counters(o.tables, scope), ip) == 1
      && o.response == Json(401, CaptchaFailure(WrongMessage(scope), false))
  {
  }

  /** Without a due challenge a wrong password adds one to the count. */
  lemma ServerWrongPassword(scope: Scope, t: Tables, cfg: Config, ip: string, sub: Submission, reply: Reply, token: string, now: int)
    requires scope == AdminScope ==> Truthy(cfg.adminPassword)
    requires !(ChallengeEnabled(cfg) && CountIn(Counters(t, scope), ip) >= MaxFailedAttempts)
    requires !ServerAccepts(scope, cfg, sub.password)
    ensures var o, n := ServerGate(scope, t, cfg, ip, sub, reply, token, now), CountIn(Counters(t, scope), ip) + 1;
      && Counters(o.tables, scope) == Counters(t, scope)[ip := n]
      && Tokens(o.tables, scope) == Tokens(t, scope)
      && o.response == Json(401, CaptchaFailure(WrongMessage(scope), ChallengeEnabled(cfg) && n >= MaxFailedAttempts))
  {
  }

  /** The right password clears the address's counter and maps the new
      token to `now` plus the scope's lifetime. */
  lemma ServerCorrectPassword(scope: Scope, t: Tables, cfg: Config, ip: string, sub: Submission, reply: Reply, token: string, now: int)
    requires scope == AdminScope ==> Truthy(cfg.adminPassword)
    requires !(ChallengeEnabled(cfg) && CountIn(Counters(t, scope), ip) >= MaxFailedAttempts) || (Truthy(sub.turnstileToken) && ServerVerifies(reply))
    requires ServerAccepts(scope, cfg, sub.password)
    ensures var o := ServerGate(scope, t, cfg, ip, sub, reply, token, now);
      && Counters(o.tables, scope) == Counters(t, scope) - {ip}
      && Tokens(o.tables, scope) == Tokens(t, scope)[token := now + Lifetime(scope)]
      && o.response == Json(200, TokenGranted(token, SuccessMessage(scope)))
  {
  }

  /** Admin login without `ADMIN_PASSWORD` answers 500 and changes nothing. */
  lemma ServerAdminUnconfigured(t: Tables, cfg: Config, ip: string, sub: Submission, reply: Reply, token: string, now: int)
    requires !Truthy(cfg.adminPassword)
    ensures ServerGate(AdminScope, t, cfg, ip, sub, reply, token, now) == ServerOutcome(t, Json(500, Failure(AdminNotConfigured)))
  {
  }

  /** The Workers and the server part ways after a verified challenge: from
      the same count of at least 3 and the same wrong password, the Workers
      store the count plus one and keep asking for the challenge, the
      server stores 1 and stops asking. */
  lemma CountersDiverge(scope: Scope, m: KvStore.Store, env: Env, t: Tables, cfg: Config, ip: string, sub: Submission, reply: Reply, token: string, now: int)
    requires Configured(scope, env) && (scope == AdminScope ==> Truthy(cfg.adminPassword))
    requires IsTurnstileEnabled(env.turnstileEnabled) && ChallengeEnabled(cfg)
    requires Attempts.AttemptsIn(m, CounterSuffix(scope, ip)) == CountIn(Counters(t, scope), ip) >= MaxFailedAttempts
    requires Truthy(sub.turnstileToken) && VerifyTurnstile(env.turnstileSecretKey, reply) && ServerVerifies(reply)
    requires !PasswordAccepted(scope, env, sub.password) && !ServerAccepts(scope, cfg, sub.password)
    ensures var kv, srv := GateOutcome(scope, m, env, ip, sub, reply, token), ServerGate(scope, t, cfg, ip, sub, reply, token, now);
      && Attempts.AttemptsIn(kv.store, CounterSuffix(scope, ip)) == CountIn(Counters(t, scope), ip) + 1
      && CountIn(Counters(srv.tables, scope), ip) == 1
      && kv.response.payload.requireCaptcha == Some(true)
      && srv.response.payload.requireCaptcha == Some(false)
  {
    StaleCountAfterChallenge(scope, m, env, ip, sub, reply, token);
    ServerRereadsAfterChallenge(scope, t, cfg, ip, sub, reply, token, now);
  }

  // ---------------------------------------------------------------------
  // Tokens

  /** A download token issued at `issued` is accepted at every `now` up to
      and including its expiry, and deleted and refused after it. */
  lemma DownloadTokenExpiry(tokens: map<string, int>, token: string, issued: int, now: int)
    requires token != "" && issued >= 0
    ensures var k := tokens[token := issued + DownloadTokenMs];
      && (now <= issued + DownloadTokenMs ==> DownloadTokenCheck(k, Some(token), now) == Check(k, None))
      && (now > issued + DownloadTokenMs ==>
            DownloadTokenCheck(k, Some(token), now) == Check(tokens - {token}, Some(Json(401, Failure(TokenExpired)))))
  {
    var k := tokens[token := issued + DownloadTokenMs];
    assert k - {token} == tokens - {token};
  }

  /** An admin token issued at `issued` opens the admin routes with
      `Bearer <token>` up to its expiry, and is deleted after it. */
  lemma AdminTokenExpiry(tokens: map<string, int>, token: string, issued: int, now: int)
    requires token != "" && issued >= 0
    ensures var k, h := tokens[token := issued + AdminTokenMs], Some("Bearer " + token);
      && (now <= issued + AdminTokenMs ==> AdminTokenCheck(k, h, now) == Check(k, None))
      && (now > issued + AdminTokenMs ==> AdminTokenCheck(k, h, now) == Check(tokens - {token}, Some(Json(401, Failure(SessionExpired)))))
  {
    var k := tokens[token := issued + AdminTokenMs];
    assert ("Bearer " + token)[..7] == "Bearer ";
    assert ("Bearer " + token)[7..] == token;
    assert k - {token} == tokens - {token};
  }

  /** The sweep keeps exactly the tokens a check would still accept, and a
      second sweep at the same time changes nothing. */
  lemma SweepKeepsValidTokens(tokens: map<string, int>, token: string, now: int)
    requires token != "" && (token in tokens ==> tokens[token] != 0)
    ensures token in Unexpired(tokens, now) <==> DownloadTokenCheck(tokens, Some(token), now).error.None?
    ensures DownloadTokenCheck(Unexpired(tokens, now), Some(token), now).error.None? <==> DownloadTokenCheck(tokens, Some(token), now).error.None?
    ensures Unexpired(Unexpired(tokens, now), now) == Unexpired(tokens, now)
  {
  }

  /** An expired admin token is refused whether or not the sweep has run. */
  lemma SweepOrCheckRefuseExpired(tokens: map<string, int>, authorization: Option<string>, now: int)
    ensures AdminTokenCheck(Unexpired(tokens, now), authorization, now).error.None?
        <==> AdminTokenCheck(tokens, authorization, now).error.None?
  {
  }
}
