/**
 * The password gate of the two Workers, shared by the download scope
 * (`handleVerifyPassword`, src/handlers/download.ts and src/worker.js) and
 * the admin scope (`handleAdminLogin`, src/handlers/admin.ts and
 * src/worker.js): a failed-attempt counter per scope and client address, a
 * challenge once it reaches the threshold, and a token on success.
 */
module Gate {
  import opened Wrappers
  import opened JsString
  import opened KvStore
  import opened DownloadTypes
  import opened Http
  import opened Attempts
  import opened Constants
  import opened Turnstile
  import opened Ip

  datatype Scope = DownloadScope | AdminScope

  /** `download:<ip>` or `admin:<ip>`, the suffix of the counter key. */
  function CounterSuffix(scope: Scope, ip: string): string {
    (if scope == DownloadScope then "download:" else "admin:") + ip
  }

  /** `download_token:<t>` or `admin_token:<t>`. */
  function TokenKey(scope: Scope, token: string): string {
    (if scope == DownloadScope then "download_token:" else "admin_token:") + token
  }

  function TokenTtl(scope: Scope): nat {
    if scope == DownloadScope then DownloadTokenTtl else AdminTokenTtl
  }

  /** The bindings of src/types/env.ts the gate reads. */
  datatype Env = Env(
    adminPassword: Option<string>,
    downloadPassword: Option<string>,
    turnstileSecretKey: Option<string>,
    turnstileEnabled: Flag)

  /** The two fields of the JSON body the gate reads. */
  datatype Submission = Submission(password: Option<string>, turnstileToken: Option<string>)

  function SubmissionOf(req: Request): Submission {
    Submission(BodyField(req, "password"), BodyField(req, "turnstileToken"))
  }

  /** The new store and the reply of one handler run. */
  datatype Outcome = Outcome(store: Store, response: Response)

  /** Only the admin scope refuses to run without its password configured. */
  predicate Configured(scope: Scope, env: Env) {
    scope == DownloadScope || Truthy(env.adminPassword)
  }

  /** Download: `password === env.DOWNLOAD_PASSWORD`, where two missing
      values are equal.  Admin: the negation of
      `!password || password !== env.ADMIN_PASSWORD`. */
  predicate PasswordAccepted(scope: Scope, env: Env, password: Option<string>) {
    match scope
    case DownloadScope => password == env.downloadPassword
    case AdminScope => Truthy(password) && password == env.adminPassword
  }

  function SuccessMessage(scope: Scope): Message {
    if scope == DownloadScope then PasswordCorrect else LoginOk
  }

  function WrongMessage(scope: Scope): Message {
    if scope == DownloadScope then PasswordWrong else AdminPasswordWrong
  }

  /** The counter read at the start demands a challenge. */
  predicate ChallengeDue(env: Env, attempts: int) {
    IsTurnstileEnabled(env.turnstileEnabled) && attempts >= MaxFailedAttempts
  }

  /** The request gets past the challenge step. */
  predicate ChallengePassed(env: Env, attempts: int, sub: Submission, reply: Reply) {
    !ChallengeDue(env, attempts) || (Truthy(sub.turnstileToken) && VerifyTurnstile(env.turnstileSecretKey, reply))
  }

  /** One run of the gate.  `reply` is what the siteverify call would
      answer and `token` the value `createToken()` draws. */
  function GateOutcome(scope: Scope, m: Store, env: Env, ip: string, sub: Submission, reply: Reply, token: string): (o: Outcome)
    ensures o.response.Json?
    ensures o.response.status == 500 <==> !Configured(scope, env)
    ensures o.response.status == 400 <==>
      Configured(scope, env) && !ChallengePassed(env, AttemptsIn(m, CounterSuffix(scope, ip)), sub, reply)
    ensures o.response.status == 200 <==>
      && Configured(scope, env) && ChallengePassed(env, AttemptsIn(m, CounterSuffix(scope, ip)), sub, reply)
      && PasswordAccepted(scope, env, sub.password)
    ensures o.response.status == 400 || o.response.status == 500 ==> o.store == m
  {
    var suffix := CounterSuffix(scope, ip);
    if !Configured(scope, env) then Outcome(m, Json(500, Failure(AdminNotConfigured)))
    else
      var attempts := AttemptsIn(m, suffix);
      var enabled := IsTurnstileEnabled(env.turnstileEnabled);
      if enabled && attempts >= MaxFailedAttempts && !Truthy(sub.turnstileToken) then
        Outcome(m, Json(400, CaptchaFailure(CaptchaRequired, true)))
      else if enabled && attempts >= MaxFailedAttempts && !VerifyTurnstile(env.turnstileSecretKey, reply) then
        Outcome(m, Json(400, CaptchaFailure(CaptchaFailed, true)))
      else
        var m1 := if enabled && attempts >= MaxFailedAttempts then WithoutAttempts(m, suffix) else m;
        Settled(scope, m1, env, suffix, attempts, sub.password, token)
  }

  /** The step after the challenge, from the store `m1` it left and the
      count read at the start. */
  function Settled(scope: Scope, m1: Store, env: Env, suffix: string, attempts: int, password: Option<string>, token: string): Outcome {
    if PasswordAccepted(scope, env, password) then
      Outcome(WithoutAttempts(m1, suffix)[TokenKey(scope, token) := Entry(Text("1"), Some(TokenTtl(scope)))],
              Json(200, TokenGranted(token, SuccessMessage(scope))))
    else
      var nextAttempts := attempts + 1;
      Outcome(WithAttempts(m1, suffix, nextAttempts),
              Json(401, CaptchaFailure(WrongMessage(scope), IsTurnstileEnabled(env.turnstileEnabled) && nextAttempts >= MaxFailedAttempts)))
  }

  /** The opening both handlers repeat: the counter is read and, when a
      challenge is due, the response is checked and the counter reset.  A
      refusal is the 400 reply and leaves the store as it was. */
  method RunChallenge(kv: Kv, env: Env, suffix: string, sub: Submission, reply: Reply) returns (attempts: int, refusal: Option<Response>)
    modifies kv
    ensures attempts == AttemptsIn(old(kv.entries), suffix)
    ensures refusal.Some? <==> !ChallengePassed(env, attempts, sub, reply)
    ensures refusal.Some? ==> kv.entries == old(kv.entries)
    ensures refusal.Some? ==> refusal.value == Json(400, CaptchaFailure(if Truthy(sub.turnstileToken) then CaptchaFailed else CaptchaRequired, true))
    ensures refusal.None? ==> kv.entries == if ChallengeDue(env, attempts) then WithoutAttempts(old(kv.entries), suffix) else old(kv.entries)
  {
    attempts := GetFailedAttempts(kv, suffix);
    if IsTurnstileEnabled(env.turnstileEnabled) && attempts >= MaxFailedAttempts {
      if !Truthy(sub.turnstileToken) {
        return attempts, Some(Json(400, CaptchaFailure(CaptchaRequired, true)));
      }
      var valid := VerifyTurnstile(env.turnstileSecretKey, reply);
      if !valid {
        return attempts, Some(Json(400, CaptchaFailure(CaptchaFailed, true)));
      }
      ResetFailedAttempts(kv, suffix);
    }
    return attempts, None;
  }

  /** The step both handlers repeat after the challenge: the right
      password resets the counter and stores the token, a wrong one stores
      the count read at the start plus one. */
  method Settle(kv: Kv, scope: Scope, env: Env, suffix: string, attempts: int, password: Option<string>, token: string) returns (resp: Response)
    modifies kv
    ensures Outcome(kv.entries, resp) == Settled(scope, old(kv.entries), env, suffix, attempts, password, token)
  {
    if PasswordAccepted(scope, env, password) {
      ResetFailedAttempts(kv, suffix);
      kv.Put(TokenKey(scope, token), Text("1"), Some(TokenTtl(scope)));
      return Json(200, TokenGranted(token, SuccessMessage(scope)));
    }
    var nextAttempts := attempts + 1;
    SetFailedAttempts(kv, suffix, nextAttempts);
    return Json(401, CaptchaFailure(WrongMessage(scope), IsTurnstileEnabled(env.turnstileEnabled) && nextAttempts >= MaxFailedAttempts));
  }

  // ---------------------------------------------------------------------
  // Keys

  /** Counter keys and token keys of the two scopes, and the catalog's
      keys, are pairwise different. */
  lemma GateKeysDistinct(s1: Scope, s2: Scope, ip1: string, ip2: string, t1: string, t2: string)
    ensures FailedKey(CounterSuffix(s1, ip1)) != TokenKey(s2, t2)
    ensures s1 != s2 ==> FailedKey(CounterSuffix(s1, ip1)) != FailedKey(CounterSuffix(s2, ip2))
    ensures s1 != s2 ==> TokenKey(s1, t1) != TokenKey(s2, t2)
  {
    var f1, f2 := FailedKey(CounterSuffix(s1, ip1)), FailedKey(CounterSuffix(s2, ip2));
    var k1, k2 := TokenKey(s1, t1), TokenKey(s2, t2);
    assert f1[0] == 'f' && k2[0] != 'f';
    assert f1[7] == (if s1 == DownloadScope then 'd' else 'a');
    assert f2[7] == (if s2 == DownloadScope then 'd' else 'a');
    assert k1[0] == (if s1 == DownloadScope then 'd' else 'a');
    assert k2[0] == (if s2 == DownloadScope then 'd' else 'a');
  }

  lemma TokenKeyInjective(scope: Scope, a: string, b: string)
    requires TokenKey(scope, a) == TokenKey(scope, b)
    ensures a == b
  {
    var n := if scope == DownloadScope then 15 else 12;
    assert TokenKey(scope, a)[n..] == a;
    assert TokenKey(scope, b)[n..] == b;
  }

  // ---------------------------------------------------------------------
  // Properties of one run

  /** The admin scope without its password answers 500 before reading or
      writing anything. */
  lemma UnconfiguredAdmin(m: Store, env: Env, ip: string, sub: Submission, reply: Reply, token: string)
    requires !Truthy(env.adminPassword)
    ensures GateOutcome(AdminScope, m, env, ip, sub, reply, token) == Outcome(m, Json(500, Failure(AdminNotConfigured)))
  {
  }

  /** A due challenge without a response is refused, and nothing is
      written or deleted. */
  lemma ChallengeWithoutResponse(scope: Scope, m: Store, env: Env, ip: string, sub: Submission, reply: Reply, token: string)
    requires Configured(scope, env)
    requires ChallengeDue(env, AttemptsIn(m, CounterSuffix(scope, ip))) && !Truthy(sub.turnstileToken)
    ensures GateOutcome(scope, m, env, ip, sub, reply, token) == Outcome(m, Json(400, CaptchaFailure(CaptchaRequired, true)))
  {
  }

  /** A response the verifier does not accept is refused; the counter is
      not touched and the password is not looked at. */
  lemma ChallengeRejected(scope: Scope, m: Store, env: Env, ip: string, sub: Submission, reply: Reply, token: string)
    requires Configured(scope, env)
    requires ChallengeDue(env, AttemptsIn(m, CounterSuffix(scope, ip))) && Truthy(sub.turnstileToken)
    requires !VerifyTurnstile(env.turnstileSecretKey, reply)
    ensures forall p :: GateOutcome(scope, m, env, ip, Submission(p, sub.turnstileToken), reply, token)
                     == Outcome(m, Json(400, CaptchaFailure(CaptchaFailed, true)))
  {
  }

  /** The right password clears the counter and stores exactly one token,
      the one the reply carries, with the scope's lifetime. */
  lemma CorrectPassword(scope: Scope, m: Store, env: Env, ip: string, sub: Submission, reply: Reply, token: string)
    requires Configured(scope, env)
    requires ChallengePassed(env, AttemptsIn(m, CounterSuffix(scope, ip)), sub, reply)
    requires PasswordAccepted(scope, env, sub.password)
    ensures var o := GateOutcome(scope, m, env, ip, sub, reply, token);
      && o.response == Json(200, TokenGranted(token, SuccessMessage(scope)))
      && FailedKey(CounterSuffix(scope, ip)) !in o.store
      && AttemptsIn(o.store, CounterSuffix(scope, ip)) == 0
      && TokenKey(scope, token) in o.store
      && o.store[TokenKey(scope, token)] == Entry(Text("1"), Some(TokenTtl(scope)))
      && forall k :: k != FailedKey(CounterSuffix(scope, ip)) && k != TokenKey(scope, token) ==> Lookup(o.store, k) == Lookup(m, k)
  {
    var suffix := CounterSuffix(scope, ip);
    var attempts := AttemptsIn(m, suffix);
    var m1 := if ChallengeDue(env, attempts) then WithoutAttempts(m, suffix) else m;
    assert GateOutcome(scope, m, env, ip, sub, reply, token) == Settled(scope, m1, env, suffix, attempts, sub.password, token);
    GateKeysDistinct(scope, scope, ip, ip, token, token);
  }

  /** A wrong password writes the count read at the start plus one, and
      asks for the challenge exactly when that reaches the threshold. */
  lemma WrongPassword(scope: Scope, m: Store, env: Env, ip: string, sub: Submission, reply: Reply, token: string)
    requires Configured(scope, env)
    requires ChallengePassed(env, AttemptsIn(m, CounterSuffix(scope, ip)), sub, reply)
    requires !PasswordAccepted(scope, env, sub.password)
    ensures var attempts, o := AttemptsIn(m, CounterSuffix(scope, ip)), GateOutcome(scope, m, env, ip, sub, reply, token);
      && AttemptsIn(o.store, CounterSuffix(scope, ip)) == attempts + 1
      && o.store[FailedKey(CounterSuffix(scope, ip))].ttl == Some(FailedAttemptTtl)
      && o.response == Json(401, CaptchaFailure(WrongMessage(scope), IsTurnstileEnabled(env.turnstileEnabled) && attempts + 1 >= MaxFailedAttempts))
      && forall k :: k != FailedKey(CounterSuffix(scope, ip)) ==> Lookup(o.store, k) == Lookup(m, k)
  {
    var suffix := CounterSuffix(scope, ip);
    var attempts := AttemptsIn(m, suffix);
    var m1 := if ChallengeDue(env, attempts) then WithoutAttempts(m, suffix) else m;
    var st := WithAttempts(m1, suffix, attempts + 1);
    WrongPasswordOutcome(scope, m, env, ip, sub, reply, token);
    assert GateOutcome(scope, m, env, ip, sub, reply, token).store == st;
    SetThenGet(m1, suffix, attempts + 1);
    forall k | k != FailedKey(suffix)
      ensures Lookup(st, k) == Lookup(m, k)
    {
      OnlyCounterKeyChanges(m1, suffix, attempts + 1, k);
      OnlyCounterKeyChanges(m, suffix, attempts + 1, k);
    }
  }

  /** The outcome of a wrong password, unfolded once. */
  lemma WrongPasswordOutcome(scope: Scope, m: Store, env: Env, ip: string, sub: Submission, reply: Reply, token: string)
    requires Configured(scope, env)
    requires ChallengePassed(env, AttemptsIn(m, CounterSuffix(scope, ip)), sub, reply)
    requires !PasswordAccepted(scope, env, sub.password)
    ensures var suffix := CounterSuffix(scope, ip); var attempts := AttemptsIn(m, suffix);
      GateOutcome(scope, m, env, ip, sub, reply, token)
        == Outcome(WithAttempts(if ChallengeDue(env, attempts) then WithoutAttempts(m, suffix) else m, suffix, attempts + 1),
                   Json(401, CaptchaFailure(WrongMessage(scope), IsTurnstileEnabled(env.turnstileEnabled) && attempts + 1 >= MaxFailedAttempts)))
  {
  }

  /** After a verified challenge the reset is lost: the count written is
      the one read before the reset plus one, at least 4, and the reply
      still asks for the challenge. */
  lemma StaleCountAfterChallenge(scope: Scope, m: Store, env: Env, ip: string, sub: Submission, reply: Reply, token: string)
    requires Configured(scope, env)
    requires ChallengeDue(env, AttemptsIn(m, CounterSuffix(scope, ip)))
    requires Truthy(sub.turnstileToken) && VerifyTurnstile(env.turnstileSecretKey, reply)
    requires !PasswordAccepted(scope, env, sub.password)
    ensures var o := GateOutcome(scope, m, env, ip, sub, reply, token);
      && AttemptsIn(o.store, CounterSuffix(scope, ip)) == AttemptsIn(m, CounterSuffix(scope, ip)) + 1 >= 4
      && o.response.payload.requireCaptcha == Some(true)
  {
    WrongPassword(scope, m, env, ip, sub, reply, token);
  }

  /** A run of one scope changes no counter and no token of the other scope. */
  lemma ScopeIsolation(scope: Scope, other: Scope, m: Store, env: Env, ip: string, sub: Submission, reply: Reply, token: string, ip2: string, t2: string)
    requires scope != other
    ensures var o := GateOutcome(scope, m, env, ip, sub, reply, token);
      && Lookup(o.store, FailedKey(CounterSuffix(other, ip2))) == Lookup(m, FailedKey(CounterSuffix(other, ip2)))
      && Lookup(o.store, TokenKey(other, t2)) == Lookup(m, TokenKey(other, t2))
  {
    GateKeysDistinct(scope, other, ip, ip2, token, t2);
    GateKeysDistinct(other, scope, ip2, ip, t2, token);
    GateTouchesTwoKeys(scope, m, env, ip, sub, reply, token, FailedKey(CounterSuffix(other, ip2)));
    GateTouchesTwoKeys(scope, m, env, ip, sub, reply, token, TokenKey(other, t2));
  }

  /** A run reads and writes the store at its counter key and its token key
      only. */
  lemma GateTouchesTwoKeys(scope: Scope, m: Store, env: Env, ip: string, sub: Submission, reply: Reply, token: string, k: string)
    requires k != FailedKey(CounterSuffix(scope, ip)) && k != TokenKey(scope, token)
    ensures Lookup(GateOutcome(scope, m, env, ip, sub, reply, token).store, k) == Lookup(m, k)
  {
    var suffix := CounterSuffix(scope, ip);
    var attempts := AttemptsIn(m, suffix);
    var o := GateOutcome(scope, m, env, ip, sub, reply, token);
    if !Configured(scope, env) || !ChallengePassed(env, attempts, sub, reply) {
      assert o.store == m;
    } else {
      var m1 := if ChallengeDue(env, attempts) then WithoutAttempts(m, suffix) else m;
      assert o == Settled(scope, m1, env, suffix, attempts, sub.password, token);
      OnlyCounterKeyChanges(m, suffix, attempts + 1, k);
      SettledTouchesTwoKeys(scope, m1, env, suffix, attempts, sub.password, token, k);
    }
  }

  lemma SettledTouchesTwoKeys(scope: Scope, m1: Store, env: Env, suffix: string, attempts: int, password: Option<string>, token: string, k: string)
    requires k != FailedKey(suffix) && k != TokenKey(scope, token)
    ensures Lookup(Settled(scope, m1, env, suffix, attempts, password, token).store, k) == Lookup(m1, k)
  {
    OnlyCounterKeyChanges(m1, suffix, attempts + 1, k);
  }

  /** An empty or missing admin password is a failure that counts. */
  lemma AdminEmptyPasswordCounts(m: Store, env: Env, ip: string, sub: Submission, reply: Reply, token: string)
    requires Truthy(env.adminPassword) && !Truthy(sub.password)
    requires ChallengePassed(env, AttemptsIn(m, CounterSuffix(AdminScope, ip)), sub, reply)
    ensures var o := GateOutcome(AdminScope, m, env, ip, sub, reply, token);
      AttemptsIn(o.store, CounterSuffix(AdminScope, ip)) == AttemptsIn(m, CounterSuffix(AdminScope, ip)) + 1
      && o.response.status == 401
  {
    WrongPassword(AdminScope, m, env, ip, sub, reply, token);
  }

  /** With `DOWNLOAD_PASSWORD` unset, a body without a `password` field is
      accepted: both sides of `===` are `undefined`. */
  lemma UnsetDownloadPasswordAdmits(m: Store, env: Env, ip: string, reply: Reply, token: string)
    requires env.downloadPassword.None?
    requires !ChallengeDue(env, AttemptsIn(m, CounterSuffix(DownloadScope, ip)))
    ensures GateOutcome(DownloadScope, m, env, ip, Submission(None, None), reply, token).response
         == Json(200, TokenGranted(token, PasswordCorrect))
  {
  }

  /** Three wrong passwords from a fresh address; the next request must
      bring a challenge response. */
  lemma ThreeStrikes(scope: Scope, m: Store, env: Env, ip: string, wrong: Option<string>, reply: Reply, t: string)
    requires Configured(scope, env) && IsTurnstileEnabled(env.turnstileEnabled)
    requires FailedKey(CounterSuffix(scope, ip)) !in m
    requires !PasswordAccepted(scope, env, wrong)
    ensures var sub := Submission(wrong, None);
      var o1 := GateOutcome(scope, m, env, ip, sub, reply, t);
      var o2 := GateOutcome(scope, o1.store, env, ip, sub, reply, t);
      var o3 := GateOutcome(scope, o2.store, env, ip, sub, reply, t);
      && o1.response.payload.requireCaptcha == Some(false)
      && o2.response.payload.requireCaptcha == Some(false)
      && o3.response.payload.requireCaptcha == Some(true)
      && GateOutcome(scope, o3.store, env, ip, sub, reply, t) == Outcome(o3.store, Json(400, CaptchaFailure(CaptchaRequired, true)))
  {
    var sub := Submission(wrong, None);
    var suffix := CounterSuffix(scope, ip);
    var o1 := GateOutcome(scope, m, env, ip, sub, reply, t);
    WrongPassword(scope, m, env, ip, sub, reply, t);
    var o2 := GateOutcome(scope, o1.store, env, ip, sub, reply, t);
    WrongPassword(scope, o1.store, env, ip, sub, reply, t);
    var o3 := GateOutcome(scope, o2.store, env, ip, sub, reply, t);
    WrongPassword(scope, o2.store, env, ip, sub, reply, t);
    assert AttemptsIn(o3.store, suffix) == 3;
  }
}
