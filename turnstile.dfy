/**
 * src/utils/turnstile.ts (repeated in src/worker.js): the switch for the
 * human-verification challenge, and the verifier, whose HTTP call to
 * Cloudflare's siteverify endpoint is an oracle: its outcome is a parameter.
 */
module Turnstile {
  import opened Wrappers
  import opened JsString

  /** `env.TURNSTILE_ENABLED`: unset, a boolean binding or a string binding. */
  datatype Flag = FlagUnset | FlagBool(b: bool) | FlagString(s: string)

  /** `env.TURNSTILE_ENABLED === true || env.TURNSTILE_ENABLED === 'true'`. */
  predicate IsTurnstileEnabled(flag: Flag)
    ensures IsTurnstileEnabled(flag) <==> flag == FlagBool(true) || flag == FlagString("true")
  {
    match flag
    case FlagBool(b) => b
    case FlagString(s) => s == "true"
    case FlagUnset => false
  }

  /** A JSON value as the `success` field of the reply may hold it. */
  datatype JsonValue = JsonBool(b: bool) | JsonString(s: string) | JsonNumber(n: int) | JsonNull | JsonComposite

  /** What the siteverify call comes to: `fetch` or `response.json()`
      throws, or a JSON body with or without a `success` field. */
  datatype Reply = NetworkError | NotJson | Body(success: Option<JsonValue>)

  /** `verifyTurnstile`, which never throws: true exactly when a secret is
      configured and the reply says `success: true`. */
  function VerifyTurnstile(secret: Option<string>, reply: Reply): (ok: bool)
    ensures ok <==> Truthy(secret) && reply == Body(Some(JsonBool(true)))
  {
    if !Truthy(secret) then false
    else
      match reply
      case NetworkError => false
      case NotJson => false
      case Body(success) => success == Some(JsonBool(true))
  }

  /** Without a secret the answer is false before any call is made: the
      reply does not matter. */
  lemma FailsClosedWithoutSecret(secret: Option<string>, r1: Reply, r2: Reply)
    requires !Truthy(secret)
    ensures !VerifyTurnstile(secret, r1) && VerifyTurnstile(secret, r1) == VerifyTurnstile(secret, r2)
  {
  }
}
