/** `getClientIp` of src/utils/ip.ts (repeated in src/worker.js). */
module Ip {
  import opened Wrappers
  import opened JsString
  import Http

  /** The address the counters are kept for: Cloudflare's header when it
      is non-empty, else the first hop of `X-Forwarded-For`, trimmed, else
      `unknown`. */
  function ClientIp(headers: map<string, string>): (ip: string)
    ensures var cf := Http.Field(headers, "cf-connecting-ip"); Truthy(cf) ==> ip == cf.value
    ensures var cf, xff := Http.Field(headers, "cf-connecting-ip"), Http.Field(headers, "x-forwarded-for");
      !Truthy(cf) && Truthy(xff) ==>
        && ip == Trim(BeforeFirst(xff.value, ','))
        && ',' !in ip
        && (forall c :: c in ip ==> c in BeforeFirst(xff.value, ','))
        && NoOuterWhiteSpace(ip)
    ensures var cf, xff := Http.Field(headers, "cf-connecting-ip"), Http.Field(headers, "x-forwarded-for");
      !Truthy(cf) && !Truthy(xff) ==> ip == "unknown"
  {
    var cf := Http.Field(headers, "cf-connecting-ip");
    if Truthy(cf) then cf.value
    else
      var forwarded := Http.Field(headers, "x-forwarded-for");
      if Truthy(forwarded) then Trim(BeforeFirst(forwarded.value, ',')) else "unknown"
  }

  /** Whatever `X-Forwarded-For` holds, a non-empty Cloudflare header wins. */
  lemma CloudflareHeaderWins(headers: map<string, string>, forwarded: string)
    requires Truthy(Http.Field(headers, "cf-connecting-ip"))
    ensures ClientIp(headers["x-forwarded-for" := forwarded]) == ClientIp(headers)
  {
    assert Http.Field(headers["x-forwarded-for" := forwarded], "cf-connecting-ip") == Http.Field(headers, "cf-connecting-ip");
  }
}
