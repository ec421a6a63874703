/**
 * The failed-attempt counter of src/storage/attempts.ts (the same three
 * helpers close src/worker.js): a decimal string under `failed:<suffix>`.
 */
module Attempts {
  import opened Wrappers
  import opened JsString
  import opened JsNumber
  import opened KvStore
  import opened Constants

  function FailedKey(suffix: string): string {
    "failed:" + suffix
  }

  /** `value ? Number.parseInt(value, 10) || 0 : 0` for the value read
      under the counter key.  The text of a JSON value opens with `{` or
      `[` and parses to NaN. */
  function CountOf(v: Option<Value>): (n: int)
    ensures n == if v.Some? && v.value.Text? && ParseInt(v.value.text).Some? then ParseInt(v.value.text).value else 0
  {
    match v
    case None => 0
    case Some(Text(s)) =>
      if s == "" then 0
      else (match ParseInt(s) case Some(k) => (if k != 0 then k else 0) case None => 0)
    case Some(_) => 0
  }

  function AttemptsIn(m: Store, suffix: string): int {
    CountOf(Lookup(m, FailedKey(suffix)))
  }

  /** The store after `setFailedAttempts(env, suffix, n)`. */
  function WithAttempts(m: Store, suffix: string, n: int): Store {
    m[FailedKey(suffix) := Entry(Text(IntToString(n)), Some(FailedAttemptTtl))]
  }

  /** The store after `resetFailedAttempts(env, suffix)`. */
  function WithoutAttempts(m: Store, suffix: string): Store {
    m - {FailedKey(suffix)}
  }

  method GetFailedAttempts(kv: Kv, suffix: string) returns (n: int)
    ensures n == AttemptsIn(kv.entries, suffix)
  {
    var value := kv.Get(FailedKey(suffix));
    if value.Some? && value.value.Text? && value.value.text != "" {
      var parsed := ParseInt(value.value.text);
      n := if parsed.Some? then parsed.value else 0;
    } else {
      n := 0;
    }
  }

  method SetFailedAttempts(kv: Kv, suffix: string, count: int)
    modifies kv
    ensures kv.entries == WithAttempts(old(kv.entries), suffix, count)
  {
    kv.Put(FailedKey(suffix), Text(IntToString(count)), Some(FailedAttemptTtl));
  }

  method ResetFailedAttempts(kv: Kv, suffix: string)
    modifies kv
    ensures kv.entries == WithoutAttempts(old(kv.entries), suffix)
  {
    kv.Delete(FailedKey(suffix));
  }

  /** Reading the counter back gives what was written, for every integer. */
  lemma SetThenGet(m: Store, suffix: string, n: int)
    ensures AttemptsIn(WithAttempts(m, suffix, n), suffix) == n
    ensures WithAttempts(m, suffix, n)[FailedKey(suffix)].ttl == Some(FailedAttemptTtl)
  {
    ParseIntOfIntToString(n);
  }

  /** After a reset the counter reads 0, and a second reset changes nothing. */
  lemma ResetThenGet(m: Store, suffix: string)
    ensures AttemptsIn(WithoutAttempts(m, suffix), suffix) == 0
    ensures WithoutAttempts(WithoutAttempts(m, suffix), suffix) == WithoutAttempts(m, suffix)
  {
  }

  /** An absent counter, one holding NaN text and one holding "0" read 0. */
  lemma UnparsableReadsZero(m: Store, suffix: string)
    requires FailedKey(suffix) in m ==> m[FailedKey(suffix)].value.Text?
    requires FailedKey(suffix) in m ==> ParseInt(m[FailedKey(suffix)].value.text) in {None, Some(0)}
    ensures AttemptsIn(m, suffix) == 0
  {
  }

  /** Setting and resetting touch the one key `failed:<suffix>`. */
  lemma OnlyCounterKeyChanges(m: Store, suffix: string, n: int, key: string)
    requires key != FailedKey(suffix)
    ensures Lookup(WithAttempts(m, suffix, n), key) == Lookup(m, key)
    ensures Lookup(WithoutAttempts(m, suffix), key) == Lookup(m, key)
  {
  }

  /** Different suffixes are different keys, so counters never share a slot. */
  lemma FailedKeyInjective(a: string, b: string)
    requires FailedKey(a) == FailedKey(b)
    ensures a == b
  {
    assert a == FailedKey(a)[7..];
    assert b == FailedKey(b)[7..];
  }
}
