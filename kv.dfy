/**
 * The Workers KV namespace (`env.APP_KV`) and the R2 bucket
 * (`env.UPLOADS_BUCKET`) as mutable maps.  A KV value is either text put
 * as a string or JSON put with `JSON.stringify`; TTL expiry is recorded
 * but never acted upon.
 */
module KvStore {
  import opened Wrappers
  import opened Uri
  import opened DownloadTypes

  datatype Value =
    | Text(text: string)            // put as a plain string
    | Record(item: Item)            // `JSON.stringify(item)`
    | IdList(ids: seq<string>)      // `JSON.stringify(index)`

  /** A stored value with the `expirationTtl` it was put with. */
  datatype Entry = Entry(value: Value, ttl: Option<nat>)

  type Store = map<string, Entry>

  /** `kv.get(key)`, null when the key is absent. */
  function Lookup(m: Store, key: string): (v: Option<Value>)
    ensures v.Some? <==> key in m
  {
    if key in m then Some(m[key].value) else None
  }

  /** Whether a text read of the value is truthy: present and not the empty
      string.  The text of a JSON value is never empty. */
  predicate TextTruthy(v: Option<Value>) {
    v.Some? && v.value != Text("")
  }

  /** `kv.get(key, 'json')` where an item is expected: the stored record,
      null for anything else. */
  function JsonItem(v: Option<Value>): (r: Option<Item>)
    ensures r.Some? <==> v.Some? && v.value.Record?
  {
    match v
    case Some(Record(item)) => Some(item)
    case _ => None
  }

  /** `Array.isArray(index) ? index : []` after `kv.get(key, 'json')`. */
  function JsonIds(v: Option<Value>): (ids: seq<string>)
    ensures v.Some? && v.value.IdList? ==> ids == v.value.ids
    ensures !(v.Some? && v.value.IdList?) ==> ids == []
  {
    match v
    case Some(IdList(ids)) => ids
    case _ => []
  }

  class Kv {
    var entries: Store

    constructor (init: Store)
      ensures entries == init
    {
      entries := init;
    }

    method Get(key: string) returns (v: Option<Value>)
      ensures v == Lookup(entries, key)
    {
      v := if key in entries then Some(entries[key].value) else None;
    }

    /** `kv.get(keys, 'json')`: one lookup for a batch of keys. */
    method GetBatch(keys: seq<string>) returns (results: map<string, Option<Value>>)
      ensures forall k :: k in keys ==> k in results && results[k] == Lookup(entries, k)
    {
      results := map k | k in keys :: if k in entries then Some(entries[k].value) else None;
    }

    method Put(key: string, value: Value, ttl: Option<nat>)
      modifies this
      ensures entries == old(entries)[key := Entry(value, ttl)]
    {
      entries := entries[key := Entry(value, ttl)];
    }

    method Delete(key: string)
      modifies this
      ensures entries == old(entries) - {key}
    {
      entries := entries - {key};
    }
  }

  /** An R2 object: its bytes and the content type of its HTTP metadata. */
  datatype Blob = Blob(body: seq<Byte>, contentType: Option<string>)

  type Objects = map<string, Blob>

  class Bucket {
    var objects: Objects

    constructor (init: Objects)
      ensures objects == init
    {
      objects := init;
    }

    method Get(key: string) returns (b: Option<Blob>)
      ensures b.Some? <==> key in objects
      ensures b.Some? ==> b.value == objects[key]
    {
      b := if key in objects then Some(objects[key]) else None;
    }

    method Put(key: string, blob: Blob)
      modifies this
      ensures objects == old(objects)[key := blob]
    {
      objects := objects[key := blob];
    }

    method Delete(key: string)
      modifies this
      ensures objects == old(objects) - {key}
    {
      objects := objects - {key};
    }
  }
}
