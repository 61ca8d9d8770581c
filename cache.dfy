/** The Django cache backend as the Redis service uses it: string keys, stored values,
    and a timeout in seconds per `set`. "Now" is an explicit parameter. A value set with
    `timeout` at time `now` can be read while the clock is below `now + timeout`, so a
    timeout of zero or less expires the value at once. */
module Cache {
  import opened Results

  /** A JSON object written with `json.dumps` and read back with `json.loads`; the
      encoding itself is not modelled. */
  type Payload = map<string, string>

  datatype Value = Json(doc: Payload) | Text(text: string)

  datatype Entry = Entry(value: Value, expiresAt: int)

  type Store = map<string, Entry>

  /** `cache.get(key)`: the value, unless it is missing or expired. */
  function Get(c: Store, key: string, now: int): Option<Value> {
    if key in c && now < c[key].expiresAt then Some(c[key].value) else None
  }

  /** `cache.set(key, value, timeout=timeout)`. */
  function Set(c: Store, key: string, v: Value, now: int, timeout: int): Store {
    c[key := Entry(v, now + timeout)]
  }

  /** `cache.delete(key)`. */
  function Delete(c: Store, key: string): Store {
    c - {key}
  }

  /** Django's module-level `cache` object: one set of entries shared by everything
      that imports it. */
  class SharedCache {
    var entries: Store

    constructor (initial: Store)
      ensures entries == initial
    {
      entries := initial;
    }
  }

  lemma GetAfterSet(c: Store, key: string, v: Value, now: int, timeout: int, other: string, t: int)
    ensures Get(Set(c, key, v, now, timeout), key, t) == if t < now + timeout then Some(v) else None
    ensures other != key ==> Get(Set(c, key, v, now, timeout), other, t) == Get(c, other, t)
  {
  }

  lemma GetAfterDelete(c: Store, key: string, other: string, t: int)
    ensures Get(Delete(c, key), key, t) == None
    ensures other != key ==> Get(Delete(c, key), other, t) == Get(c, other, t)
  {
  }
}
