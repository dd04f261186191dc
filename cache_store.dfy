/**
 * Django's cache as the OTP throttles use it: string keys holding integers
 * (`True` is stored as 1) with an expiry time. Time is a parameter counted in
 * seconds; an entry is live strictly before its expiry.
 */
module CacheStore {
  import opened Wrappers

  datatype Entry = Entry(value: int, expiresAt: int)

  type Store = map<string, Entry>

  /** `cache.get(key)`: the value while the entry is live, otherwise None. */
  function Get(c: Store, key: string, now: int): Option<int> {
    if key in c && now < c[key].expiresAt then Some(c[key].value) else None
  }

  /** `cache.set(key, value, timeout)` at time `now`. */
  function Put(c: Store, key: string, value: int, timeout: int, now: int): Store {
    c[key := Entry(value, now + timeout)]
  }

  /** Python truthiness of what `cache.get` answered. */
  predicate Truthy(v: Option<int>) {
    v.Some? && v.value != 0
  }

  /** A stored value reads back until its timeout has run out, and no other key is affected. */
  lemma PutThenGet(c: Store, key: string, value: int, timeout: int, now: int, later: int, other: string)
    requires other != key
    ensures Get(Put(c, key, value, timeout, now), key, later) == (if later < now + timeout then Some(value) else None)
    ensures Get(Put(c, key, value, timeout, now), other, later) == Get(c, other, later)
  {
  }

  /** A deleted key reads as absent; other keys are unaffected. */
  lemma DeleteThenGet(c: Store, key: string, later: int, other: string)
    requires other != key
    ensures Get(c - {key}, key, later) == None
    ensures Get(c - {key}, other, later) == Get(c, other, later)
  {
  }
}
