/** Optional values and results, used wherever the source returns None or raises. */
module Wrappers {

  datatype Option<+T> = None | Some(value: T) {
    function GetOr(default: T): T {
      match this
      case Some(v) => v
      case None => default
    }
  }

  /** A value, or the error the source would raise instead of returning it. */
  datatype Result<+R, +E> = Success(value: R) | Failure(error: E)

  /** A check that passes, or the error the source would raise. */
  datatype Outcome<+E> = Pass | Fail(error: E)

  /** Python truthiness of an optional string: present and not empty. */
  predicate Given(s: Option<string>) {
    s.Some? && s.value != ""
  }

  function Lookup<K, V>(m: map<K, V>, k: K): Option<V> {
    if k in m then Some(m[k]) else None
  }
}
