/** A value that may be absent: Java's `null` and `Optional.empty()`. */
module Optional {

  datatype Option<+T> = None | Some(value: T) {

    /** `Optional.orElse(default)` */
    function OrElse(default: T): T {
      match this
      case Some(v) => v
      case None => default
    }
  }

  /** `map.get(k)` turned into an option: `None` when `k` is not a key. */
  function Lookup<K, V>(m: map<K, V>, k: K): (r: Option<V>)
    ensures r.Some? <==> k in m
    ensures r.Some? ==> r.value == m[k]
  {
    if k in m then Some(m[k]) else None
  }
}
