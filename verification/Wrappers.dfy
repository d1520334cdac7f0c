/** Optional values, results that may be errors, and the hash maps' insertion. */
module Wrappers {
  datatype Option<+T> = None | Some(value: T)

  datatype Result<+T, +E> = Ok(value: T) | Err(error: E)

  /** `emplace` of the hash maps: an entry already there stays. */
  function Emplace<K, V>(m: map<K, V>, k: K, v: V): (r: map<K, V>)
    ensures k in r && (k in m ==> r == m) && (k !in m ==> r == m[k := v])
  {
    if k in m then m else m[k := v]
  }
}
