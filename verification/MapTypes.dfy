/** Vocabulary shared by the models of the map. */
module MapTypes {
  type Key = string

  datatype Option<+T> = None | Some(value: T)

  function Get<K, V>(m: map<K, V>, k: K): Option<V> {
    if k in m then Some(m[k]) else None
  }
}
