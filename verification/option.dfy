// A value that may be absent, and looking one up.

module Options {
  datatype Option<T> = None | Some(value: T)

  function Get<K, V>(m: map<K, V>, key: K): Option<V> {
    if key in m then Some(m[key]) else None
  }
}
