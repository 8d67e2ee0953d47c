/** The associative array the board is built on, specified abstractly as a
    Dafny `map`: `set` inserts or replaces, `get` fails on a missing key,
    `hasKey` is membership and `size` is the number of distinct keys. Its
    growable-array representation is not part of this model. */
module AssocArrays {
  import opened Results

  /** The failures the associative array itself raises. */
  datatype ArrayError = NullKey | KeyNotFound

  /** Binds `key` to `value`, replacing any previous binding; a null key is
      refused. */
  function Set<K, V>(m: map<K, V>, key: Option<K>, value: V): (r: Result<map<K, V>, ArrayError>)
    ensures r.Failure? <==> key.None?
    ensures r.Success? ==> r.value.Keys == m.Keys + {key.value} && r.value[key.value] == value
    ensures r.Success? ==> forall k :: k in m && k != key.value ==> r.value[k] == m[k]
  {
    match key
    case None => Failure(NullKey)
    case Some(k) => Success(m[k := value])
  }

  /** Looks `key` up; a missing key is an error. */
  function Get<K, V>(m: map<K, V>, key: K): (r: Result<V, ArrayError>)
    ensures r.Success? <==> key in m
    ensures r.Success? ==> r.value == m[key]
  {
    if key in m then Success(m[key]) else Failure(KeyNotFound)
  }

  /** Whether `key` is bound. */
  predicate HasKey<K, V>(m: map<K, V>, key: K)
  {
    key in m
  }

  /** The number of bindings. */
  function Size<K, V>(m: map<K, V>): nat
  {
    |m|
  }
}
