/** Shared value types: optional values, the Python exceptions the modelled
    code can raise, and the outcome of a call that may raise. */
module Base {

  datatype Option<+T> = None | Some(value: T)

  /** The exception classes that escape from the modelled functions. */
  datatype Exc =
    | ValueError         // `str.index` without a match, tuple unpacking, JSON decoding
    | AttributeError     // attribute lookup on None or on an attribute never set
    | TypeError          // iterating over None
    | IndexError         // subscript of an empty list
    | OSError            // `open` of a path that cannot be opened
    | NameError          // a name the module never bound
    | CurlError          // `pycurl.error` that nobody catches
    | Raised(message: string)  // `raise Exception(message)`

  /** What a Python call does: it returns a value or raises. */
  datatype Outcome<+T> = Return(value: T) | Throw(exc: Exc)

  /** Writing a key twice keeps the second value. */
  lemma UpdateTwice<K, V>(m: map<K, V>, k: K, a: V, b: V)
    ensures m[k := a][k := b] == m[k := b]
  {
  }

  /** Removing a key undoes writing it. */
  lemma RemoveUpdated<K, V>(m: map<K, V>, k: K, v: V)
    ensures m[k := v] - {k} == m - {k}
  {
  }
}
