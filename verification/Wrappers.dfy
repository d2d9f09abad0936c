/** Failure-carrying datatypes shared by every module of the project. */
module Wrappers {

  /** An absent or present value. */
  datatype Option<+T> = None | Some(value: T)

  /** The outcome of an operation that the source declares as `Result`. */
  datatype Result<+T> = Ok(value: T) | Err(error: string)

  /** Map lookup that yields an absent value for a missing key. */
  function Get<K, V>(m: map<K, V>, k: K): Option<V> {
    if k in m then Some(m[k]) else None
  }
}
