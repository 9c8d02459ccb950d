/** Failure-carrying values used throughout the model. */
module Wrappers {

  /** A cell that may be empty. `None` stands for a missing value (a NaN cell in the
      data frame, or a join that found no partner). */
  datatype Option<+T> = None | Some(value: T)

  /** The outcome of an operation that raises an exception in the source. */
  datatype Result<+R, +E> = Success(value: R) | Failure(error: E)

  /** The value of a present cell, or `default` for a missing one. */
  function GetOr<T>(o: Option<T>, default: T): T
  {
    match o
    case Some(v) => v
    case None => default
  }

  /** A keyed lookup that may miss, as a pandas left join does. */
  function Lookup<K, V>(m: map<K, V>, k: K): (r: Option<V>)
    ensures r.Some? <==> k in m
    ensures r.Some? ==> r.value == m[k]
  {
    if k in m then Some(m[k]) else None
  }
}
