/** Shared value types, and sequences without repeats. */
module Prelude {

  datatype Option<+T> = None | Some(value: T)

  datatype Result<+T, +E> = Ok(value: T) | Err(error: E)

  /** How writing a chunk to the store and then to the text index ends; only `Stored` is a success. */
  datatype Persisted = NotStored | StoredNotIndexed | Stored

  predicate NoDup<T(==)>(s: seq<T>) {
    forall i, j :: 0 <= i < j < |s| ==> s[i] != s[j]
  }
}
