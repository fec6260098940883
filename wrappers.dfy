/** Optional values and results with an error, used for NULL pointers, SQL NULLs and raised exceptions. */
module Wrappers {

  datatype Option<+T> = None | Some(value: T)

  datatype Result<+T, +E> = Ok(value: T) | Err(error: E)

  /** A slice that ends one element later is the shorter slice with that element appended. */
  lemma SliceSnoc<T>(s: seq<T>, lo: nat, hi: nat)
    requires lo < hi <= |s|
    ensures s[lo..hi] == s[lo..hi - 1] + [s[hi - 1]]
  {
  }
}
