/** Small notions shared by several components. */
module Util {

  datatype Option<T> = None | Some(value: T)

  function Min(a: nat, b: nat): nat {
    if a < b then a else b
  }

  /** snprintf of a string into a buffer of `size` characters. */
  function Clipped(s: string, size: nat): (r: string)
    requires size > 0
    ensures |r| < size && r <= s
  {
    if |s| < size then s else s[..size - 1]
  }

  /** No element occurs twice. */
  predicate Distinct<T(==)>(s: seq<T>) {
    forall i, j :: 0 <= i < j < |s| ==> s[i] != s[j]
  }
}
