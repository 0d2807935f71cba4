/** Shared value types: optional values, results with an error message, and bytes. */
module Common {

  /** Stands for a TypeScript `T | null`. */
  datatype Option<+T> = None | Some(value: T)

  /** A value, or the reason an awaited promise was rejected. */
  datatype Result<+T> = Success(value: T) | Failure(error: string)

  /** An octet of an `ArrayBuffer` / Node `Buffer`. */
  type byte = b: int | 0 <= b < 256

  type Bytes = seq<byte>

  /** True when no element of `s` occurs twice. */
  predicate Distinct<T(==)>(s: seq<T>)
  {
    forall i, j | 0 <= i < j < |s| :: s[i] != s[j]
  }
}
