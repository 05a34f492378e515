/** Small notions shared by the other modules. */
module Wrappers {
  datatype Option<+T> = None | Some(value: T)

  /** A SHA-256 value in hexadecimal. */
  type Digest = string

  ghost predicate Distinct<T>(items: seq<T>) {
    forall i, j | 0 <= i < j < |items| :: items[i] != items[j]
  }

  /** Different inputs have different outputs, as a hash without collisions or an unambiguous encoding promises. */
  ghost predicate Injective<A(!new), B>(f: A -> B) {
    forall a, b | f(a) == f(b) :: a == b
  }
}
