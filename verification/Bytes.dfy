// Bytes, and sequence facts shared by the other modules.
module Bytes {

  type byte = x: int | 0 <= x < 256
  type bytes = seq<byte>

  const NL: byte := 10 // '\n'

  lemma Associative<T>(a: seq<T>, b: seq<T>, c: seq<T>)
    ensures a + b + c == a + (b + c)
  {
  }
}
