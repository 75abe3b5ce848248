/** Values shared by every part of the engine model. */
module Blocks {

  /** A cell of a chunk is stored in a `Uint8Array`, so every stored block code is an unsigned byte. */
  type byte = b: int | 0 <= b < 256

  /** Writing a number into a `Uint8Array` keeps it modulo 256 (ToUint8 on an integer). */
  function ToUint8(v: int): (b: byte)
    ensures 0 <= v < 256 ==> b == v
    ensures (v - b) % 256 == 0
  {
    v % 256
  }

  /**
   * Built-in associativity of sequence concatenation, stated as a lemma so that the
   * loop proofs that use it stay small.
   */
  lemma AppendAssoc<T>(a: seq<T>, b: seq<T>, c: seq<T>)
    ensures a + (b + c) == (a + b) + c
  {
  }

  /** Stock optional value, for "the key is absent" and "the field is missing". */
  datatype Option<T> = None | Some(value: T)
}
