/** Types and arithmetic shared by every module. */
module Prelude {

  datatype Option<+T> = None | Some(value: T)

  /** One octet of a Python `bytes` or `bytearray`. */
  type byte = b: int | 0 <= b < 256

  type bytes = seq<byte>

  const SPACE: byte := 0x20
  const NL: byte := 0x0A

  function Min(a: int, b: int): int { if a <= b then a else b }

  function Max(a: int, b: int): int { if a >= b then a else b }

  /** `b''.join(chunks)`. */
  function Concat(chunks: seq<bytes>): bytes
  {
    if chunks == [] then [] else chunks[0] + Concat(chunks[1..])
  }

  lemma {:induction false} ConcatAppend(xs: seq<bytes>, ys: seq<bytes>)
    ensures Concat(xs + ys) == Concat(xs) + Concat(ys)
  {
    if xs == [] {
      assert xs + ys == ys;
    } else {
      assert (xs + ys)[1..] == xs[1..] + ys;
      ConcatAppend(xs[1..], ys);
    }
  }

  lemma AppendAssociates<T>(a: seq<T>, b: seq<T>, c: seq<T>)
    ensures a + b + c == a + (b + c)
  {
  }
}
