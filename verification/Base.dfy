/** Shared vocabulary: octets, optional values and validation outcomes. */
module Base {

  /** An octet. Arithmetic on lengths and tags is easier on integers than on bit vectors. */
  type Byte = x: int | 0 <= x < 256

  type Bytes = seq<Byte>

  datatype Option<+T> = None | Some(value: T)

  datatype Result<+T, +E> = Ok(value: T) | Err(error: E)

  /** A Go `error` that carries no value: nil, or the reason. */
  datatype Outcome<+E> = Pass | Fail(error: E)

  function Bit(b: bool): nat {
    if b then 1 else 0
  }

  lemma ConcatAssociative<T>(a: seq<T>, b: seq<T>, c: seq<T>)
    ensures (a + b) + c == a + (b + c)
  {
  }
}
