/** Vocabulary shared by all the modelled components. */
module Protocol {

  type byte = x: int | 0 <= x < 256

  datatype Option<+T> = None | Some(value: T)

  /** protocol.MaxByteCount, 1<<62 - 1. */
  const MAX_BYTE_COUNT: nat := 0x3FFF_FFFF_FFFF_FFFF

  /** protocol.InvalidByteCount. */
  const INVALID_BYTE_COUNT: int := -1

  function Min(a: int, b: int): int {
    if a < b then a else b
  }

  function Max(a: nat, b: nat): nat {
    if a > b then a else b
  }

  lemma {:induction false} SubsetSize<T>(a: set<T>, b: set<T>)
    requires a <= b
    ensures |a| <= |b|
  {
    if a != {} {
      var x :| x in a;
      SubsetSize(a - {x}, b - {x});
    }
  }
}
