/** Machine words: Go's fixed-width unsigned integers as bounded integers, with explicit wrap-around. */
module Words {
  type byte = x: int | 0 <= x < 0x100
  type u32 = x: int | 0 <= x < 0x1_0000_0000
  type u64 = x: int | 0 <= x < 0x1_0000_0000_0000_0000
  type bytes = seq<byte>

  const U32: int := 0x1_0000_0000
  const U64: int := 0x1_0000_0000_0000_0000

  datatype Option<+T> = None | Some(value: T)

  /** What a 64-bit register holds after an unchecked computation whose true value is x. */
  function Wrap(x: int): (r: u64)
  {
    x % U64
  }

  /** Go's bits.Add64 without a carry in: the wrapped sum and whether it overflowed. */
  function Add64(a: u64, b: u64): (r: (u64, bool))
    ensures !r.1 ==> r.0 == a + b
    ensures r.1 <==> a + b >= U64
  {
    (Wrap(a + b), a + b >= U64)
  }

  /** Wrapping early or late makes no difference to a sum. */
  lemma WrapAdd(a: int, b: int)
    ensures Wrap(Wrap(a) + b) == Wrap(a + b)
    ensures Wrap(a + Wrap(b)) == Wrap(a + b)
  {
    var qa, qb := a / U64, b / U64;
    WrapShift(Wrap(a) + b, qa);
    WrapShift(a + Wrap(b), qb);
  }

  lemma WrapShift(x: int, k: int)
    ensures Wrap(x + k * U64) == Wrap(x)
  {
  }

  /** Two numbers wrap to the same word exactly when their difference wraps to zero. */
  lemma WrapDiff(a: int, b: int)
    ensures Wrap(a) == Wrap(b) <==> Wrap(a - b) == 0
  {
  }

  lemma SmallWrap(x: int)
    requires 0 <= x < U64
    ensures Wrap(x) == x
  {
  }
}
