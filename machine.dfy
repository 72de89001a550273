/**
 * The C# `int` type: 32-bit two's complement, and the unchecked addition
 * that the aggregation uses when it adds a score into a running total.
 */
module Machine {

  const MIN_INT32: int := -0x8000_0000
  const MAX_INT32: int := 0x7FFF_FFFF
  const MODULUS: int := 0x1_0000_0000

  type Int32 = x: int | MIN_INT32 <= x <= MAX_INT32

  /** Reduces `x` to the Int32 that unchecked C# arithmetic produces for it. */
  function Wrap(x: int): (r: Int32)
    ensures MIN_INT32 <= x <= MAX_INT32 ==> r == x
    ensures (x - r) % MODULUS == 0
  {
    (x - MIN_INT32) % MODULUS + MIN_INT32
  }

  /** Unchecked `a += b` on C# ints. */
  function AddUnchecked(a: Int32, b: Int32): (r: Int32)
    ensures MIN_INT32 <= a + b <= MAX_INT32 ==> r == a + b
    ensures a + b > MAX_INT32 ==> r == a + b - MODULUS
    ensures a + b < MIN_INT32 ==> r == a + b + MODULUS
  {
    Wrap(a + b)
  }

  /** Wrapping after every addition gives the same result as wrapping once at the end. */
  lemma WrapAbsorbsWrap(x: int, y: int)
    ensures Wrap(Wrap(x) + y) == Wrap(x + y)
  {
    var a := x - MIN_INT32;
    assert a == MODULUS * (a / MODULUS) + a % MODULUS;
    assert (a % MODULUS + y) % MODULUS == (a + y) % MODULUS;
  }
}
