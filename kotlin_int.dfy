/** Kotlin's 32-bit `Int` addition, which wraps around in two's complement. */
module KotlinInt {

  const Modulus: int := 0x1_0000_0000
  const MinInt: int := -0x8000_0000
  const MaxInt: int := 0x7FFF_FFFF

  predicate IsInt(x: int) {
    MinInt <= x <= MaxInt
  }

  /** The `Int` that a mathematical integer truncates to. */
  function Wrap(x: int): (r: int)
    ensures IsInt(r)
    ensures IsInt(x) ==> r == x
    ensures (x - r) % Modulus == 0
  {
    (x - MinInt) % Modulus + MinInt
  }

  /** `a + b` on Kotlin `Int`s. */
  function Add(a: int, b: int): (r: int)
    ensures IsInt(r)
  {
    Wrap(a + b)
  }

  /** Two integers that differ by a multiple of 2^32 truncate to the same `Int`. */
  lemma WrapCongruent(x: int, y: int)
    requires (x - y) % Modulus == 0
    ensures Wrap(x) == Wrap(y)
  {
  }

  /** Truncating an intermediate sum does not change the truncated total. */
  lemma WrapAddLeft(a: int, b: int)
    ensures Add(Wrap(a), b) == Wrap(a + b)
  {
    WrapCongruent(Wrap(a) + b, a + b);
  }
}
