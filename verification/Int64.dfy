/** Go's int64: two's-complement wrap-around, and powers of two. */
module Int64 {

  const MAX: int := 0x7FFF_FFFF_FFFF_FFFF
  const TWO64: int := 0x1_0000_0000_0000_0000

  predicate InRange(x: int) {
    -MAX - 1 <= x <= MAX
  }

  /** The int64 that Go stores when an int64 operation has the exact result x. */
  function Wrap(x: int): (r: int)
    ensures InRange(r)
    ensures InRange(x) ==> r == x
  {
    var m := x % TWO64;
    if m <= MAX then m else m - TWO64
  }

  /** Wrapping keeps the 64 low bits, and reads the top one as a sign. */
  lemma WrapExact(x: int)
    ensures -9_223_372_036_854_775_808 <= Wrap(x) <= 9_223_372_036_854_775_807
    ensures (x - Wrap(x)) % 18_446_744_073_709_551_616 == 0
  {
    assert x == TWO64 * (x / TWO64) + x % TWO64;
    if x % TWO64 <= MAX {
      MultipleMod(x / TWO64);
    } else {
      MultipleMod(x / TWO64 + 1);
      assert x - Wrap(x) == TWO64 * (x / TWO64 + 1);
    }
  }

  lemma MultipleMod(q: int)
    ensures (TWO64 * q) % TWO64 == 0
  {
  }

  function Pow2(n: nat): (p: nat)
    ensures p >= 1
  {
    if n == 0 then 1 else 2 * Pow2(n - 1)
  }
}
