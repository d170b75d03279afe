/** The exponential backoff of the retry loop, in int64 nanoseconds, against its closed form. */
module Backoff {
  import opened Int64

  function Min(a: int, b: int): int {
    if a < b then a else b
  }

  /** n rounds of the doubling loop, starting from d. */
  function Doubling(d: int, maxDelay: int, n: nat): int
    decreases n
  {
    if n == 0 then d
    else
      var twice := Wrap(d * 2);
      if twice > maxDelay then maxDelay else Doubling(twice, maxDelay, n - 1)
  }

  /** What the delay before retry k is meant to be. */
  function Capped(base: int, maxDelay: int, k: nat): int {
    Min(base * Pow2(k), maxDelay)
  }

  /** The largest base * 2^j that fits in an int64. */
  function Top(base: int): (top: int)
    requires 1 <= base <= MAX
    ensures base <= top <= MAX < 2 * top
    decreases MAX - base
  {
    if 2 * base > MAX then base else Top(2 * base)
  }

  lemma Pow2Step(d: int, n: nat)
    requires d >= 1 && n >= 1
    ensures d * Pow2(n) == 2 * d * Pow2(n - 1)
    ensures d * Pow2(n) >= 2 * d
  {
  }

  lemma {:induction false} DoublingExact(d: int, maxDelay: int, n: nat)
    requires 1 <= d && 2 * d <= MAX && n >= 1 && maxDelay < Top(d)
    ensures Doubling(d, maxDelay, n) == Capped(d, maxDelay, n)
    decreases n
  {
    Pow2Step(d, n);
    if 2 * d <= maxDelay {
      if n == 1 {
        assert Pow2(0) == 1;
        assert Doubling(2 * d, maxDelay, 0) == 2 * d;
      } else {
        assert Top(2 * d) == Top(d) && Top(2 * d) != 2 * d;
        DoublingExact(2 * d, maxDelay, n - 1);
      }
    }
  }

  /** When the cap does not stop the doubling in time, some delay comes out negative. */
  lemma {:induction false} DoublingOverflows(d: int, maxDelay: int) returns (n: nat)
    requires 1 <= d <= MAX && Top(d) <= maxDelay <= MAX
    ensures n >= 1 && Doubling(d, maxDelay, n) < 0
    decreases MAX - d
  {
    if 2 * d > MAX {
      n := 1;
      assert Doubling(Wrap(d * 2), maxDelay, 0) == Wrap(d * 2) == 2 * d - TWO64;
    } else {
      var m := DoublingOverflows(2 * d, maxDelay);
      n := m + 1;
    }
  }

  lemma CappedPositive(base: int, maxDelay: int, k: nat)
    requires base >= 1 && maxDelay >= 1
    ensures Capped(base, maxDelay, k) >= 1
  {
  }

  /** The doubling loop computes min(base * 2^k, maxDelay) for every retry k >= 1 if and only if the first doubling
      fits and the cap is below the last doubling that fits. */
  lemma DelayExact(base: int, maxDelay: int)
    requires 1 <= base <= MAX && 1 <= maxDelay <= MAX
    ensures (forall k: nat | k >= 1 :: Doubling(base, maxDelay, k) == Capped(base, maxDelay, k)) <==>
            2 * base <= MAX && maxDelay < Top(base)
  {
    if 2 * base <= MAX && maxDelay < Top(base) {
      forall k: nat | k >= 1
        ensures Doubling(base, maxDelay, k) == Capped(base, maxDelay, k)
      {
        DoublingExact(base, maxDelay, k);
      }
    } else if 2 * base > MAX {
      assert Doubling(Wrap(base * 2), maxDelay, 0) == Wrap(base * 2) == 2 * base - TWO64;
      CappedPositive(base, maxDelay, 1);
      assert Doubling(base, maxDelay, 1) != Capped(base, maxDelay, 1);
    } else {
      var k := DoublingOverflows(base, maxDelay);
      CappedPositive(base, maxDelay, k);
      assert Doubling(base, maxDelay, k) != Capped(base, maxDelay, k);
    }
  }

  /** Delays of at most half the range are always safe. */
  lemma HalfRangeSafe(base: int, maxDelay: int)
    requires 1 <= base <= MAX / 2 && 1 <= maxDelay <= MAX / 2
    ensures 2 * base <= MAX && maxDelay < Top(base)
  {
  }

  lemma CappedMonotone(base: int, maxDelay: int, k: nat)
    requires base >= 1 && maxDelay >= 1
    ensures Capped(base, maxDelay, k) <= Capped(base, maxDelay, k + 1) <= maxDelay
  {
  }

  /** The closed-form delays of retries 1 to m, added up. */
  function TotalCapped(base: int, maxDelay: int, m: nat): int {
    if m == 0 then 0 else TotalCapped(base, maxDelay, m - 1) + Capped(base, maxDelay, m)
  }

  lemma {:induction false} TotalBounds(base: int, maxDelay: int, m: nat)
    requires base >= 1 && maxDelay >= 1
    ensures TotalCapped(base, maxDelay, m) <= m * maxDelay
    ensures TotalCapped(base, maxDelay, m) <= base * (Pow2(m + 1) - 2)
  {
    if m == 0 {
    } else {
      TotalBounds(base, maxDelay, m - 1);
      assert m * maxDelay == (m - 1) * maxDelay + maxDelay;
      assert base * (Pow2(m) - 2) + base * Pow2(m) == base * (2 * Pow2(m) - 2);
    }
  }
}
