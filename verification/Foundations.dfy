/** Definitions shared by every component: optional values, fixed-width words and division facts. */
module Foundations {

  datatype Option<+T> = None | Some(value: T)

  const MAX_UINT64: int := 0xFFFF_FFFF_FFFF_FFFF
  const TWO_TO_THE_64: int := 0x1_0000_0000_0000_0000
  const MAX_INT64: int := 0x7FFF_FFFF_FFFF_FFFF
  const MIN_INT64: int := -0x8000_0000_0000_0000
  const MAX_UINT32: int := 0xFFFF_FFFF

  /** The bound of the termination queue. */
  const QUEUE_LENGTH: nat := 32

  /** A 64-bit word. Every operator on it carries the obligation that it does not wrap. */
  newtype uint64 = x: int | 0 <= x <= 0xFFFF_FFFF_FFFF_FFFF

  /** The values a 64-bit nanosecond count can take, as plain integers. */
  type Nanoseconds = n: int | 0 <= n <= MAX_UINT64

  function Min(a: int, b: int): int {
    if a < b then a else b
  }

  lemma MultiplyMonotone(a: int, b: int, d: int)
    requires a <= b && 0 <= d
    ensures a * d <= b * d
  {
  }

  /** Euclid's bounds, which the solver does not find for a variable divisor. */
  lemma DivisionBounds(a: int, d: int)
    requires 0 <= a && 0 < d
    ensures 0 <= a / d <= a
    ensures (a / d) * d <= a < (a / d + 1) * d
  {
    assert a == (a / d) * d + a % d;
    if a / d > 0 {
      MultiplyMonotone(1, d, a / d);
    }
  }

  lemma Distribute(a: int, b: int, d: int)
    ensures (a + b) * d == a * d + b * d
  {
  }

  /** The quotient is the only number that brackets the dividend. */
  lemma QuotientIs(a: int, d: int, q: int)
    requires 0 <= a && 0 < d && q * d <= a < (q + 1) * d
    ensures a / d == q
  {
    DivisionBounds(a, d);
    if a / d < q {
      MultiplyMonotone(a / d + 1, q, d);
    } else if q < a / d {
      MultiplyMonotone(q + 1, a / d, d);
    }
  }

  /** Comparing against a quotient is comparing the product: the overflow test of a multiplication. */
  lemma ExceedsQuotient(n: int, m: int, d: int)
    requires 0 <= n && 0 <= m && 0 < d
    ensures n > m / d <==> n * d > m
  {
    DivisionBounds(m, d);
    if n > m / d {
      MultiplyMonotone(m / d + 1, n, d);
    } else {
      MultiplyMonotone(n, m / d, d);
    }
  }

  lemma QuotientAfterWholeSteps(s: int, x: int, d: int)
    requires 0 <= s && 0 <= x && 0 < d
    ensures (s * d + x) / d == s + x / d
  {
    DivisionBounds(x, d);
    assert (s + x / d) * d == s * d + (x / d) * d;
    assert (s + x / d + 1) * d == s * d + (x / d + 1) * d;
    MultiplyMonotone(0, s, d);
    QuotientIs(s * d + x, d, s + x / d);
  }

  function NextWord(g: Nanoseconds): Nanoseconds {
    if g == MAX_UINT64 then 0 else g + 1
  }

  /** A word counter after some increments. */
  function WordAfter(g: Nanoseconds, increments: nat): Nanoseconds {
    if increments == 0 then g else NextWord(WordAfter(g, increments - 1))
  }

  /** The quotient and remainder of a division are the only ones that fit. */
  lemma RemainderIs(a: int, d: int, q: int, r: int)
    requires 0 <= a && a == q * d + r && 0 <= r < d
    ensures a % d == r
  {
    assert (q + 1) * d == q * d + d;
    QuotientIs(a, d, q);
    assert a == (a / d) * d + a % d;
  }

  lemma NextRemainder(a: nat, d: nat)
    requires d > 0
    ensures (a + 1) % d == if a % d == d - 1 then 0 else a % d + 1
  {
    var q := a / d;
    assert a == q * d + a % d;
    if a % d == d - 1 {
      assert (q + 1) * d == q * d + d;
      RemainderIs(a + 1, d, q + 1, 0);
    } else {
      RemainderIs(a + 1, d, q, a % d + 1);
    }
  }

  lemma {:induction false} WordAfterIsModular(g: Nanoseconds, increments: nat)
    ensures WordAfter(g, increments) == (g + increments) % TWO_TO_THE_64
  {
    if increments > 0 {
      WordAfterIsModular(g, increments - 1);
      NextRemainder(g + increments - 1, TWO_TO_THE_64);
    } else {
      RemainderIs(g, TWO_TO_THE_64, 0, g);
    }
  }

  /** Shifting by g preserves the remainder class of zero. */
  lemma ShiftedRemainder(g: nat, n: nat, d: nat)
    requires g < d
    ensures (g + n) % d == g <==> n % d == 0
  {
    var q, x := n / d, n % d;
    assert n == q * d + x;
    if g + x < d {
      RemainderIs(g + n, d, q, g + x);
    } else {
      assert (q + 1) * d == q * d + d;
      RemainderIs(g + n, d, q + 1, g + x - d);
    }
  }

  /** A word counter shows its old value again exactly after a multiple of 2^64 increments. */
  lemma WordComesRound(g: Nanoseconds, increments: nat)
    ensures WordAfter(g, increments) == g <==> increments % TWO_TO_THE_64 == 0
    ensures increments < TWO_TO_THE_64 ==> (WordAfter(g, increments) == g <==> increments == 0)
  {
    WordAfterIsModular(g, increments);
    ShiftedRemainder(g, increments, TWO_TO_THE_64);
    if increments < TWO_TO_THE_64 {
      RemainderIs(increments, TWO_TO_THE_64, 0, increments);
    }
  }
}
