/** Fixed-width integers of the firmware, powers of two and C's truncating division. */
module MachineIntegers {
  type uint8 = x: int | 0 <= x < 0x100
  type uint16 = x: int | 0 <= x < 0x1_0000
  type uint32 = x: int | 0 <= x < 0x1_0000_0000
  type uint64 = x: int | 0 <= x < 0x1_0000_0000_0000_0000
  type int16 = x: int | -0x8000 <= x < 0x8000
  type int32 = x: int | -0x8000_0000 <= x < 0x8000_0000
  type int64 = x: int | -0x8000_0000_0000_0000 <= x < 0x8000_0000_0000_0000

  const INT16_MAX := 0x7FFF
  const INT16_MIN := -0x8000
  const INT32_MAX := 0x7FFF_FFFF
  const UINT32_MAX := 0xFFFF_FFFF
  const INT64_MAX := 0x7FFF_FFFF_FFFF_FFFF

  function Abs(x: int): (r: nat) {
    if x < 0 then -x else x
  }

  function Min(a: int, b: int): int {
    if a <= b then a else b
  }

  function Pow2(n: nat): (p: nat)
    ensures p >= 1
  {
    if n == 0 then 1 else 2 * Pow2(n - 1)
  }

  lemma {:induction false} Pow2Monotone(a: nat, b: nat)
    requires a <= b
    ensures Pow2(a) <= Pow2(b)
    decreases b
  {
    if a < b {
      Pow2Monotone(a, b - 1);
    }
  }

  lemma {:induction false} Pow2Add(a: nat, b: nat)
    ensures Pow2(a + b) == Pow2(a) * Pow2(b)
  {
    if a == 0 {
      assert Pow2(0) * Pow2(b) == Pow2(b);
    } else {
      Pow2Add(a - 1, b);
      calc {
        Pow2(a + b);
        2 * Pow2(a - 1 + b);
        2 * (Pow2(a - 1) * Pow2(b));
        Pow2(a) * Pow2(b);
      }
    }
  }

  /** Integer division as C defines it for a positive divisor: truncation toward zero. */
  function TruncDiv(a: int, b: int): (q: int)
    requires b > 0
    ensures a >= 0 ==> q * b <= a < (q + 1) * b
    ensures a <= 0 ==> (q - 1) * b < a <= q * b
  {
    if a >= 0 then a / b else -((-a) / b)
  }

  /** Division with remainder, without the division. */
  lemma DivBounds(m: nat, d: nat)
    requires d > 0
    ensures m / d >= 0 && d * (m / d) <= m < d * (m / d) + d
  {
  }

  lemma ProductMonotone(d: int, a: int, b: int)
    requires d >= 0 && a <= b
    ensures d * a <= d * b
  {
    assert d * (b - a) >= 0;
    assert d * (b - a) == d * b - d * a;
  }

  /** A quotient is compared with `k` by comparing products. */
  lemma ProductOrder(m: int, d: int, q: int, k: int)
    requires d > 0 && d * q <= m < d * q + d
    ensures m <= d * k ==> q <= k
    ensures m < d * k ==> q < k
    ensures m >= d * k ==> q >= k
  {
    if q < k {
      ProductMonotone(d, q + 1, k);
      assert d * (q + 1) == d * q + d;
    } else if q > k {
      ProductMonotone(d, k + 1, q);
      assert d * (k + 1) == d * k + d;
    }
  }

  lemma QuotientUnique(n: int, d: int, q: int, r: int)
    requires d > 0 && 0 <= r < d && n == d * q + r
    ensures n / d == q && n % d == r
  {
    var q', r' := n / d, n % d;
    var gap := q - q';
    assert d * gap == r' - r by {
      assert n == d * q' + r';
      assert d * (q - q') == d * q - d * q';
    }
    if gap >= 1 {
      ProductMonotone(d, 1, gap);
    } else if gap <= -1 {
      ProductMonotone(d, 1, -gap);
    }
  }
}
