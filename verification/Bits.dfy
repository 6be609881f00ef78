/** Bits of natural numbers: the meaning of the firmware's shifts and masks without bit vectors. */
module Bits {
  import opened MachineIntegers

  /** Bit `k` of `n`, 0 or 1. */
  function Bit(n: nat, k: nat): (b: nat)
    ensures b <= 1
  {
    if k == 0 then n % 2 else Bit(n / 2, k - 1)
  }

  function Or(a: nat, b: nat): nat
    decreases a + b
  {
    if a == 0 && b == 0 then 0
    else (if a % 2 + b % 2 > 0 then 1 else 0) + 2 * Or(a / 2, b / 2)
  }

  function Xor(a: nat, b: nat): nat
    decreases a + b
  {
    if a == 0 && b == 0 then 0
    else (if a % 2 != b % 2 then 1 else 0) + 2 * Xor(a / 2, b / 2)
  }

  /** `n >> k`. */
  function Shr(n: nat, k: nat): nat {
    if k == 0 then n else Shr(n / 2, k - 1)
  }

  /** `n << k`, in unbounded arithmetic. */
  function Shl(n: nat, k: nat): nat {
    if k == 0 then n else 2 * Shl(n, k - 1)
  }

  lemma {:induction false} ShlBound(n: nat, w: nat, k: nat)
    requires n < Pow2(w)
    ensures Shl(n, k) < Pow2(w + k)
  {
    if k > 0 {
      ShlBound(n, w, k - 1);
    }
  }

  lemma {:induction false} ShrIsDivision(n: nat, k: nat)
    ensures Shr(n, k) == n / Pow2(k)
  {
    if k > 0 {
      ShrIsDivision(n / 2, k - 1);
      DivTwice(n, Pow2(k - 1));
    }
  }

  lemma {:induction false} BitOfZero(k: nat)
    ensures Bit(0, k) == 0
  {
    if k > 0 {
      BitOfZero(k - 1);
    }
  }

  lemma {:induction false} OrBit(a: nat, b: nat, k: nat)
    ensures Bit(Or(a, b), k) == if Bit(a, k) + Bit(b, k) > 0 then 1 else 0
    decreases k
  {
    var r := Or(a, b);
    if a == 0 && b == 0 {
      BitOfZero(k);
    } else if k > 0 {
      assert r / 2 == Or(a / 2, b / 2);
      OrBit(a / 2, b / 2, k - 1);
    }
  }

  lemma {:induction false} XorBit(a: nat, b: nat, k: nat)
    ensures Bit(Xor(a, b), k) == if Bit(a, k) == Bit(b, k) then 0 else 1
    decreases k
  {
    var r := Xor(a, b);
    if a == 0 && b == 0 {
      BitOfZero(k);
    } else if k > 0 {
      assert r / 2 == Xor(a / 2, b / 2);
      XorBit(a / 2, b / 2, k - 1);
    }
  }

  /** Numbers with the same bits are the same. */
  lemma {:induction false} SameBits(a: nat, b: nat, w: nat)
    requires a < Pow2(w) && b < Pow2(w)
    requires forall k :: 0 <= k < w ==> Bit(a, k) == Bit(b, k)
    ensures a == b
    decreases w
  {
    if w > 0 {
      forall k | 0 <= k < w - 1 ensures Bit(a / 2, k) == Bit(b / 2, k) {
        assert Bit(a, k + 1) == Bit(b, k + 1);
      }
      SameBits(a / 2, b / 2, w - 1);
      assert Bit(a, 0) == Bit(b, 0);
    }
  }

  lemma {:induction false} BitOfComplement(a: nat, w: nat, k: nat)
    requires a < Pow2(w) && k < w
    ensures Bit(Pow2(w) - 1 - a, k) == 1 - Bit(a, k)
    decreases w
  {
    if k > 0 {
      assert (Pow2(w) - 1 - a) / 2 == Pow2(w - 1) - 1 - a / 2;
      BitOfComplement(a / 2, w - 1, k - 1);
    }
  }

  /** The lowest `w` bits, lowest first. */
  function Digits(n: nat, w: nat): (d: seq<nat>)
    ensures |d| == w
  {
    if w == 0 then [] else [n % 2] + Digits(n / 2, w - 1)
  }

  lemma {:induction false} DigitAt(n: nat, w: nat, k: nat)
    requires k < w
    ensures Digits(n, w)[k] == Bit(n, k)
    decreases w
  {
    if k > 0 {
      DigitAt(n / 2, w - 1, k - 1);
    }
  }

  lemma {:induction false} XorBound(a: nat, b: nat, w: nat)
    requires a < Pow2(w) && b < Pow2(w)
    ensures Xor(a, b) < Pow2(w)
    decreases w
  {
    if w > 0 {
      XorBound(a / 2, b / 2, w - 1);
    }
  }

  lemma {:induction false} OrBound(a: nat, b: nat, w: nat)
    requires a < Pow2(w) && b < Pow2(w)
    ensures Or(a, b) < Pow2(w)
    decreases w
  {
    if w > 0 {
      OrBound(a / 2, b / 2, w - 1);
    }
  }

  /** Halving and then dividing by `b` is dividing by `2 * b`. */
  lemma DivTwice(n: nat, b: int)
    requires b > 0
    ensures (n / 2) / b == n / (2 * b)
    ensures n % (2 * b) == 2 * ((n / 2) % b) + n % 2
  {
    var q := n / 2;
    assert q == b * (q / b) + q % b;
    assert n == (2 * b) * (q / b) + (2 * (q % b) + n % 2) by {
      assert 2 * (b * (q / b)) == (2 * b) * (q / b);
    }
    QuotientUnique(n, 2 * b, q / b, 2 * (q % b) + n % 2);
  }

  lemma {:induction false} ShrBit(n: nat, s: nat, k: nat)
    ensures Bit(Shr(n, s), k) == Bit(n, s + k)
    decreases s
  {
    if s > 0 {
      ShrBit(n / 2, s - 1, k);
    }
  }

  lemma {:induction false} ShlBit(n: nat, s: nat, k: nat)
    ensures Bit(Shl(n, s), k) == if k < s then 0 else Bit(n, k - s)
    decreases s
  {
    if s > 0 {
      var half := Shl(n, s - 1);
      BitOfDouble(half, k);
      if k > 0 {
        ShlBit(n, s - 1, k - 1);
      }
    }
  }

  lemma BitOfDouble(n: nat, k: nat)
    ensures Bit(2 * n, k) == if k == 0 then 0 else Bit(n, k - 1)
  {
  }

  /** Keeping the low `w` bits: `n & (2^w - 1)`. */
  lemma {:induction false} LowBits(n: nat, w: nat, k: nat)
    ensures Bit(n % Pow2(w), k) == if k < w then Bit(n, k) else 0
    decreases w
  {
    if w == 0 {
      BitOfZero(k);
    } else {
      var h := Pow2(w - 1);
      DivTwice(n, h);
      var low := n % Pow2(w);
      if k > 0 {
        assert low / 2 == (n / 2) % h;
        LowBits(n / 2, w - 1, k - 1);
      }
    }
  }

  /** A number below `2^w` has no bits from `w` up. */
  lemma {:induction false} HighBitsZero(n: nat, w: nat, k: nat)
    requires n < Pow2(w) && w <= k
    ensures Bit(n, k) == 0
    decreases w
  {
    if w == 0 {
      BitOfZero(k);
    } else {
      HighBitsZero(n / 2, w - 1, k - 1);
    }
  }
}
