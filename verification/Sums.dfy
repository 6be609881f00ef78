/** Finite sums: re-indexing, interchange and absolute bounds. */
module Sums {
  import opened MachineIntegers

  /** f(0) + ... + f(n-1). */
  ghost function Sum(n: nat, f: int -> int): int {
    if n == 0 then 0 else Sum(n - 1, f) + f(n - 1)
  }

  /** The family moved left by `a`. */
  ghost function Shift(f: int -> int, a: int): int -> int {
    (i: int) => f(a + i)
  }

  /** The family read backwards from index `last`. */
  ghost function Backward(f: int -> int, last: int): int -> int {
    (i: int) => f(last - i)
  }

  /** f(a) + ... + f(b-1). */
  ghost function Between(f: int -> int, a: nat, b: nat): int {
    Sum(b, f) - Sum(a, f)
  }

  /** Sums of consecutive runs of `w` terms. */
  ghost function Groups(f: int -> int, w: nat): int -> int {
    (g: int) => if g < 0 then 0 else Between(f, w * g, w * g + w)
  }

  ghost function Row(p: (int, int) -> int, j: int): int -> int {
    (s: int) => p(j, s)
  }

  ghost function Column(p: (int, int) -> int, s: int): int -> int {
    (j: int) => p(j, s)
  }

  ghost predicate ZeroOutside(n: nat, f: int -> int) {
    forall i :: i < 0 || i >= n ==> f(i) == 0
  }

  lemma {:induction false} SumEqual(n: nat, f: int -> int, g: int -> int)
    requires forall i :: 0 <= i < n ==> f(i) == g(i)
    ensures Sum(n, f) == Sum(n, g)
  {
    if n > 0 {
      SumEqual(n - 1, f, g);
    }
  }

  lemma {:induction false} SumZero(n: nat, f: int -> int)
    requires forall i :: 0 <= i < n ==> f(i) == 0
    ensures Sum(n, f) == 0
  {
    if n > 0 {
      SumZero(n - 1, f);
    }
  }

  lemma {:induction false} SumAdd(n: nat, f: int -> int, g: int -> int)
    ensures Sum(n, (i: int) => f(i) + g(i)) == Sum(n, f) + Sum(n, g)
  {
    if n > 0 {
      SumAdd(n - 1, f, g);
    }
  }

  lemma {:induction false} SumScale(n: nat, c: int, f: int -> int)
    ensures Sum(n, (i: int) => c * f(i)) == c * Sum(n, f)
  {
    if n > 0 {
      SumScale(n - 1, c, f);
      var g := (i: int) => c * f(i);
      assert c * (Sum(n - 1, f) + f(n - 1)) == c * Sum(n - 1, f) + c * f(n - 1);
      assert Sum(n, g) == Sum(n - 1, g) + c * f(n - 1);
    }
  }

  lemma {:induction false} SumSplit(a: nat, b: nat, f: int -> int)
    ensures Sum(a + b, f) == Sum(a, f) + Sum(b, Shift(f, a))
  {
    if b > 0 {
      SumSplit(a, b - 1, f);
    }
  }

  lemma {:induction false} SumReverse(n: nat, f: int -> int)
    ensures Sum(n, f) == Sum(n, Backward(f, n - 1))
  {
    if n > 0 {
      SumSplit(1, n - 1, f);
      assert Sum(1, f) == f(0) by { assert Sum(0, f) == 0; }
      SumReverse(n - 1, Shift(f, 1));
      SumEqual(n - 1, Backward(f, n - 1), Backward(Shift(f, 1), n - 2));
    }
  }

  lemma ShiftBack(f: int -> int, s: int, i: int)
    ensures Shift(Shift(f, 0 - s), s)(i) == f(i)
  {
    assert Shift(Shift(f, 0 - s), s)(i) == Shift(f, 0 - s)(s + i) == f(0 - s + (s + i));
  }

  lemma ShiftLeading(n: nat, s: nat, f: int -> int)
    requires ZeroOutside(n, f)
    ensures Sum(s, Shift(f, 0 - s)) == 0
  {
    var g := Shift(f, 0 - s);
    forall i | 0 <= i < s ensures g(i) == 0 {
      assert g(i) == f(0 - s + i);
    }
    SumZero(s, g);
  }

  /** A zero-extended family summed over any range that covers it. */
  lemma SumCovering(n: nat, m: nat, f: int -> int)
    requires n <= m && ZeroOutside(n, f)
    ensures Sum(m, f) == Sum(n, f)
  {
    SumSplit(n, m - n, f);
    SumZero(m - n, Shift(f, n));
  }

  lemma ShiftTrailing(k: nat, s: nat, f: int -> int)
    ensures Sum(k, Shift(Shift(f, 0 - s), s)) == Sum(k, f)
  {
    forall i | 0 <= i < k ensures Shift(Shift(f, 0 - s), s)(i) == f(i) {
      ShiftBack(f, s, i);
    }
    SumEqual(k, Shift(Shift(f, 0 - s), s), f);
  }

  /** A finite family shifted by `s` inside a longer, zero-extended range has the same sum. */
  lemma SumShift(n: nat, s: nat, k: nat, f: int -> int)
    requires n <= k
    requires ZeroOutside(n, f)
    ensures Sum(s + k, Shift(f, 0 - s)) == Sum(n, f)
  {
    SumSplit(s, k, Shift(f, 0 - s));
    ShiftLeading(n, s, f);
    ShiftTrailing(k, s, f);
    SumCovering(n, k, f);
  }

  /** A row that is `c` times a finite family shifted by `s`. */
  lemma SumScaledShift(n: nat, s: nat, m: nat, c: int, f: int -> int, row: int -> int)
    requires s + n <= m
    requires ZeroOutside(n, f)
    requires forall i :: 0 <= i < m ==> row(i) == c * f(i - s)
    ensures Sum(m, row) == c * Sum(n, f)
  {
    var shifted := Shift(f, 0 - s);
    var scaled := (i: int) => c * shifted(i);
    SumShift(n, s, m - s, f);
    SumScale(m, c, shifted);
    forall i | 0 <= i < m ensures row(i) == scaled(i) {
      assert shifted(i) == f(i - s);
    }
    SumEqual(m, row, scaled);
  }

  /** A row that is a family times `c`. */
  lemma SumScaled(m: nat, c: int, f: int -> int, row: int -> int)
    requires forall i :: 0 <= i < m ==> row(i) == c * f(i)
    ensures Sum(m, row) == c * Sum(m, f)
  {
    SumScale(m, c, f);
    SumEqual(m, row, (i: int) => c * f(i));
  }

  /** Summing a table by rows or by columns. */
  lemma SumTable(n: nat, m: nat, p: (int, int) -> int, rows: int -> int, columns: int -> int)
    requires forall j :: 0 <= j < n ==> rows(j) == Sum(m, Row(p, j))
    requires forall s :: 0 <= s < m ==> columns(s) == Sum(n, Column(p, s))
    ensures Sum(n, rows) == Sum(m, columns)
  {
    SumInterchange(n, m, p);
    SumEqual(n, rows, (j: int) => Sum(m, Row(p, j)));
    SumEqual(m, columns, (s: int) => Sum(n, Column(p, s)));
  }

  lemma {:induction false} SumInterchange(n: nat, m: nat, p: (int, int) -> int)
    ensures Sum(n, (j: int) => Sum(m, Row(p, j))) == Sum(m, (s: int) => Sum(n, Column(p, s)))
  {
    var columns := (s: int) => Sum(n, Column(p, s));
    if n == 0 {
      SumZero(m, columns);
    } else {
      SumInterchange(n - 1, m, p);
      var shorter := (s: int) => Sum(n - 1, Column(p, s));
      SumAdd(m, shorter, Row(p, n - 1));
      SumEqual(m, columns, (s: int) => shorter(s) + Row(p, n - 1)(s));
    }
  }

  lemma {:induction false} BetweenEqual(f: int -> int, g: int -> int, a: nat, b: nat)
    requires a <= b
    requires forall i :: a <= i < b ==> f(i) == g(i)
    ensures Between(f, a, b) == Between(g, a, b)
    decreases b
  {
    if a < b {
      BetweenEqual(f, g, a, b - 1);
    }
  }

  lemma {:induction false} BetweenBound(f: int -> int, g: int -> int, a: nat, b: nat)
    requires a <= b
    requires forall i :: a <= i < b ==> Abs(f(i)) <= g(i)
    ensures Abs(Between(f, a, b)) <= Between(g, a, b)
    decreases b
  {
    if a < b {
      BetweenBound(f, g, a, b - 1);
    }
  }

  /** Summing `w` at a time. */
  lemma {:induction false} SumGroups(w: nat, groups: nat, f: int -> int)
    ensures Sum(w * groups, f) == Sum(groups, Groups(f, w))
  {
    if groups > 0 {
      SumGroups(w, groups - 1, f);
      assert w * groups == w * (groups - 1) + w;
    } else {
      assert w * groups == 0;
    }
  }

  /** Groups of `w` terms that run past the end of a finite family add nothing beyond it. */
  lemma GroupsOfFinite(w: nat, groups: nat, k: nat, f: int -> int)
    requires ZeroOutside(k, f)
    ensures Sum(groups, Groups(f, w)) == Sum(if w * groups <= k then w * groups else k, f)
  {
    var n := w * groups;
    SumGroups(w, groups, f);
    if n > k {
      SumSplit(k, n - k, f);
      SumZero(n - k, Shift(f, k));
    }
  }

  lemma {:induction false} SumMonotone(n: nat, m: nat, g: int -> int)
    requires n <= m
    requires forall i :: 0 <= i < m ==> g(i) >= 0
    ensures 0 <= Sum(n, g) <= Sum(m, g)
    decreases m
  {
    if n < m {
      SumMonotone(n, m - 1, g);
    } else if n > 0 {
      SumMonotone(n - 1, m - 1, g);
    }
  }

  /** One term of a non-negative family is within its sum. */
  lemma SumTerm(n: nat, i: nat, g: int -> int)
    requires i < n
    requires forall k :: 0 <= k < n ==> g(k) >= 0
    ensures g(i) <= Sum(n, g)
  {
    SumMonotone(0, i, g);
    SumMonotone(i + 1, n, g);
    assert Sum(i + 1, g) == Sum(i, g) + g(i);
  }

  lemma {:induction false} SumBound(n: nat, f: int -> int, g: int -> int)
    requires forall i :: 0 <= i < n ==> Abs(f(i)) <= g(i)
    ensures Abs(Sum(n, f)) <= Sum(n, g)
  {
    if n > 0 {
      SumBound(n - 1, f, g);
    }
  }
}
