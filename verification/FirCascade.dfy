/**
 The receive filter as mathematics: two centred symmetric FIRs, each followed by decimation by five,
 and the one direct-form filter they amount to.
 */
module FirCascade {
  import opened MachineIntegers
  import opened Sums

  const STAGE1_HALF := 32
  const STAGE2_HALF := 288
  const EFFECTIVE_HALF := 1472
  const PCM_DIVISOR := 0x1000_0000_0000
  const PCM_ROUND_HALF := 0x800_0000_0000

  /** A half table holds the centre coefficient followed by those at positive distance. */
  type HalfTable = h: seq<int32> | |h| > 0 witness [0]

  function Taps(h: HalfTable): nat {
    2 * |h| - 1
  }

  /** The mirrored, zero-extended impulse response of a half table. */
  function Tap(h: HalfTable, t: int): int {
    if 0 <= t < Taps(h) then h[Abs(t - (|h| - 1))] else 0
  }

  ghost function AbsTaps(h: HalfTable): int -> int {
    (t: int) => Abs(Tap(h, t))
  }

  /** Sum of the magnitudes of all mirrored coefficients. */
  ghost function L1(h: HalfTable): (r: nat) {
    SumMonotone(0, Taps(h), AbsTaps(h));
    Sum(Taps(h), AbsTaps(h))
  }

  /** What the build asserts of the generated tables, whatever the coefficients are. */
  ghost predicate ValidTables(h1: HalfTable, h2: HalfTable) {
    && |h1| == STAGE1_HALF + 1
    && |h2| == STAGE2_HALF + 1
    && L1(h1) <= INT32_MAX / 2
    && L1(h1) * L1(h2) <= INT64_MAX - PCM_ROUND_HALF
  }

  // ----- The cascade

  ghost function Stage1Terms(h1: HalfTable, x: int -> int, center: int): int -> int {
    (t: int) => Tap(h1, t) * x(center - (|h1| - 1) + t)
  }

  /** First-stage output at input instant `center`. */
  ghost function Stage1(h1: HalfTable, x: int -> int, center: int): int {
    Sum(Taps(h1), Stage1Terms(h1, x, center))
  }

  ghost function CascadeTerms(h1: HalfTable, h2: HalfTable, x: int -> int, frame: int): int -> int {
    (j: int) => Tap(h2, j) * Stage1(h1, x, 5 * (5 * frame - (|h2| - 1) + j))
  }

  /** Second stage over every fifth first-stage output, centred on frame `frame`. */
  ghost function Cascade(h1: HalfTable, h2: HalfTable, x: int -> int, frame: int): int {
    Sum(Taps(h2), CascadeTerms(h1, h2, x, frame))
  }

  // ----- The direct form

  ghost function ConvolutionTerms(h1: HalfTable, h2: HalfTable, s: int): int -> int {
    (j: int) => Tap(h2, j) * Tap(h1, s - 5 * j)
  }

  /** h1 convolved with h2 upsampled by five. */
  ghost function Effective(h1: HalfTable, h2: HalfTable, s: int): int {
    Sum(Taps(h2), ConvolutionTerms(h1, h2, s))
  }

  function EffectiveTaps(h1: HalfTable, h2: HalfTable): nat {
    Taps(h1) + 5 * (Taps(h2) - 1)
  }

  function EffectiveHalf(h1: HalfTable, h2: HalfTable): nat {
    |h1| - 1 + 5 * (|h2| - 1)
  }

  ghost function DirectTerms(h1: HalfTable, h2: HalfTable, x: int -> int, frame: int): int -> int {
    (s: int) => Effective(h1, h2, s) * x(25 * frame - EffectiveHalf(h1, h2) + s)
  }

  /** The effective response applied directly to the input, one output per 25 instants. */
  ghost function Direct(h1: HalfTable, h2: HalfTable, x: int -> int, frame: int): int {
    Sum(EffectiveTaps(h1, h2), DirectTerms(h1, h2, x, frame))
  }

  // ----- Cascade and direct form agree

  ghost function Products(h1: HalfTable, h2: HalfTable, x: int -> int, base: int): (int, int) -> int {
    (j: int, s: int) => Tap(h2, j) * (Tap(h1, s - 5 * j) * x(base + s))
  }

  lemma RowAt(h1: HalfTable, h2: HalfTable, x: int -> int, frame: int, j: int, s: int)
    ensures Row(Products(h1, h2, x, 25 * frame - EffectiveHalf(h1, h2)), j)(s)
         == Tap(h2, j) * Stage1Terms(h1, x, 5 * (5 * frame - (|h2| - 1) + j))(s - 5 * j)
  {
    var at := 25 * frame - EffectiveHalf(h1, h2) + s;
    assert at == 5 * (5 * frame - (|h2| - 1) + j) - (|h1| - 1) + (s - 5 * j);
  }

  lemma TermsOutside(h1: HalfTable, x: int -> int, center: int)
    ensures ZeroOutside(Taps(h1), Stage1Terms(h1, x, center))
  {
    forall t | t < 0 || t >= Taps(h1) ensures Stage1Terms(h1, x, center)(t) == 0 {
      assert Tap(h1, t) == 0;
    }
  }

  lemma CascadeRow(h1: HalfTable, h2: HalfTable, x: int -> int, frame: int, j: int)
    requires 0 <= j < Taps(h2)
    ensures CascadeTerms(h1, h2, x, frame)(j)
         == Sum(EffectiveTaps(h1, h2), Row(Products(h1, h2, x, 25 * frame - EffectiveHalf(h1, h2)), j))
  {
    var m := EffectiveTaps(h1, h2);
    var center := 5 * (5 * frame - (|h2| - 1) + j);
    var terms := Stage1Terms(h1, x, center);
    var row := Row(Products(h1, h2, x, 25 * frame - EffectiveHalf(h1, h2)), j);
    var c := Tap(h2, j);
    TermsOutside(h1, x, center);
    forall s | 0 <= s < m ensures row(s) == c * terms(s - 5 * j) {
      RowAt(h1, h2, x, frame, j, s);
    }
    SumScaledShift(Taps(h1), 5 * j, m, c, terms, row);
  }

  lemma ColumnAt(h1: HalfTable, h2: HalfTable, x: int -> int, base: int, s: int, j: int)
    ensures Column(Products(h1, h2, x, base), s)(j) == x(base + s) * ConvolutionTerms(h1, h2, s)(j)
  {
    MulRegroup(Tap(h2, j), Tap(h1, s - 5 * j), x(base + s));
  }

  lemma DirectColumn(h1: HalfTable, h2: HalfTable, x: int -> int, frame: int, s: int)
    ensures DirectTerms(h1, h2, x, frame)(s)
         == Sum(Taps(h2), Column(Products(h1, h2, x, 25 * frame - EffectiveHalf(h1, h2)), s))
  {
    var base := 25 * frame - EffectiveHalf(h1, h2);
    var column := Column(Products(h1, h2, x, base), s);
    forall j | 0 <= j < Taps(h2) ensures column(j) == x(base + s) * ConvolutionTerms(h1, h2, s)(j) {
      ColumnAt(h1, h2, x, base, s, j);
    }
    SumScaled(Taps(h2), x(base + s), ConvolutionTerms(h1, h2, s), column);
    DirectTermAt(h1, h2, x, frame, s);
  }

  lemma DirectTermAt(h1: HalfTable, h2: HalfTable, x: int -> int, frame: int, s: int)
    ensures DirectTerms(h1, h2, x, frame)(s)
         == x(25 * frame - EffectiveHalf(h1, h2) + s) * Sum(Taps(h2), ConvolutionTerms(h1, h2, s))
  {
    hide Sum, Taps, ConvolutionTerms, EffectiveHalf;
    MulCommutes(Effective(h1, h2, s), x(25 * frame - EffectiveHalf(h1, h2) + s));
  }

  lemma MulCommutes(a: int, b: int)
    ensures a * b == b * a
  {
  }

  lemma MulRegroup(a: int, b: int, c: int)
    ensures a * (b * c) == c * (a * b)
  {
  }

  /** Filtering twice with decimation between equals filtering once with the effective response. */
  lemma CascadeIsDirect(h1: HalfTable, h2: HalfTable, x: int -> int, frame: int)
    ensures Cascade(h1, h2, x, frame) == Direct(h1, h2, x, frame)
  {
    var base := 25 * frame - EffectiveHalf(h1, h2);
    var n, m := Taps(h2), EffectiveTaps(h1, h2);
    var p := Products(h1, h2, x, base);
    var rows, columns := CascadeTerms(h1, h2, x, frame), DirectTerms(h1, h2, x, frame);
    forall j | 0 <= j < n ensures rows(j) == Sum(m, Row(p, j)) {
      CascadeRow(h1, h2, x, frame, j);
    }
    forall s | 0 <= s < m ensures columns(s) == Sum(n, Column(p, s)) {
      DirectColumn(h1, h2, x, frame, s);
    }
    SumTable(n, m, p, rows, columns);
  }

  /** The effective response is symmetric, so a half table of it is enough. */
  lemma EffectiveSymmetric(h1: HalfTable, h2: HalfTable, s: int)
    ensures Effective(h1, h2, s) == Effective(h1, h2, 2 * EffectiveHalf(h1, h2) - s)
  {
    var n := Taps(h2);
    var forward := ConvolutionTerms(h1, h2, s);
    var mirrored := ConvolutionTerms(h1, h2, 2 * EffectiveHalf(h1, h2) - s);
    SumReverse(n, forward);
    forall j | 0 <= j < n ensures Backward(forward, n - 1)(j) == mirrored(j) {
      TapSymmetric(h2, j);
      TapSymmetric(h1, s - 5 * (n - 1 - j));
    }
    SumEqual(n, Backward(forward, n - 1), mirrored);
  }

  lemma TapSymmetric(h: HalfTable, t: int)
    ensures Tap(h, t) == Tap(h, Taps(h) - 1 - t)
  {
  }

  // ----- Magnitudes

  /** A stream of +1, -1 and, outside the recording, 0. */
  ghost predicate Ternary(x: int -> int) {
    forall i :: -1 <= x(i) <= 1
  }

  lemma ProductBound(a: int, v: int, bound: int)
    requires Abs(v) <= bound
    ensures Abs(a * v) <= Abs(a) * bound
  {
    assert Abs(a * v) == Abs(a) * Abs(v) by {
      if a >= 0 {
        if v < 0 { assert a * v == -(a * -v); }
      } else {
        assert a * v == -(-a * v);
        if v < 0 { assert -a * v == -(-a * -v); }
      }
    }
    assert Abs(a) * Abs(v) <= Abs(a) * bound by {
      assert Abs(a) * (bound - Abs(v)) >= 0;
    }
  }

  /** Every partial first-stage sum is within the L1 norm of the first table. */
  lemma Stage1PartialBound(h1: HalfTable, x: int -> int, center: int, k: nat)
    requires Ternary(x) && k <= Taps(h1)
    ensures Abs(Sum(k, Stage1Terms(h1, x, center))) <= L1(h1)
  {
    var terms := Stage1Terms(h1, x, center);
    forall t | 0 <= t < k ensures Abs(terms(t)) <= AbsTaps(h1)(t) {
      ProductBound(Tap(h1, t), x(center - (|h1| - 1) + t), 1);
    }
    SumBound(k, terms, AbsTaps(h1));
    SumMonotone(k, Taps(h1), AbsTaps(h1));
  }

  lemma AbsTapsOutside(h: HalfTable)
    ensures ZeroOutside(Taps(h), AbsTaps(h))
    ensures forall t :: AbsTaps(h)(t) >= 0
  {
  }

  /** Any run of coefficients has magnitude sum within the L1 norm, the zero extension included. */
  lemma WindowBound(h: HalfTable, a: nat, n: nat)
    ensures 0 <= Sum(n, Shift(AbsTaps(h), a)) <= L1(h)
  {
    var g := AbsTaps(h);
    var k := Taps(h);
    AbsTapsOutside(h);
    WindowOfTotal(k, g, a, n);
  }

  /** No coefficient exceeds the L1 norm, so negating one cannot overflow. */
  lemma TapBound(h: HalfTable, t: nat)
    ensures Abs(Tap(h, t)) <= L1(h)
  {
    WindowBound(h, t, 1);
    SingleTerm(AbsTaps(h), t);
  }

  lemma WindowOfTotal(k: nat, g: int -> int, a: nat, n: nat)
    requires ZeroOutside(k, g)
    requires forall t :: g(t) >= 0
    ensures 0 <= Sum(n, Shift(g, a)) <= Sum(k, g)
  {
    SumSplit(a, n, g);
    SumMonotone(0, a, g);
    SumMonotone(0, n, Shift(g, a));
    if a + n <= k {
      SumMonotone(a + n, k, g);
    } else {
      SumSplit(k, a + n - k, g);
      SumZero(a + n - k, Shift(g, k));
    }
  }

  ghost function AbsProducts(h1: HalfTable, h2: HalfTable): (int, int) -> int {
    (j: int, s: int) => Abs(Tap(h2, j)) * Abs(Tap(h1, s - 5 * j))
  }

  ghost function AbsEffective(h1: HalfTable, h2: HalfTable): int -> int {
    (s: int) => Abs(Effective(h1, h2, s))
  }

  lemma AbsColumn(h1: HalfTable, h2: HalfTable, s: int)
    ensures AbsEffective(h1, h2)(s) <= Sum(Taps(h2), Column(AbsProducts(h1, h2), s))
  {
    var terms := ConvolutionTerms(h1, h2, s);
    var column := Column(AbsProducts(h1, h2), s);
    forall j | 0 <= j < Taps(h2) ensures Abs(terms(j)) <= column(j) {
      ProductBound(Tap(h2, j), Tap(h1, s - 5 * j), Abs(Tap(h1, s - 5 * j)));
    }
    SumBound(Taps(h2), terms, column);
  }

  lemma AbsRowAt(h1: HalfTable, h2: HalfTable, j: int, s: int)
    ensures Row(AbsProducts(h1, h2), j)(s) == AbsTaps(h2)(j) * AbsTaps(h1)(s - 5 * j)
  {
  }

  lemma AbsRow(h1: HalfTable, h2: HalfTable, j: int)
    requires 0 <= j < Taps(h2)
    ensures Sum(EffectiveTaps(h1, h2), Row(AbsProducts(h1, h2), j)) == AbsTaps(h2)(j) * L1(h1)
  {
    var c := AbsTaps(h2)(j);
    var row := Row(AbsProducts(h1, h2), j);
    AbsTapsOutside(h1);
    forall s | 0 <= s < EffectiveTaps(h1, h2) ensures row(s) == c * AbsTaps(h1)(s - 5 * j) {
      AbsRowAt(h1, h2, j, s);
    }
    SumScaledShift(Taps(h1), 5 * j, EffectiveTaps(h1, h2), c, AbsTaps(h1), row);
  }

  lemma EffectiveMagnitude(h1: HalfTable, h2: HalfTable)
    ensures Sum(EffectiveTaps(h1, h2), AbsEffective(h1, h2)) <= L1(h1) * L1(h2)
  {
    var n, m := Taps(h2), EffectiveTaps(h1, h2);
    var p := AbsProducts(h1, h2);
    var columns := (s: int) => Sum(n, Column(p, s));
    var rows := (j: int) => Sum(m, Row(p, j));
    forall s | 0 <= s < m ensures Abs(AbsEffective(h1, h2)(s)) <= columns(s) {
      AbsColumn(h1, h2, s);
    }
    SumBound(m, AbsEffective(h1, h2), columns);
    SumTable(n, m, p, rows, columns);
    forall j | 0 <= j < n ensures rows(j) == L1(h1) * AbsTaps(h2)(j) {
      AbsRow(h1, h2, j);
      MulRegroup(AbsTaps(h2)(j), L1(h1), 1);
    }
    SumScaled(n, L1(h1), AbsTaps(h2), rows);
  }

  lemma EffectiveTapBound(h1: HalfTable, h2: HalfTable, s: nat)
    requires s < EffectiveTaps(h1, h2)
    ensures Abs(Effective(h1, h2, s)) <= L1(h1) * L1(h2)
  {
    var g := AbsEffective(h1, h2);
    SumTerm(EffectiveTaps(h1, h2), s, g);
    EffectiveMagnitude(h1, h2);
  }

  /** Every partial direct-form sum is within the product of the two L1 norms. */
  lemma DirectPartialBound(h1: HalfTable, h2: HalfTable, x: int -> int, frame: int, k: nat)
    requires Ternary(x) && k <= EffectiveTaps(h1, h2)
    ensures Abs(Sum(k, DirectTerms(h1, h2, x, frame))) <= L1(h1) * L1(h2)
  {
    var terms := DirectTerms(h1, h2, x, frame);
    var magnitudes := AbsEffective(h1, h2);
    forall s | 0 <= s < k ensures Abs(terms(s)) <= magnitudes(s) {
      ProductBound(Effective(h1, h2, s), x(25 * frame - EffectiveHalf(h1, h2) + s), 1);
    }
    SumBound(k, terms, magnitudes);
    SumMonotone(k, EffectiveTaps(h1, h2), magnitudes);
    EffectiveMagnitude(h1, h2);
  }

  // ----- Folding

  /** Second-stage terms for arbitrary first-stage outputs `y`, indexed relative to the centre. */
  ghost function WeightedTerms(h: HalfTable, y: int -> int): int -> int {
    (j: int) => Tap(h, j) * y(j - (|h| - 1))
  }

  /** The folded accumulation after the centre and the first `d` symmetric pairs. */
  ghost function Folded(h: HalfTable, y: int -> int, d: nat): int
    requires d < |h|
  {
    if d == 0 then h[0] * y(0)
    else Folded(h, y, d - 1) + (y(0 - d) + y(d)) * h[d]
  }

  /** A window of odd length around `half`, widened by its two neighbours. */
  lemma WidenWindow(f: int -> int, half: int, d: nat, inner: int, outer: int)
    requires d > 0
    requires inner == Sum(2 * d - 1, Shift(f, half - d + 1))
    requires outer == f(half - d) + inner + f(half + d)
    ensures outer == Sum(2 * d + 1, Shift(f, half - d))
  {
    var w := Shift(f, half - d);
    assert Sum(1, w) == Sum(0, w) + w(0) == w(0);
    SumSplit(1, 2 * d - 1, w);
    SumEqual(2 * d - 1, Shift(w, 1), Shift(f, half - d + 1));
    assert Sum(2 * d + 1, w) == Sum(2 * d, w) + w(2 * d);
  }

  lemma SingleTerm(f: int -> int, a: int)
    ensures Sum(1, Shift(f, a)) == f(a)
  {
    assert Sum(1, Shift(f, a)) == Sum(0, Shift(f, a)) + f(a);
  }

  lemma WeightedCentre(h: HalfTable, y: int -> int)
    ensures Folded(h, y, 0) == WeightedTerms(h, y)(|h| - 1)
  {
  }

  lemma WeightedPair(h: HalfTable, y: int -> int, d: nat)
    requires 0 < d < |h|
    ensures Folded(h, y, d)
         == WeightedTerms(h, y)(|h| - 1 - d) + Folded(h, y, d - 1) + WeightedTerms(h, y)(|h| - 1 + d)
  {
    assert (y(0 - d) + y(d)) * h[d] == h[d] * y(0 - d) + h[d] * y(d);
  }

  lemma FoldedWindowStep(h: HalfTable, y: int -> int, d: nat)
    requires 0 < d < |h|
    requires Folded(h, y, d - 1) == Sum(2 * d - 1, Shift(WeightedTerms(h, y), |h| - 1 - d + 1))
    ensures Folded(h, y, d) == Sum(2 * d + 1, Shift(WeightedTerms(h, y), |h| - 1 - d))
  {
    hide Sum, WeightedTerms, Folded, Shift, Taps;
    WeightedPair(h, y, d);
    WidenWindow(WeightedTerms(h, y), |h| - 1, d, Folded(h, y, d - 1), Folded(h, y, d));
  }

  /** After `d` pairs, folding has summed exactly the taps at distance at most `d`. */
  lemma {:induction false} FoldedWindow(h: HalfTable, y: int -> int, d: nat)
    requires d < |h|
    ensures Folded(h, y, d) == Sum(2 * d + 1, Shift(WeightedTerms(h, y), |h| - 1 - d))
  {
    if d == 0 {
      WeightedCentre(h, y);
      SingleTerm(WeightedTerms(h, y), |h| - 1);
    } else {
      FoldedWindow(h, y, d - 1);
      FoldedWindowStep(h, y, d);
    }
  }

  /** Folding all pairs sums every tap. */
  lemma FoldedIsSum(h: HalfTable, y: int -> int)
    ensures Folded(h, y, |h| - 1) == Sum(Taps(h), WeightedTerms(h, y))
  {
    FoldedWindow(h, y, |h| - 1);
    SumEqual(Taps(h), Shift(WeightedTerms(h, y), 0), WeightedTerms(h, y));
  }

  /** Every partial folded accumulation is within L1 times the largest first-stage output. */
  lemma FoldedBound(h: HalfTable, y: int -> int, d: nat, bound: nat)
    requires d < |h|
    requires forall i :: Abs(y(i)) <= bound
    ensures Abs(Folded(h, y, d)) <= bound * L1(h)
  {
    var a := |h| - 1 - d;
    var n := 2 * d + 1;
    FoldedWindow(h, y, d);
    var w := Shift(WeightedTerms(h, y), a);
    var g := Shift(AbsTaps(h), a);
    var scaled := (i: int) => bound * g(i);
    forall i | 0 <= i < n ensures Abs(w(i)) <= scaled(i) {
      assert w(i) == Tap(h, a + i) * y(a + i - (|h| - 1));
      ProductBound(Tap(h, a + i), y(a + i - (|h| - 1)), bound);
      assert g(i) == Abs(Tap(h, a + i));
    }
    SumBound(n, w, scaled);
    SumScaled(n, bound, g, scaled);
    WindowBound(h, a, n);
    ScaleBound(bound, Sum(n, g), L1(h));
  }

  /** Outputs small enough that pairs fit 32 bits and folded accumulations, with rounding, 64 bits. */
  ghost predicate Headroom(h: HalfTable, y: int -> int, bound: nat) {
    && (forall i :: Abs(y(i)) <= bound)
    && 2 * bound <= INT32_MAX
    && bound * L1(h) <= INT64_MAX - PCM_ROUND_HALF
  }

  /** Folding one more pair keeps the pair and the accumulator inside their types. */
  lemma FoldStep(h: HalfTable, y: int -> int, d: nat, bound: nat, pair: int)
    requires d < |h| && Headroom(h, y, bound) && pair == y(0 - d) + y(d)
    ensures Abs(pair) <= INT32_MAX
    ensures Abs(Folded(h, y, d)) <= INT64_MAX - PCM_ROUND_HALF
    ensures d > 0 ==> Folded(h, y, d) == Folded(h, y, d - 1) + pair * h[d]
  {
    FoldedBound(h, y, d, bound);
    assert Abs(y(0 - d)) <= bound && Abs(y(d)) <= bound;
  }

  lemma ScaleBound(c: nat, a: int, b: int)
    requires a <= b
    ensures c * a <= c * b
  {
    assert c * (b - a) >= 0;
  }

  // ----- Rounding to PCM16

  function AccumulatorToPcm16(value: int): int16 {
    var scaled := if value >= 0 then TruncDiv(value + PCM_ROUND_HALF, PCM_DIVISOR)
                  else -TruncDiv(-value + PCM_ROUND_HALF, PCM_DIVISOR);
    if scaled > INT16_MAX then INT16_MAX
    else if scaled < INT16_MIN then INT16_MIN
    else scaled
  }

  /** `r` is the integer nearest to `value / PCM_DIVISOR`, a tie going away from zero. */
  ghost predicate NearestAway(value: int, r: int) {
    && 2 * Abs(value - r * PCM_DIVISOR) <= PCM_DIVISOR
    && (2 * Abs(value - r * PCM_DIVISOR) == PCM_DIVISOR ==> Abs(r * PCM_DIVISOR) > Abs(value))
  }

  /** The conversion rounds half away from zero and saturates to 16 bits; nothing else fits. */
  lemma Pcm16IsNearestSaturated(value: int, r: int)
    requires NearestAway(value, r)
    ensures AccumulatorToPcm16(value) == if r > INT16_MAX then INT16_MAX else if r < INT16_MIN then INT16_MIN else r
  {
  }

  lemma NearestAwayExists(value: int) returns (r: int)
    ensures NearestAway(value, r)
  {
    r := if value >= 0 then (value + PCM_ROUND_HALF) / PCM_DIVISOR
         else -((-value + PCM_ROUND_HALF) / PCM_DIVISOR);
  }
}
