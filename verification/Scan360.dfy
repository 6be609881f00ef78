/** Dividing one revolution of the motor into equal positions by rounding cumulative targets. */
module Scan360 {
  import opened MachineIntegers

  const REVOLUTION_STEPS := 88000
  const MAX_POSITIONS := 1000

  datatype Scan = Scan(positions: nat, direction: int, started: nat)

  predicate Configured(s: Scan) {
    0 < s.positions <= MAX_POSITIONS && (s.direction == 1 || s.direction == -1)
  }

  /** Where move `k` of `n` should end, to the nearest step. */
  function Target(k: nat, n: nat): nat
    requires n > 0
  {
    (k * REVOLUTION_STEPS + n / 2) / n
  }

  predicate Complete(s: Scan) {
    s.positions != 0 && s.started >= s.positions
  }

  function CaptureIndex(s: Scan): nat {
    if s.positions == 0 || s.started >= s.positions then 0 else s.started + 1
  }

  function NextDelta(s: Scan): int {
    if s.positions == 0 || s.started >= s.positions then 0
    else
      var delta := Target(s.started + 1, s.positions) - Target(s.started, s.positions);
      if s.direction < 0 then -delta else delta
  }

  function MarkMoveStarted(s: Scan): Scan {
    if s.started < s.positions then s.(started := s.started + 1) else s
  }

  /** Nearest: the target is within half a step of the exact position. */
  lemma TargetIsNearest(k: nat, n: nat)
    requires n > 0
    ensures 2 * Abs(n * Target(k, n) - k * REVOLUTION_STEPS) <= n
  {
    DivBounds(k * REVOLUTION_STEPS + n / 2, n);
  }

  lemma TargetEnds(n: nat)
    requires n > 0
    ensures Target(0, n) == 0 && Target(n, n) == REVOLUTION_STEPS
  {
    QuotientUnique(n / 2, n, 0, n / 2);
    QuotientUnique(n * REVOLUTION_STEPS + n / 2, n, REVOLUTION_STEPS, n / 2);
  }

  lemma TargetBounds(k: nat, n: nat)
    requires n > 0
    ensures n * Target(k, n) <= k * REVOLUTION_STEPS + n / 2 < n * Target(k, n) + n
  {
    DivBounds(k * REVOLUTION_STEPS + n / 2, n);
  }

  /** Every move is the average move rounded down or up. */
  lemma MoveIsFloorOrCeiling(k: nat, n: nat)
    requires n > 0
    ensures var d := Target(k + 1, n) - Target(k, n);
      REVOLUTION_STEPS / n <= d <= (REVOLUTION_STEPS + n - 1) / n
  {
    TargetBounds(k, n);
    TargetBounds(k + 1, n);
    hide Target;
    Spread(n, Target(k + 1, n), Target(k, n), k * REVOLUTION_STEPS + n / 2);
  }

  /** Two quotients whose dividends are a revolution apart. */
  lemma Spread(n: nat, a: int, b: int, m: int)
    requires n > 0 && n * b <= m < n * b + n && n * a <= m + REVOLUTION_STEPS < n * a + n
    ensures REVOLUTION_STEPS / n <= a - b <= (REVOLUTION_STEPS + n - 1) / n
  {
    var d := a - b;
    assert n * d == n * a - n * b && n * (d + 1) == n * d + n;
    DivBounds(REVOLUTION_STEPS, n);
    DivBounds(REVOLUTION_STEPS + n - 1, n);
    ProductOrder(REVOLUTION_STEPS, n, REVOLUTION_STEPS / n, d + 1);
    ProductOrder(REVOLUTION_STEPS + n - 1, n, (REVOLUTION_STEPS + n - 1) / n, d);
  }

  /** The sum of the first `k` moves of a scan. */
  function Travelled(s: Scan, k: nat): int
    requires k <= s.positions
  {
    if k == 0 then 0 else Travelled(s, k - 1) + NextDelta(s.(started := k - 1))
  }

  /** The moves so far reach their cumulative target. */
  lemma {:induction false} MovesReachTarget(s: Scan, k: nat)
    requires Configured(s) && k <= s.positions
    ensures var t: int := Target(k, s.positions); Travelled(s, k) == if s.direction < 0 then -t else t
  {
    hide Target;
    if k == 0 {
      TargetEnds(s.positions);
    } else {
      MovesReachTarget(s, k - 1);
    }
  }

  /** Half a unit from the exact position after every move, and exactly one revolution after the last. */
  lemma ScanIsOneRevolution(s: Scan, k: nat)
    requires Configured(s) && k <= s.positions
    ensures 2 * Abs(s.positions * Abs(Travelled(s, k)) - k * REVOLUTION_STEPS) <= s.positions
    ensures Travelled(s, k) != 0 ==> (Travelled(s, k) < 0 <==> s.direction < 0)
    ensures k == s.positions ==> Travelled(s, k) == s.direction * REVOLUTION_STEPS
  {
    hide Target, Travelled;
    MovesReachTarget(s, k);
    TargetEnds(s.positions);
    TargetIsNearest(k, s.positions);
    assert Abs(Travelled(s, k)) == Target(k, s.positions);
  }

  /** No move of a scan is empty or beyond a revolution. */
  lemma MoveIsSmall(s: Scan)
    requires Configured(s) && s.started < s.positions
    ensures NextDelta(s) != 0 && Abs(NextDelta(s)) <= REVOLUTION_STEPS
    ensures NextDelta(s) > 0 <==> s.direction == 1
  {
    hide Target;
    var n := s.positions;
    MoveIsFloorOrCeiling(s.started, n);
    DivBounds(REVOLUTION_STEPS, n);
    DivBounds(REVOLUTION_STEPS + n - 1, n);
    ProductOrder(REVOLUTION_STEPS, n, REVOLUTION_STEPS / n, 1);
    ProductMonotone(REVOLUTION_STEPS, 1, n);
    ProductMonotone(REVOLUTION_STEPS - 1, 1, n);
    assert REVOLUTION_STEPS + n - 1 <= n * REVOLUTION_STEPS;
    ProductOrder(REVOLUTION_STEPS + n - 1, n, (REVOLUTION_STEPS + n - 1) / n, REVOLUTION_STEPS);
  }

  class Scanner {
    var scan: Scan

    constructor ()
      ensures scan == Scan(0, 0, 0)
    {
      scan := Scan(0, 0, 0);
    }

    /** The sign of the request selects the direction, its size the positions; nothing else is accepted. */
    method Configure(signedPositions: int32) returns (ok: bool)
      modifies this
      ensures ok == (0 < Abs(signedPositions) <= MAX_POSITIONS)
      ensures ok ==> Configured(scan) && scan.started == 0 && scan.direction * scan.positions == signedPositions
      ensures !ok ==> scan == old(scan)
    {
      if signedPositions == 0 || signedPositions < -MAX_POSITIONS || signedPositions > MAX_POSITIONS {
        return false;
      }
      scan := Scan(if signedPositions < 0 then -signedPositions else signedPositions,
                   if signedPositions < 0 then -1 else 1, 0);
      return true;
    }

    method Begin()
      modifies this
      ensures scan == old(scan).(started := 0)
    {
      scan := scan.(started := 0);
    }

    method Mark()
      modifies this
      ensures scan == MarkMoveStarted(old(scan))
    {
      if scan.started < scan.positions {
        scan := scan.(started := scan.started + 1);
      }
    }
  }
}
