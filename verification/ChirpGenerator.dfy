/** The numerically controlled oscillator: one clock edge at a time, in wrapping 32-bit registers. */
module ChirpGenerator {
  import opened MachineIntegers
  import opened ExperimentConfig

  const WORD := 0x1_0000_0000

  function Wrap(x: int): uint32 {
    x % WORD
  }

  /** The signed reading of a 32-bit register. */
  function SignedWord(x: uint32): int32 {
    if x >= 0x8000_0000 then x - WORD else x
  }

  /** The closed form of the phase before sample `k`. */
  function PhaseAt(start: int, step: int, k: nat): uint32 {
    Wrap(k * start + k * (k - 1) / 2 * step)
  }

  lemma WrapAdd(a: int, b: int, c: int)
    requires Wrap(b) == Wrap(c)
    ensures Wrap(Wrap(a) + b) == Wrap(a + c)
  {
    var q, r := a / WORD, b / WORD;
    assert a == WORD * q + Wrap(a) && b == WORD * r + Wrap(b) && c == WORD * (c / WORD) + Wrap(c);
    WrapShift(Wrap(a) + Wrap(b), r);
    WrapShift(Wrap(a) + Wrap(b), q + c / WORD);
  }

  lemma WrapShift(x: int, k: int)
    ensures Wrap(x + WORD * k) == Wrap(x)
  {
    var q := x / WORD;
    QuotientUnique(x + WORD * k, WORD, q + k, Wrap(x));
  }

  lemma SignedWrap(x: int)
    ensures Wrap(SignedWord(Wrap(x))) == Wrap(x)
  {
  }

  lemma NextPhase(start: int, step: int, k: nat, increment: int32)
    requires Wrap(increment) == Wrap(start + k * step)
    ensures Wrap(PhaseAt(start, step, k) + increment) == PhaseAt(start, step, k + 1)
  {
    var t := k * (k - 1) / 2;
    Triangle(k);
    WrapAdd(k * start + t * step, increment, start + k * step);
    assert k * start + t * step + (start + k * step) == (k + 1) * start + (t + k) * step;
  }

  lemma Triangle(k: nat)
    ensures (k + 1) * k / 2 == k * (k - 1) / 2 + k
  {
    assert (k + 1) * k == k * (k - 1) + 2 * k;
  }

  lemma NextIncrement(start: int, step: int, k: nat, increment: int32)
    requires Wrap(increment) == Wrap(start + k * step)
    ensures Wrap(SignedWord(Wrap(increment + step))) == Wrap(start + (k + 1) * step)
  {
    SignedWrap(increment + step);
    WrapAdd(step, increment, start + k * step);
    WrapAdd(step, increment, increment);
    WrapAdd(increment, step, step);
    WrapOfWrap(step, increment);
    assert step + (start + k * step) == start + (k + 1) * step;
  }

  lemma WrapOfWrap(a: int, b: int)
    ensures Wrap(Wrap(a) + b) == Wrap(a + b)
  {
    WrapAdd(a, b, b);
  }

  datatype Registers = Registers(start: uint32, step: int32, total: uint32, phase: uint32, increment: int32,
                                 counter: uint32, valid: bool, busy: bool, done: bool)

  const RESET := Registers(0, 0, 0, 0, 0, 0, false, false, false)

  /** A sample as it is generated: the phase looked up and the increment added to it. */
  datatype Sample = Sample(phase: uint32, increment: int32)

  predicate OnRamp(start: uint32, step: int32, k: nat, s: Sample) {
    s.phase == PhaseAt(start, step, k) && Wrap(s.increment) == Wrap(start + k * step)
  }

  function Advance(s: Sample, step: int32): Sample {
    Sample(Wrap(s.phase + s.increment), SignedWord(Wrap(s.increment + step)))
  }

  lemma NextOnRamp(start: uint32, step: int32, k: nat, s: Sample)
    requires OnRamp(start, step, k, s)
    ensures OnRamp(start, step, k + 1, Advance(s, step))
  {
    NextPhase(start, step, k, s.increment);
    NextIncrement(start, step, k, s.increment);
  }

  lemma FirstOnRamp(start: uint32, step: int32)
    ensures OnRamp(start, step, 0, Sample(0, SignedWord(start)))
  {
    SignedWrap(start);
  }

  class Generator {
    var r: Registers

    /** The samples generated since the last start. */
    ghost var samples: seq<Sample>

    /** Sample `k` had the closed-form phase, and the register held the increment of the ramp. */
    ghost predicate Valid()
      reads this
    {
      && (r.busy ==> r.counter == |samples| < r.total && OnRamp(r.start, r.step, r.counter,
                                                                Sample(r.phase, r.increment)))
      && (forall k :: 0 <= k < |samples| ==> OnRamp(r.start, r.step, k, samples[k]))
      && (r.done ==> |samples| == r.total && !r.busy)
    }

    constructor ()
      ensures Valid() && r == RESET && samples == []
    {
      r, samples := RESET, [];
    }

    /** One clock edge. A start is ignored while a chirp is running; a sample is produced only on request. */
    method Clock(reset: bool, start: bool, request: bool, inc: uint32, step: int32, total: uint32)
      requires Valid()
      modifies this
      ensures Valid()
      ensures !reset && start && !old(r).busy ==> r.start == inc && r.step == step && r.total == total && samples == []
      ensures !reset && !(start && !old(r).busy) ==>
        && r.start == old(r).start && r.step == old(r).step && r.total == old(r).total
        && old(samples) <= samples && |samples| == |old(samples)| + (if old(r).busy && request then 1 else 0)
      ensures r.valid == (!reset && old(r).busy && request)
      ensures r.done == (!reset && (if old(r).busy then request && |samples| == r.total else start && total == 0))
      ensures r.busy == (!reset && (if old(r).busy then !r.done else start && total != 0))
    {
      hide OnRamp, Advance;
      if reset {
        r, samples := RESET, [];
      } else if start && !r.busy {
        r, samples := Registers(inc, step, total, 0, SignedWord(inc), 0, false, total != 0, total == 0), [];
        FirstOnRamp(inc, step);
      } else if r.busy && request {
        var now := Sample(r.phase, r.increment);
        var next := Advance(now, r.step);
        NextOnRamp(r.start, r.step, r.counter, now);
        var last := r.counter + 1 >= r.total;
        samples := samples + [now];
        r := r.(valid := true, phase := next.phase, increment := next.increment,
                busy := !last, done := last, counter := if last then 0 else r.counter + 1);
      } else {
        r := r.(valid := false, done := false);
      }
    }
  }

  /** In an accepted chirp no increment wraps: the register holds exactly the ramp. */
  lemma RegisterIsTheRamp(c: Config, k: nat, increment: int32)
    requires c.mode == Generate && Calculate(c, 0).Some? && k < Calculate(c, 0).value.samples
    requires Wrap(increment) == Wrap(IncrementAt(Calculate(c, 0).value, k))
    ensures increment == IncrementAt(Calculate(c, 0).value, k)
  {
    hide Calculate, IncrementAt;
    EveryIncrementIsAudible(c, k);
  }
}
