/** From the operator's configuration to the numbers the transmitter is programmed with. */
module ExperimentConfig {
  import opened MachineIntegers
  import opened Options
  import opened AudioLimits

  datatype Mode = Generate | Wav

  datatype Config = Config(mode: Mode, startHz: uint32, stopHz: uint32, durationUs: uint32, amplitudePct: uint32,
                           waveformId: uint32, configId: uint32)
  datatype Values = Values(startInc: uint32, step: int32, samples: uint32, amplitude: uint32, durationUs: uint32)

  /** Samples nearest to a duration in microseconds. */
  function SampleCount(durationUs: nat): nat {
    (durationUs * AUDIO_HZ + 500000) / 1000000
  }

  /** Whole microseconds that hold `n` samples. */
  function Duration(n: nat): nat {
    (n * 1000000 + AUDIO_HZ - 1) / AUDIO_HZ
  }

  /** The phase increment per sample, in units of 2^-32 revolutions, nearest to a frequency. */
  function Increment(hz: nat): nat {
    (hz * 0x1_0000_0000 + AUDIO_HZ / 2) / AUDIO_HZ
  }

  function StepOf(delta: int, denominator: nat): int
    requires denominator > 0
  {
    if delta >= 0 then (delta + denominator / 2) / denominator else -((-delta + denominator / 2) / denominator)
  }

  function Amplitude(percent: nat): nat {
    (percent * 32767 + 50) / 100
  }

  function Calculate(c: Config, wavSamples: nat): Option<Values> {
    if c.amplitudePct > 100 then None
    else match c.mode
      case Generate =>
        if c.startHz == 0 || c.stopHz == 0 || c.startHz >= AUDIO_HZ / 2 || c.stopHz >= AUDIO_HZ / 2
           || c.durationUs == 0 || c.durationUs > CAPTURE_US - START_MARGIN_US then None
        else
          var n := SampleCount(c.durationUs);
          if n < 2 || n > TX_MAX_SAMPLES then None
          else
            var start, stop := Increment(c.startHz), Increment(c.stopHz);
            var step := StepOf(stop - start, n - 1);
            if step < -0x8000_0000 || step > INT32_MAX || Duration(n) + START_MARGIN_US > CAPTURE_US then None
            else
              IncrementRange(c.startHz);
              Some(Values(start, step, n, Amplitude(c.amplitudePct), Duration(n)))
      case Wav =>
        if c.waveformId == 0 || wavSamples == 0 || wavSamples > TX_MAX_SAMPLES
           || Duration(wavSamples) + START_MARGIN_US > CAPTURE_US then None
        else Some(Values(0, 0, wavSamples, Amplitude(c.amplitudePct), Duration(wavSamples)))
  }

  /** A frequency below half the sample rate advances the phase by less than half a revolution. */
  lemma IncrementRange(hz: nat)
    requires 0 < hz < AUDIO_HZ / 2
    ensures 44000 < Increment(hz) < 0x8000_0000 - 44000
  {
  }

  /** Rounded to the nearest integer, ties away from zero. */
  lemma StepIsNearest(delta: int, denominator: nat)
    requires denominator > 0
    ensures 2 * Abs(denominator * StepOf(delta, denominator) - delta) <= denominator
    ensures Abs(StepOf(delta, denominator)) <= Abs(delta)
  {
    var m := Abs(delta);
    var q := (m + denominator / 2) / denominator;
    DivBounds(m + denominator / 2, denominator);
    assert denominator * (-q) == -(denominator * q);
    ProductMonotone(m, 1, denominator);
    assert denominator * (m + 1) == m * denominator + denominator;
    ProductOrder(m + denominator / 2, denominator, q, m + 1);
  }

  /** The step is the quotient rounded to nearest, a tie going away from zero. */
  lemma StepTies(delta: int, denominator: nat)
    requires denominator > 0
    ensures StepOf(-delta, denominator) == -StepOf(delta, denominator)
    ensures delta >= 0 ==> NearestUp(StepOf(delta, denominator), delta, denominator)
  {
    if delta == 0 {
      QuotientUnique(denominator / 2, denominator, 0, denominator / 2);
    }
    if delta >= 0 {
      DivBounds(delta + denominator / 2, denominator);
    }
  }

  /** `q` is `x / d` rounded to the nearest integer, a tie going up: there is exactly one. */
  predicate NearestUp(q: int, x: int, d: int) {
    -d < 2 * (d * q - x) <= d
  }

  /** What an accepted configuration means for the transmitter, in frequencies, times and percentages. */
  lemma ValuesAreNearest(c: Config, wavSamples: nat)
    requires Calculate(c, wavSamples).Some?
    ensures var v := Calculate(c, wavSamples).value;
      && NearestUp(v.amplitude, c.amplitudePct * 32767, 100)
      && (v.durationUs - 1) * 96000 < v.samples * 1000000 <= v.durationUs * 96000
      && (c.mode == Wav ==> v.samples == wavSamples && v.startInc == v.step == 0)
      && (c.mode == Generate ==>
           && NearestUp(v.samples, c.durationUs * 96000, 1000000)
           && NearestUp(v.startInc, c.startHz * 0x1_0000_0000, 96000)
           && exists stop :: NearestUp(stop, c.stopHz * 0x1_0000_0000, 96000)
                             && v.step == StepOf(stop - v.startInc, v.samples - 1))
  {
    hide StepOf;
    if c.mode == Generate {
      IncrementIsNearest(c.startHz);
      IncrementIsNearest(c.stopHz);
    }
  }

  lemma IncrementIsNearest(hz: nat)
    ensures NearestUp(Increment(hz), hz * 0x1_0000_0000, 96000)
  {
  }

  /**
   Which configurations are accepted. The checks of the largest sample count, of the step's range and of
   the final duration reject nothing that the other limits let through; fewer than two samples means
   less than 16 microseconds.
   */
  lemma AcceptedExactly(c: Config, wavSamples: nat)
    ensures Calculate(c, wavSamples).Some? <==>
      && c.amplitudePct <= 100
      && (c.mode == Generate ==> 0 < c.startHz < 48000 && 0 < c.stopHz < 48000 && 16 <= c.durationUs <= 49000)
      && (c.mode == Wav ==> c.waveformId != 0 && 0 < wavSamples <= TX_MAX_SAMPLES)
  {
    hide Increment, StepOf;
    if c.mode == Generate && 0 < c.startHz < 48000 && 0 < c.stopHz < 48000 && 16 <= c.durationUs <= 49000 {
      IncrementRange(c.startHz);
      IncrementRange(c.stopHz);
      StepIsNearest(Increment(c.stopHz) - Increment(c.startHz), SampleCount(c.durationUs) - 1);
    }
  }

  /** The reported duration, rounded up to microseconds, gives back the same number of samples. */
  lemma DurationRoundTrip(n: nat)
    ensures SampleCount(Duration(n)) == n
    ensures 0 < n <= TX_MAX_SAMPLES ==> 0 < Duration(n) <= CAPTURE_US - START_MARGIN_US
  {
  }

  /** So calculating again from an accepted configuration and its reported duration changes nothing. */
  lemma RecalculationAgrees(c: Config, wavSamples: nat)
    requires Calculate(c, wavSamples).Some?
    ensures var v := Calculate(c, wavSamples).value;
      Calculate(c.(durationUs := v.durationUs), wavSamples) == Some(v)
  {
    hide Increment, StepOf, SampleCount, Duration;
    var v := Calculate(c, wavSamples).value;
    DurationRoundTrip(v.samples);
    assert c.mode == Generate ==> SampleCount(v.durationUs) == v.samples;
  }

  /** The increment in use for sample `k` of a chirp. */
  function IncrementAt(v: Values, k: nat): int {
    v.startInc + k * v.step
  }

  /** A linear ramp stays between its ends. */
  lemma RampBetween(start: int, step: int, k: nat, m: nat)
    requires k <= m
    ensures Min(start, start + m * step) <= start + k * step
    ensures start + k * step <= if start <= start + m * step then start + m * step else start
  {
    if step >= 0 {
      ProductMonotone(step, k, m);
      ProductMonotone(step, 0, k);
      assert step * k == k * step && step * m == m * step;
    } else {
      ProductMonotone(-step, k, m);
      ProductMonotone(-step, 0, k);
      assert -step * k == -(k * step) && -step * m == -(m * step);
    }
  }

  /**
   Every increment of an accepted chirp is a positive frequency below half the sample rate, and the last
   one is within half a unit per sample of the requested stop, which is itself rounded to half a unit.
   */
  lemma EveryIncrementIsAudible(c: Config, k: nat)
    requires c.mode == Generate && Calculate(c, 0).Some? && k < Calculate(c, 0).value.samples
    ensures var v := Calculate(c, 0).value;
      && 0 < IncrementAt(v, k) < 0x8000_0000
      && 2 * Abs(IncrementAt(v, v.samples - 1) * 96000 - c.stopHz * 0x1_0000_0000) <= 96000 * v.samples
  {
    hide Increment, StepOf, SampleCount, Duration;
    IncrementIsNearest(c.stopHz);
    var v := Calculate(c, 0).value;
    var m := v.samples - 1;
    IncrementRange(c.startHz);
    IncrementRange(c.stopHz);
    var delta := Increment(c.stopHz) - Increment(c.startHz);
    StepIsNearest(delta, m);
    assert IncrementAt(v, m) - Increment(c.stopHz) == m * v.step - delta;
    RampBetween(v.startInc, v.step, k, m);
  }
}
