/**
 The playback memory. Each word keeps the uploaded sample in its upper half and the amplitude-scaled
 copy that is played in its lower half, so the gain can change without a new upload.
 */
module TxBram {
  import opened MachineIntegers
  import opened AudioLimits

  function Upper(word: uint32): uint16 {
    word / 0x1_0000
  }

  function Lower(word: uint32): uint16 {
    word % 0x1_0000
  }

  function Pack(upper: uint16, lower: uint16): (w: uint32)
    ensures Upper(w) == upper && Lower(w) == lower
  {
    upper * 0x1_0000 + lower
  }

  /** The unsigned pattern of a sample, and back. */
  function Pattern(pcm: int16): uint16 {
    if pcm < 0 then pcm + 0x1_0000 else pcm
  }

  function Signed16(pattern: uint16): int16 {
    if pattern >= 0x8000 then pattern - 0x1_0000 else pattern
  }

  /** A percentage product rounded to the nearest integer, ties away from zero. */
  function RoundPercent(product: int): int {
    if product >= 0 then (product + 50) / 100 else -((-product + 50) / 100)
  }

  function ScaledSample(pcm: int16, percent: nat): int16
    requires percent <= 100
  {
    ProductBetween(pcm, percent);
    var product: int := pcm * percent;
    RoundPercent(product)
  }

  lemma ProductBetween(pcm: int, percent: nat)
    requires percent <= 100
    ensures pcm >= 0 ==> 0 <= pcm * percent <= 100 * pcm
    ensures pcm <= 0 ==> 100 * pcm <= pcm * percent <= 0
  {
    if pcm >= 0 {
      ProductMonotone(pcm, 0, percent);
      ProductMonotone(pcm, percent, 100);
    } else {
      ProductMonotone(-pcm, 0, percent);
      ProductMonotone(-pcm, percent, 100);
      assert -pcm * percent == -(pcm * percent);
    }
  }

  /** Nearest to `percent` of the sample, ties away from zero; never louder, never a sign change. */
  lemma ScalingRounds(pcm: int16, percent: nat)
    requires percent <= 100
    ensures var r: int, product: int := ScaledSample(pcm, percent), pcm * percent;
      && 2 * Abs(product - 100 * r) <= 100
      && (2 * Abs(product - 100 * r) == 100 ==> Abs(100 * r) > Abs(product))
      && Abs(r) <= Abs(pcm)
      && (r == 0 || (r < 0 <==> pcm < 0))
      && (percent == 100 ==> r == pcm)
      && (percent == 0 ==> r == 0)
  {
    ProductBetween(pcm, percent);
  }

  function ScaledPattern(original: uint16, percent: nat): uint16
    requires percent <= 100
  {
    Pattern(ScaledSample(Signed16(original), percent))
  }

  class Bram {
    /** Usable samples: the smaller of the physical depth and the longest transmission. */
    const capacity: nat
    const words: array<uint32>
    var initialized: bool

    ghost predicate Valid() {
      0 < capacity <= TX_MAX_SAMPLES && words.Length == capacity
    }

    constructor (capacity: nat)
      requires 0 < capacity <= TX_MAX_SAMPLES
      ensures Valid() && !initialized && this.capacity == capacity && fresh(words)
    {
      this.capacity := capacity;
      words := new uint32[capacity];
      initialized := false;
    }

    method Init() returns (ok: bool)
      requires Valid()
      modifies this`initialized
      ensures ok && initialized
    {
      initialized := true;
      ok := true;
    }

    /** Stores two samples at index `2 * pair`, each at full amplitude; nothing unless playback is idle. */
    method Write(pair: nat, first: uint16, second: uint16, idle: bool) returns (ok: bool)
      requires Valid()
      modifies words
      ensures ok == (initialized && pair < (capacity + 1) / 2 && idle)
      ensures !ok ==> words[..] == old(words[..])
      ensures ok ==> words[2 * pair] == Pack(first, first)
      ensures ok && 2 * pair + 1 < capacity ==> words[2 * pair + 1] == Pack(second, second)
      ensures forall i :: 0 <= i < capacity && i / 2 != pair ==> words[i] == old(words[i])
    {
      if !initialized || pair >= (capacity + 1) / 2 || !idle {
        return false;
      }
      words[2 * pair] := Pack(first, first);
      if pair * 2 + 1 < capacity {
        words[2 * pair + 1] := Pack(second, second);
      }
      return true;
    }

    /** Rescales the first `samples` played copies from their originals. */
    method SetGain(samples: nat, percent: nat, idle: bool) returns (ok: bool)
      requires Valid()
      modifies words
      ensures ok == (initialized && 0 < samples <= capacity && percent <= 100 && idle)
      ensures !ok ==> words[..] == old(words[..])
      ensures forall i :: 0 <= i < capacity ==> Upper(words[i]) == Upper(old(words[i]))
      ensures ok ==> forall i :: 0 <= i < samples ==> Lower(words[i]) == ScaledPattern(Upper(old(words[i])), percent)
      ensures forall i :: samples <= i < capacity ==> words[i] == old(words[i])
    {
      if !initialized || samples == 0 || samples > capacity || percent > 100 || !idle {
        return false;
      }
      var i := 0;
      while i < samples
        invariant 0 <= i <= samples
        invariant forall k :: 0 <= k < i ==>
          words[k] == Pack(Upper(old(words[k])), ScaledPattern(Upper(old(words[k])), percent))
        invariant forall k :: i <= k < capacity ==> words[k] == old(words[k])
      {
        var original := Upper(words[i]);
        words[i] := Pack(original, ScaledPattern(original, percent));
        i := i + 1;
      }
      return true;
    }
  }
}
