/**
 The production PDM-to-PCM converter: bits transposed per channel, eight taps looked up at a time,
 a padded intermediate buffer and a folded second stage. Proved bit-exact against the direct form.
 */
module PdmDecimator {
  import opened MachineIntegers
  import opened Bits
  import opened Sums
  import opened FirCascade
  import opened Options
  import opened AudioLimits

  const CHANNELS := 16
  const PDM_SAMPLES := 120000
  const DECIMATION := 25
  const LUT_GROUPS := 9
  const CHANNEL_WORDS := PDM_SAMPLES / 32 + 2
  const STAGE1_MARGIN := (STAGE1_HALF + 4) / 5
  const STAGE1_CAPACITY := PDM_SAMPLES / 5 + 2 * STAGE1_MARGIN

  // ----- The recording: two 16-channel instants per little-endian word

  function Word(pdm: seq<uint8>, w: nat): uint32
    requires 4 * w + 4 <= |pdm|
  {
    var b0: int, b1: int, b2: int, b3: int := pdm[4 * w], pdm[4 * w + 1], pdm[4 * w + 2], pdm[4 * w + 3];
    b0 + 0x100 * b1 + 0x1_0000 * b2 + 0x100_0000 * b3
  }

  function Samples(pdm: seq<uint8>): nat {
    |pdm| / 4 * 2
  }

  function Instant(pdm: seq<uint8>, i: nat): uint16
    requires i < Samples(pdm)
  {
    if i % 2 != 0 then Word(pdm, i / 2) / 0x1_0000 else Word(pdm, i / 2) % 0x1_0000
  }

  /** An instant is two bytes of the recording, channels 0 to 7 and 8 to 15; 0 past the last whole word. */
  function ChannelBit(pdm: seq<uint8>, c: nat, i: nat): (b: nat)
    ensures b <= 1
  {
    if c < 16 && i < |pdm| / 4 * 2 then Bit(pdm[2 * i + c / 8], c % 8) else 0
  }

  /** Channel `c` as +1/-1 samples, extended with zeros at both ends. */
  ghost function Stream(pdm: seq<uint8>, c: nat): int -> int {
    (i: int) => if 0 <= i < |pdm| / 4 * 2 then (if ChannelBit(pdm, c, i) == 1 then 1 else -1) else 0
  }

  /** What the code reads of a word is the instant's two bytes. */
  lemma InstantIsTwoBytes(pdm: seq<uint8>, i: nat)
    requires i < Samples(pdm)
    ensures Instant(pdm, i) == pdm[2 * i] as int + 0x100 * pdm[2 * i + 1] as int
  {
  }

  lemma TwoBytesBit(low: uint8, high: uint8, c: nat)
    requires c < 16
    ensures Bit(low as int + 0x100 * high as int, c) == if c < 8 then Bit(low, c) else Bit(high, c - 8)
  {
    hide Bit, Shr;
    var n: nat := low as int + 0x100 * high as int;
    assert n / 0x100 == high && n % 0x100 == low;
    Pow2Of32();
    if c < 8 {
      LowBits(n, 8, c);
    } else {
      ShrBit(n, 8, c - 8);
      ShrIsDivision(n, 8);
    }
  }

  lemma LastBit(n: nat)
    ensures Bit(n, 0) == n % 2
  {
  }

  /** Bit `c` of the instant the code reads is the channel's bit of the recording. */
  lemma InstantBit(pdm: seq<uint8>, i: nat, c: nat)
    requires i < Samples(pdm)
    ensures Bit(Instant(pdm, i), c) == ChannelBit(pdm, c, i)
    ensures Shr(Instant(pdm, i), c) % 2 == ChannelBit(pdm, c, i)
  {
    hide Bit, Instant;
    InstantIsTwoBytes(pdm, i);
    if c < 16 {
      TwoBytesBit(pdm[2 * i], pdm[2 * i + 1], c);
    } else {
      assert Pow2(16) == 0x1_0000 by {
        Pow2Of32();
        Pow2Add(8, 8);
      }
      HighBitsZero(Instant(pdm, i), 16, c);
    }
    ShrBit(Instant(pdm, i), c, 0);
    LastBit(Shr(Instant(pdm, i), c));
  }

  /** The PCM value the direct form assigns to a frame of a channel. */
  ghost function DirectPcm(h1: HalfTable, h2: HalfTable, pdm: seq<uint8>, c: nat, frame: nat): int16 {
    AccumulatorToPcm16(Direct(h1, h2, Stream(pdm, c), frame))
  }

  predicate Accepted(pdm: seq<uint8>, capacity: nat) {
    && |pdm| != 0
    && |pdm| % 4 == 0
    && |pdm| <= ACQ_BYTES
    && Samples(pdm) % DECIMATION == 0
    && Samples(pdm) / DECIMATION * CHANNELS <= capacity
  }

  // ----- Lookup table

  /** The taps of group `group`, each signed by its bit of `bits`. */
  ghost function LutTerms(h1: HalfTable, group: nat, bits: nat): int -> int {
    (t: int) => if t < 8 * group then 0 else if Bit(bits, t - 8 * group) == 1 then Tap(h1, t) else -Tap(h1, t)
  }

  /** What the table stores for eight taps and eight bits. */
  ghost function LutValue(h1: HalfTable, group: nat, bits: nat): int {
    Between(LutTerms(h1, group, bits), 8 * group, 8 * group + 8)
  }

  lemma LutPartialBound(h1: HalfTable, group: nat, bits: nat, n: nat)
    ensures Abs(Between(LutTerms(h1, group, bits), 8 * group, 8 * group + n)) <= L1(h1)
  {
    var a, g := 8 * group, AbsTaps(h1);
    BetweenBound(LutTerms(h1, group, bits), g, a, a + n);
    SumSplit(a, n, g);
    WindowBound(h1, a, n);
  }

  /** One tap more: its coefficient with the sign its bit selects, and the sum still fits. */
  lemma LutStep(h1: HalfTable, group: nat, bits: nat, k: nat)
    requires L1(h1) <= INT32_MAX / 2
    ensures Abs(Tap(h1, group * 8 + k)) <= INT32_MAX
    ensures var sum := Between(LutTerms(h1, group, bits), 8 * group, 8 * group + k + 1);
      && -0x8000_0000 <= sum < 0x8000_0000
      && sum == Between(LutTerms(h1, group, bits), 8 * group, 8 * group + k)
                + (if Shr(bits, k) % 2 != 0 then Tap(h1, group * 8 + k) else -Tap(h1, group * 8 + k))
  {
    ShrBit(bits, k, 0);
    TapBound(h1, group * 8 + k);
    LutPartialBound(h1, group, bits, k + 1);
  }

  lemma LutTermIsStage1Term(h1: HalfTable, pdm: seq<uint8>, c: nat, center: int, group: nat, bits: nat, t: nat)
    requires center >= |h1| - 1 && center + (|h1| - 1) < Samples(pdm)
    requires 8 * group <= t && Bit(bits, t - 8 * group) == ChannelBit(pdm, c, center - (|h1| - 1) + t)
    ensures LutTerms(h1, group, bits)(t) == Stage1Terms(h1, Stream(pdm, c), center)(t)
  {
  }

  /** With its bits taken from the stream, a lookup is eight consecutive first-stage terms. */
  lemma LutIsTerms(h1: HalfTable, pdm: seq<uint8>, c: nat, center: int, group: nat, bits: nat)
    requires center >= |h1| - 1 && center + (|h1| - 1) < Samples(pdm)
    requires forall k :: 0 <= k < 8 ==> Bit(bits, k) == ChannelBit(pdm, c, center - (|h1| - 1) + 8 * group + k)
    ensures LutValue(h1, group, bits) == Groups(Stage1Terms(h1, Stream(pdm, c), center), 8)(group)
  {
    hide Bit, ChannelBit, Stream, Stage1Terms, LutTerms, Samples;
    var terms := Stage1Terms(h1, Stream(pdm, c), center);
    forall t | 8 * group <= t < 8 * group + 8 ensures LutTerms(h1, group, bits)(t) == terms(t) {
      var k := t - 8 * group;
      assert Bit(bits, k) == ChannelBit(pdm, c, center - (|h1| - 1) + 8 * group + k);
      LutTermIsStage1Term(h1, pdm, c, center, group, bits, t);
    }
    BetweenEqual(LutTerms(h1, group, bits), terms, 8 * group, 8 * group + 8);
  }

  /** The first `groups` lookups sum the first `8 * groups` taps, those past the 65th being zero. */
  lemma LookupPartial(h1: HalfTable, x: int -> int, center: int, groups: nat)
    requires |h1| == STAGE1_HALF + 1 && groups <= LUT_GROUPS
    ensures Sum(groups, Groups(Stage1Terms(h1, x, center), 8))
         == Sum(Min(8 * groups, Taps(h1)), Stage1Terms(h1, x, center))
  {
    TermsOutside(h1, x, center);
    GroupsOfFinite(8, groups, Taps(h1), Stage1Terms(h1, x, center));
  }

  lemma LookupPartialBound(h1: HalfTable, x: int -> int, center: int, groups: nat)
    requires |h1| == STAGE1_HALF + 1 && Ternary(x) && groups <= LUT_GROUPS
    ensures Abs(Sum(groups, Groups(Stage1Terms(h1, x, center), 8))) <= L1(h1)
  {
    LookupPartial(h1, x, center, groups);
    Stage1PartialBound(h1, x, center, Min(8 * groups, Taps(h1)));
  }

  /** What the edge loop adds for tap `t`. */
  lemma EdgeTerm(h1: HalfTable, pdm: seq<uint8>, c: nat, center: int, t: nat)
    requires |h1| == STAGE1_HALF + 1
    ensures Stage1Terms(h1, Stream(pdm, c), center)(t) == EdgeValue(Tap(h1, t), pdm, c, center - STAGE1_HALF + t)
  {
    SignedTerm(Tap(h1, t), pdm, c, center - STAGE1_HALF + t);
  }

  lemma SignedTerm(coefficient: int, pdm: seq<uint8>, c: nat, index: int)
    ensures coefficient * Stream(pdm, c)(index) == EdgeValue(coefficient, pdm, c, index)
  {
    if 0 <= index < Samples(pdm) {
      InstantBit(pdm, index, c);
    }
  }

  /** `+coefficient` for a one, `-coefficient` for a zero, nothing outside the recording. */
  function EdgeValue(coefficient: int, pdm: seq<uint8>, c: nat, index: int): int {
    if 0 <= index < Samples(pdm) then
      if Shr(Instant(pdm, index), c) % 2 != 0 then coefficient else -coefficient
    else 0
  }

  // ----- Edges

  /** Past the padding on either side the first stage sees no input at all. */
  lemma BeyondPadding(h1: HalfTable, pdm: seq<uint8>, c: nat, index: int)
    requires |h1| == STAGE1_HALF + 1
    requires index < -STAGE1_MARGIN || index * 5 >= Samples(pdm) + STAGE1_MARGIN * 5
    ensures Stage1(h1, Stream(pdm, c), 5 * index) == 0
  {
    var x := Stream(pdm, c);
    forall t | 0 <= t < Taps(h1) ensures Stage1Terms(h1, x, 5 * index)(t) == 0 {
      assert x(5 * index - (|h1| - 1) + t) == 0;
    }
    SumZero(Taps(h1), Stage1Terms(h1, x, 5 * index));
  }

  /** First-stage outputs relative to a centre. */
  ghost function Outputs(h1: HalfTable, x: int -> int, base: int): int -> int {
    (k: int) => Stage1(h1, x, 5 * (base + k))
  }

  lemma OutputsAt(h1: HalfTable, x: int -> int, base: int, k: int)
    ensures Outputs(h1, x, base)(k) == Stage1(h1, x, 5 * (base + k))
  {
  }

  lemma OutputsBound(h1: HalfTable, x: int -> int, base: int)
    requires Ternary(x)
    ensures forall k :: Abs(Outputs(h1, x, base)(k)) <= L1(h1)
  {
    forall k ensures Abs(Outputs(h1, x, base)(k)) <= L1(h1) {
      assert Outputs(h1, x, base)(k) == Stage1(h1, x, 5 * (base + k));
      Stage1PartialBound(h1, x, 5 * (base + k), Taps(h1));
    }
  }

  lemma FoldedIsCascade(h1: HalfTable, h2: HalfTable, x: int -> int, frame: int)
    ensures Folded(h2, Outputs(h1, x, 5 * frame), |h2| - 1) == Cascade(h1, h2, x, frame)
  {
    var y := Outputs(h1, x, 5 * frame);
    FoldedIsSum(h2, y);
    forall j | 0 <= j < Taps(h2) ensures WeightedTerms(h2, y)(j) == CascadeTerms(h1, h2, x, frame)(j) {
      assert y(j - (|h2| - 1)) == Stage1(h1, x, 5 * (5 * frame - (|h2| - 1) + j));
    }
    SumEqual(Taps(h2), WeightedTerms(h2, y), CascadeTerms(h1, h2, x, frame));
  }

  // ----- Bit transposition

  /** `words` holds the first `n` instants of channel `c`, least significant bit first. */
  ghost predicate Transposed(words: seq<uint32>, pdm: seq<uint8>, c: nat, n: nat) {
    forall w, b :: 0 <= w < |words| && 0 <= b < 32 ==>
      Bit(words[w], b) == if 32 * w + b < n then ChannelBit(pdm, c, 32 * w + b) else 0
  }

  lemma Pow2Of32()
    ensures Pow2(32) == 0x1_0000_0000 && Pow2(8) == 0x100
  {
    Pow2Add(8, 8);
    Pow2Add(16, 16);
    assert Pow2(8) == 0x100;
  }

  /** Or-ing one shifted bit into a word sets that bit and keeps the others. */
  lemma InsertBit(word: uint32, bit: nat, at: nat)
    requires bit <= 1 && at < 32 && Bit(word, at) == 0
    ensures 0 <= Or(word, Shl(bit, at)) < 0x1_0000_0000
    ensures forall b :: 0 <= b < 32 ==> Bit(Or(word, Shl(bit, at)), b) == if b == at then bit else Bit(word, b)
  {
    Pow2Of32();
    ShlBound(bit, 1, at);
    Pow2Monotone(1 + at, 32);
    OrBound(word, Shl(bit, at), 32);
    forall b | 0 <= b < 32 ensures Bit(Or(word, Shl(bit, at)), b) == if b == at then bit else Bit(word, b) {
      OrBit(word, Shl(bit, at), b);
      ShlBit(bit, at, b);
      if b > at {
        HighBitsZero(bit, 1, b - at);
      }
    }
  }

  /** An eight-bit window over two adjacent words reads eight consecutive transposed bits. */
  lemma WindowBits(lo: uint32, hi: uint32, s: nat, k: nat)
    requires s < 32 && k < 8
    ensures Bit(Shr(Or(Shl(hi, 32), lo), s) % 0x100, k) == if s + k < 32 then Bit(lo, s + k) else Bit(hi, s + k - 32)
  {
    var pair := Or(Shl(hi, 32), lo);
    Pow2Of32();
    LowBits(Shr(pair, s), 8, k);
    ShrBit(pair, s, k);
    OrBit(Shl(hi, 32), lo, s + k);
    ShlBit(hi, 32, s + k);
    if s + k >= 32 {
      HighBitsZero(lo, 32, s + k);
    }
  }

  // ----- Interleaved output

  /** Channels before `c`, and of channel `c` the frames before `frame`, hold the wanted samples. */
  ghost predicate Written(pcm: seq<int16>, frames: nat, c: nat, frame: nat, want: (int, int) -> int)
    requires frames * CHANNELS <= |pcm|
  {
    forall f, d :: 0 <= f < frames && 0 <= d < CHANNELS && (d < c || (d == c && f < frame)) ==>
      pcm[f * CHANNELS + d] == want(f, d)
  }

  lemma WrittenStep(before: seq<int16>, after: seq<int16>, frames: nat, c: nat, frame: nat, want: (int, int) -> int)
    requires frames * CHANNELS <= |before| == |after| && frame < frames && c < CHANNELS
    requires Written(before, frames, c, frame, want)
    requires after == before[frame * CHANNELS + c := after[frame * CHANNELS + c]]
    requires after[frame * CHANNELS + c] == want(frame, c)
    ensures Written(after, frames, c, frame + 1, want)
  {
  }

  ghost function WantedPcm(h1: HalfTable, h2: HalfTable, pdm: seq<uint8>): (int, int) -> int {
    (f: int, c: int) => if f >= 0 && c >= 0 then DirectPcm(h1, h2, pdm, c, f) as int else 0
  }

  // ----- The converter

  /** Rounding conversion in 64-bit arithmetic: no intermediate leaves the type. */
  method RoundToPcm16(value: int64) returns (r: int16)
    requires Abs(value) <= INT64_MAX - PCM_ROUND_HALF
    ensures r == AccumulatorToPcm16(value)
  {
    var scaled: int64;
    if value >= 0 {
      var biased: int64 := value + PCM_ROUND_HALF;
      scaled := TruncDiv(biased, PCM_DIVISOR);
    } else {
      var biased: int64 := -value + PCM_ROUND_HALF;
      scaled := -TruncDiv(biased, PCM_DIVISOR);
    }
    if scaled > INT16_MAX {
      return INT16_MAX;
    }
    if scaled < INT16_MIN {
      return INT16_MIN;
    }
    r := scaled;
  }

  class Decimator {
    const h1: HalfTable
    const h2: HalfTable
    const lut: array2<int32>
    const channelBits: array<uint32>
    const intermediate: array<int32>
    var lutReady: bool

    ghost predicate Valid()
    {
      && ValidTables(h1, h2)
      && lut.Length0 == LUT_GROUPS && lut.Length1 == 256
      && channelBits.Length == CHANNEL_WORDS
      && intermediate.Length == STAGE1_CAPACITY
      && channelBits as object != intermediate as object
    }

    /** Entries before (group, bits) in row order are correct. */
    ghost predicate LutBuilt(group: nat, bits: nat)
      requires lut.Length0 == LUT_GROUPS && lut.Length1 == 256
      reads lut
    {
      forall g, b :: 0 <= g < LUT_GROUPS && 0 <= b < 256 && (g < group || (g == group && b < bits)) ==>
        lut[g, b] == LutValue(h1, g, b)
    }

    constructor (h1: HalfTable, h2: HalfTable)
      requires ValidTables(h1, h2)
      ensures Valid() && LutInvariant() && !lutReady && this.h1 == h1 && this.h2 == h2
      ensures fresh(lut) && fresh(channelBits) && fresh(intermediate)
    {
      this.h1, this.h2 := h1, h2;
      lut := new int32[LUT_GROUPS, 256];
      channelBits := new uint32[CHANNEL_WORDS];
      intermediate := new int32[STAGE1_CAPACITY];
      lutReady := false;
    }

    /** Once `lutReady` is set the table holds every signed sum of eight taps. */
    ghost predicate LutInvariant()
      requires Valid()
      reads this, lut
    {
      lutReady ==> LutBuilt(LUT_GROUPS, 0)
    }

    method LutEntry(group: nat, bits: nat) returns (sum: int32)
      requires Valid()
      ensures sum == LutValue(h1, group, bits)
    {
      hide Tap, Shr, Sum, LutTerms;
      sum := 0;
      var k := 0;
      while k < 8
        invariant 0 <= k <= 8
        invariant sum == Between(LutTerms(h1, group, bits), 8 * group, 8 * group + k)
      {
        LutStep(h1, group, bits, k);
        var coefficient: int32 := Tap(h1, group * 8 + k);
        sum := sum + if Shr(bits, k) % 2 != 0 then coefficient else -coefficient;
        k := k + 1;
      }
    }

    method BuildRow(group: nat)
      requires Valid() && group < LUT_GROUPS && LutBuilt(group, 0)
      modifies lut
      ensures LutBuilt(group + 1, 0)
    {
      var bits := 0;
      while bits < 256
        invariant 0 <= bits <= 256
        invariant LutBuilt(group, bits)
      {
        var sum := LutEntry(group, bits);
        lut[group, bits] := sum;
        bits := bits + 1;
      }
    }

    method BuildLut()
      requires Valid()
      modifies this`lutReady, lut
      ensures lutReady && LutInvariant()
    {
      var group := 0;
      while group < LUT_GROUPS
        invariant 0 <= group <= LUT_GROUPS
        invariant LutBuilt(group, 0)
      {
        BuildRow(group);
        group := group + 1;
      }
      lutReady := true;
    }

    /** Gathers one channel's bits from all instants. */
    method Transpose(pdm: seq<uint8>, c: nat)
      requires Valid() && c < CHANNELS && |pdm| <= ACQ_BYTES
      modifies channelBits
      ensures Transposed(channelBits[..], pdm, c, Samples(pdm))
    {
      var i := 0;
      while i < CHANNEL_WORDS
        invariant 0 <= i <= CHANNEL_WORDS
        invariant forall w :: 0 <= w < i ==> channelBits[w] == 0
      {
        channelBits[i] := 0;
        i := i + 1;
      }
      forall b: nat ensures Bit(0, b) == 0 {
        BitOfZero(b);
      }
      var samples := Samples(pdm);
      i := 0;
      while i < samples
        invariant 0 <= i <= samples
        invariant Transposed(channelBits[..], pdm, c, i)
      {
        var word, at := i / 32, i % 32;
        InstantBit(pdm, i, c);
        var bit := Shr(Instant(pdm, i), c) % 2;
        ghost var before := channelBits[..];
        assert Bit(before[word], at) == 0;
        InsertBit(channelBits[word], bit, at);
        channelBits[word] := Or(channelBits[word], Shl(bit, at));
        TransposeStep(before, channelBits[..], pdm, c, i);
        i := i + 1;
      }
    }

    lemma TransposeStep(before: seq<uint32>, after: seq<uint32>, pdm: seq<uint8>, c: nat, i: nat)
      requires Transposed(before, pdm, c, i) && i / 32 < |before| == |after|
      requires forall w :: 0 <= w < |before| && w != i / 32 ==> after[w] == before[w]
      requires forall b :: 0 <= b < 32 ==>
        Bit(after[i / 32], b) == if b == i % 32 then ChannelBit(pdm, c, i) else Bit(before[i / 32], b)
      ensures Transposed(after, pdm, c, i + 1)
    {
      forall w, b | 0 <= w < |after| && 0 <= b < 32
        ensures Bit(after[w], b) == if 32 * w + b < i + 1 then ChannelBit(pdm, c, 32 * w + b) else 0
      {
        assert Bit(before[w], b) == if 32 * w + b < i then ChannelBit(pdm, c, 32 * w + b) else 0;
      }
    }

    /** Eight transposed bits starting at any bit index. */
    method Window(bitIndex: nat) returns (bits: nat)
      requires Valid() && bitIndex / 32 + 1 < CHANNEL_WORDS
      ensures bits < 256
      ensures forall k :: 0 <= k < 8 ==> Bit(bits, k) == Bit(channelBits[(bitIndex + k) / 32], (bitIndex + k) % 32)
    {
      var lo, hi := channelBits[bitIndex / 32], channelBits[bitIndex / 32 + 1];
      var pair := Or(Shl(hi, 32), lo);
      bits := Shr(pair, bitIndex % 32) % 0x100;
      forall k | 0 <= k < 8
        ensures Bit(bits, k) == Bit(channelBits[(bitIndex + k) / 32], (bitIndex + k) % 32)
      {
        WindowBits(lo, hi, bitIndex % 32, k);
        WindowIndex(bitIndex, k);
      }
    }

    lemma WindowIndex(bitIndex: nat, k: nat)
      requires k < 8
      ensures var s := bitIndex % 32 + k;
        && (bitIndex + k) / 32 == bitIndex / 32 + (if s < 32 then 0 else 1)
        && (bitIndex + k) % 32 == if s < 32 then s else s - 32
    {
    }

    /** The table entry selected by the transposed bits is the next eight first-stage terms. */
    method Lookup(pdm: seq<uint8>, center: int32, c: nat, group: nat) returns (value: int32)
      requires Valid() && LutBuilt(LUT_GROUPS, 0) && |pdm| <= ACQ_BYTES
      requires Transposed(channelBits[..], pdm, c, Samples(pdm))
      requires STAGE1_HALF <= center && center + STAGE1_HALF < Samples(pdm) && group < LUT_GROUPS
      ensures value == Groups(Stage1Terms(h1, Stream(pdm, c), center), 8)(group)
    {
      var start := center - STAGE1_HALF;
      var bits := Window(start + 8 * group);
      forall k | 0 <= k < 8
        ensures Bit(bits, k) == ChannelBit(pdm, c, center - (|h1| - 1) + 8 * group + k)
      {
        var at := start + 8 * group + k;
        assert Bit(channelBits[..][at / 32], at % 32) == if at < Samples(pdm) then ChannelBit(pdm, c, at) else 0;
      }
      LutIsTerms(h1, pdm, c, center, group, bits);
      value := lut[group, bits];
    }

    /** One first-stage output inside the recording: nine lookups. */
    method LookupSample(pdm: seq<uint8>, center: int32, c: nat, ghost groups: int -> int) returns (sum: int32)
      requires Valid() && LutBuilt(LUT_GROUPS, 0) && |pdm| <= ACQ_BYTES
      requires Transposed(channelBits[..], pdm, c, Samples(pdm))
      requires STAGE1_HALF <= center && center + STAGE1_HALF < Samples(pdm)
      requires groups == Groups(Stage1Terms(h1, Stream(pdm, c), center), 8)
      requires forall g :: 0 <= g <= LUT_GROUPS ==> Abs(Sum(g, groups)) <= INT32_MAX
      ensures sum == Sum(lut.Length0, groups)
    {
      sum := 0;
      var group := 0;
      while group < LUT_GROUPS
        invariant 0 <= group <= LUT_GROUPS
        invariant sum == Sum(group, groups)
      {
        var value := Lookup(pdm, center, c, group);
        assert Abs(Sum(group + 1, groups)) <= INT32_MAX;
        sum := sum + value;
        group := group + 1;
      }
    }

    lemma EdgeStep(pdm: seq<uint8>, center: int, c: nat, t: nat)
      requires Valid() && t < Taps(h1)
      ensures var terms := Stage1Terms(h1, Stream(pdm, c), center);
        && terms(t) == EdgeValue(Tap(h1, t), pdm, c, center - STAGE1_HALF + t)
        && Abs(Sum(t + 1, terms)) <= INT32_MAX
        && Abs(Tap(h1, t)) <= INT32_MAX
    {
      TapBound(h1, t);
      EdgeTerm(h1, pdm, c, center, t);
      Stage1PartialBound(h1, Stream(pdm, c), center, t + 1);
    }

    /** One first-stage output near an edge: tap by tap, skipping instants outside the recording. */
    method EdgeSample(pdm: seq<uint8>, center: int32, c: nat) returns (sum: int32)
      requires Valid()
      ensures sum == Stage1(h1, Stream(pdm, c), center)
    {
      hide Tap, Stream, Stage1Terms, Instant, Shr, LutValue;
      ghost var terms := Stage1Terms(h1, Stream(pdm, c), center);
      sum := 0;
      var t := 0;
      while t < 2 * STAGE1_HALF + 1
        invariant 0 <= t <= 2 * STAGE1_HALF + 1
        invariant sum == Sum(t, terms)
      {
        EdgeStep(pdm, center, c, t);
        var index := center - STAGE1_HALF + t;
        var coefficient: int32 := Tap(h1, t);
        if index >= 0 && index < Samples(pdm) {
          sum := sum + if Shr(Instant(pdm, index), c) % 2 != 0 then coefficient else -coefficient;
        }
        t := t + 1;
      }
    }

    method Stage1Sample(pdm: seq<uint8>, center: int32, c: nat) returns (sum: int32)
      requires Valid() && LutBuilt(LUT_GROUPS, 0) && c < CHANNELS && |pdm| <= ACQ_BYTES
      requires Transposed(channelBits[..], pdm, c, Samples(pdm))
      ensures sum == Stage1(h1, Stream(pdm, c), center)
    {
      if center >= STAGE1_HALF && center + STAGE1_HALF < Samples(pdm) {
        ghost var groups := Groups(Stage1Terms(h1, Stream(pdm, c), center), 8);
        forall g | 0 <= g <= LUT_GROUPS ensures Abs(Sum(g, groups)) <= INT32_MAX {
          LookupPartialBound(h1, Stream(pdm, c), center, g);
        }
        sum := LookupSample(pdm, center, c, groups);
        LookupPartial(h1, Stream(pdm, c), center, lut.Length0);
      } else {
        sum := EdgeSample(pdm, center, c);
      }
    }

    /** The first `n` padded first-stage outputs `y` are in place. */
    ghost predicate Filled(y: int -> int, n: nat)
      requires n <= intermediate.Length
      reads intermediate
    {
      forall i :: 0 <= i < n ==> intermediate[i] == y(i - STAGE1_MARGIN)
    }

    method PaddedSample(pdm: seq<uint8>, i: nat, c: nat) returns (v: int32)
      requires Valid() && LutBuilt(LUT_GROUPS, 0) && c < CHANNELS && |pdm| <= ACQ_BYTES && i < STAGE1_CAPACITY
      requires Transposed(channelBits[..], pdm, c, Samples(pdm))
      ensures v == Outputs(h1, Stream(pdm, c), 0)(i - STAGE1_MARGIN)
    {
      var center: int32 := (i - STAGE1_MARGIN) * 5;
      v := Stage1Sample(pdm, center, c);
      OutputsAt(h1, Stream(pdm, c), 0, i - STAGE1_MARGIN);
    }

    method FillIntermediate(pdm: seq<uint8>, c: nat, ghost y: int -> int)
      requires Valid() && LutBuilt(LUT_GROUPS, 0) && c < CHANNELS && Accepted(pdm, PDM_SAMPLES)
      requires Transposed(channelBits[..], pdm, c, Samples(pdm))
      requires y == Outputs(h1, Stream(pdm, c), 0)
      modifies intermediate
      ensures Filled(y, Samples(pdm) / 5 + 2 * STAGE1_MARGIN)
    {
      hide Outputs, Stream, LutValue, Transposed;
      var padded := Samples(pdm) / 5 + 2 * STAGE1_MARGIN;
      var i := 0;
      while i < padded
        invariant 0 <= i <= padded
        invariant Filled(y, i)
      {
        var v := PaddedSample(pdm, i, c);
        intermediate[i] := v;
        i := i + 1;
      }
    }

    function IntermediateAt(index: int, count: nat): int32
      requires count <= intermediate.Length
      reads intermediate
    {
      if index < 0 || index >= count then 0 else intermediate[index]
    }

    /** Entry `index` of the padded buffer, or zero outside it, is the first stage at its instant. */
    lemma IntermediateIsStage1(pdm: seq<uint8>, c: nat, count: nat, index: int)
      requires Valid() && Samples(pdm) % DECIMATION == 0
      requires count == Samples(pdm) / 5 + 2 * STAGE1_MARGIN <= intermediate.Length
      requires Filled(Outputs(h1, Stream(pdm, c), 0), count)
      ensures IntermediateAt(index, count) == Stage1(h1, Stream(pdm, c), 5 * (index - STAGE1_MARGIN))
    {
      hide Stream, Stage1, Tap;
      OutputsAt(h1, Stream(pdm, c), 0, index - STAGE1_MARGIN);
      if index < 0 || index >= count {
        BeyondPadding(h1, pdm, c, index - STAGE1_MARGIN);
      }
    }

    /** The buffer around `center` holds the outputs `y`, zero beyond its ends. */
    ghost predicate Holds(center: nat, count: nat, y: int -> int)
      requires count <= intermediate.Length
      reads intermediate
    {
      forall k :: IntermediateAt(center + k, count) == y(k)
    }

    method AccumulateInside(center: nat, count: nat, ghost y: int -> int, ghost bound: nat) returns (sum: int64)
      requires |h2| == STAGE2_HALF + 1 && Headroom(h2, y, bound)
      requires count <= intermediate.Length && Holds(center, count, y)
      requires center >= STAGE2_HALF && center + STAGE2_HALF < count
      ensures sum == Folded(h2, y, |h2| - 1)
    {
      assert IntermediateAt(center + 0, count) == y(0);
      FoldStep(h2, y, 0, bound, y(0) + y(0));
      var first: int := intermediate[center];
      sum := first * h2[0];
      var distance := 1;
      while distance <= STAGE2_HALF
        invariant 1 <= distance <= STAGE2_HALF + 1
        invariant sum == Folded(h2, y, distance - 1)
      {
        var left: int, right: int := intermediate[center - distance], intermediate[center + distance];
        assert left == IntermediateAt(center + (0 - distance), count) == y(0 - distance);
        assert right == IntermediateAt(center + distance, count) == y(distance);
        FoldStep(h2, y, distance, bound, left + right);
        var pair: int32 := left + right;
        sum := sum + pair * h2[distance];
        distance := distance + 1;
      }
    }

    method AccumulateEdge(center: nat, count: nat, ghost y: int -> int, ghost bound: nat) returns (sum: int64)
      requires |h2| == STAGE2_HALF + 1 && Headroom(h2, y, bound)
      requires center < count <= intermediate.Length && Holds(center, count, y)
      ensures sum == Folded(h2, y, |h2| - 1)
    {
      assert IntermediateAt(center + 0, count) == y(0);
      FoldStep(h2, y, 0, bound, y(0) + y(0));
      var first: int := intermediate[center];
      sum := first * h2[0];
      var distance := 1;
      while distance <= STAGE2_HALF
        invariant 1 <= distance <= STAGE2_HALF + 1
        invariant sum == Folded(h2, y, distance - 1)
      {
        var left: int, right: int := IntermediateAt(center - distance, count), IntermediateAt(center + distance, count);
        assert left == IntermediateAt(center + (0 - distance), count) == y(0 - distance);
        FoldStep(h2, y, distance, bound, left + right);
        var pair: int32 := left + right;
        sum := sum + pair * h2[distance];
        distance := distance + 1;
      }
    }

    lemma BufferHoldsOutputs(pdm: seq<uint8>, c: nat, frame: nat, count: nat)
      requires Valid() && |pdm| % 4 == 0 && Samples(pdm) % DECIMATION == 0
      requires count == Samples(pdm) / 5 + 2 * STAGE1_MARGIN <= intermediate.Length
      requires Filled(Outputs(h1, Stream(pdm, c), 0), count)
      ensures Holds(STAGE1_MARGIN + frame * 5, count, Outputs(h1, Stream(pdm, c), 5 * frame))
      ensures Headroom(h2, Outputs(h1, Stream(pdm, c), 5 * frame), L1(h1))
    {
      OutputsBound(h1, Stream(pdm, c), 5 * frame);
      forall k
        ensures IntermediateAt(STAGE1_MARGIN + frame * 5 + k, count) == Outputs(h1, Stream(pdm, c), 5 * frame)(k)
      {
        IntermediateIsStage1(pdm, c, count, STAGE1_MARGIN + frame * 5 + k);
        OutputsAt(h1, Stream(pdm, c), 5 * frame, k);
        assert 5 * (5 * frame + k) == 5 * (STAGE1_MARGIN + frame * 5 + k - STAGE1_MARGIN);
      }
    }

    /** The folded second stage rounds to the direct-form sample. */
    lemma FoldedIsDirectPcm(pdm: seq<uint8>, c: nat, frame: nat)
      ensures AccumulatorToPcm16(Folded(h2, Outputs(h1, Stream(pdm, c), 5 * frame), |h2| - 1))
           == DirectPcm(h1, h2, pdm, c, frame)
    {
      FoldedIsCascade(h1, h2, Stream(pdm, c), frame);
      CascadeIsDirect(h1, h2, Stream(pdm, c), frame);
    }

    /** One PCM sample: symmetric pairs folded before the multiplication. */
    method Stage2Sample(pdm: seq<uint8>, c: nat, frame: nat, count: nat) returns (pcm: int16)
      requires Valid() && |pdm| % 4 == 0 && Samples(pdm) % DECIMATION == 0
      requires count == Samples(pdm) / 5 + 2 * STAGE1_MARGIN <= intermediate.Length
      requires Filled(Outputs(h1, Stream(pdm, c), 0), count) && frame < Samples(pdm) / DECIMATION
      ensures pcm == DirectPcm(h1, h2, pdm, c, frame)
    {
      var center := STAGE1_MARGIN + frame * 5;
      ghost var y, bound := Outputs(h1, Stream(pdm, c), 5 * frame), L1(h1);
      BufferHoldsOutputs(pdm, c, frame, count);
      var sum: int64;
      if center >= STAGE2_HALF && center + STAGE2_HALF < count {
        sum := AccumulateInside(center, count, y, bound);
      } else {
        sum := AccumulateEdge(center, count, y, bound);
      }
      FoldStep(h2, y, |h2| - 1, bound, y(0 - (|h2| - 1)) + y(|h2| - 1));
      FoldedIsDirectPcm(pdm, c, frame);
      pcm := RoundToPcm16(sum);
    }

    method WriteChannel(pdm: seq<uint8>, pcm: array<int16>, c: nat, ghost want: (int, int) -> int)
      requires Valid() && Accepted(pdm, pcm.Length) && c < CHANNELS
      requires pcm as object != intermediate as object
      requires Filled(Outputs(h1, Stream(pdm, c), 0), Samples(pdm) / 5 + 2 * STAGE1_MARGIN)
      requires forall f :: 0 <= f < Samples(pdm) / DECIMATION ==> want(f, c) == DirectPcm(h1, h2, pdm, c, f)
      requires Written(pcm[..], Samples(pdm) / DECIMATION, c, 0, want)
      modifies pcm
      ensures Written(pcm[..], Samples(pdm) / DECIMATION, c + 1, 0, want)
      ensures forall i :: Samples(pdm) / DECIMATION * CHANNELS <= i < pcm.Length ==> pcm[i] == old(pcm[i])
    {
      ghost var y := Outputs(h1, Stream(pdm, c), 0);
      var frames, padded := Samples(pdm) / DECIMATION, Samples(pdm) / 5 + 2 * STAGE1_MARGIN;
      var frame := 0;
      while frame < frames
        invariant 0 <= frame <= frames
        invariant Filled(y, padded)
        invariant Written(pcm[..], frames, c, frame, want)
        invariant forall i :: frames * CHANNELS <= i < pcm.Length ==> pcm[i] == old(pcm[i])
      {
        ghost var before := pcm[..];
        var v := Stage2Sample(pdm, c, frame, padded);
        pcm[frame * CHANNELS + c] := v;
        WrittenStep(before, pcm[..], frames, c, frame, want);
        frame := frame + 1;
      }
    }

    /**
     Converts a whole recording. Rejected input leaves the output untouched; accepted input gives, for
     every channel and frame, the direct-form sample.
     */
    method ToPcm16Interleaved(pdm: seq<uint8>, pcm: array<int16>, capacity: nat) returns (frames: Option<nat>)
      requires Valid() && LutInvariant() && capacity <= pcm.Length
      requires pcm as object !in {lut as object, channelBits as object, intermediate as object}
      modifies this`lutReady, lut, channelBits, intermediate, pcm
      ensures LutInvariant()
      ensures frames.Some? <==>
        && 0 < |pdm| <= 240000 && |pdm| % 4 == 0 && |pdm| / 2 % 25 == 0 && |pdm| / 50 * 16 <= capacity
      ensures frames.None? ==> pcm[..] == old(pcm[..])
      ensures frames.Some? ==> frames.value == |pdm| / 50
      ensures frames.Some? ==> forall f, c :: 0 <= f < frames.value && 0 <= c < 16 ==>
        pcm[f * 16 + c] == DirectPcm(h1, h2, pdm, c, f)
      ensures frames.Some? ==> forall i :: frames.value * 16 <= i < pcm.Length ==> pcm[i] == old(pcm[i])
    {
      AcceptedExactly(pdm, capacity);
      if !Accepted(pdm, capacity) {
        return None;
      }
      hide Accepted, DirectPcm;
      var n := ConvertAll(pdm, pcm, capacity);
      return Some(n);
    }

    static lemma AcceptedExactly(pdm: seq<uint8>, capacity: nat)
      ensures Accepted(pdm, capacity) <==>
        && 0 < |pdm| <= 240000 && |pdm| % 4 == 0 && |pdm| / 2 % 25 == 0 && |pdm| / 50 * 16 <= capacity
      ensures Accepted(pdm, capacity) ==> Samples(pdm) / DECIMATION == |pdm| / 50
    {
    }

    method ConvertAll(pdm: seq<uint8>, pcm: array<int16>, ghost capacity: nat) returns (n: nat)
      requires Valid() && LutInvariant() && Accepted(pdm, capacity) && capacity <= pcm.Length
      requires pcm as object !in {lut as object, channelBits as object, intermediate as object}
      modifies this`lutReady, lut, channelBits, intermediate, pcm
      ensures LutInvariant() && n == Samples(pdm) / DECIMATION && n * CHANNELS <= pcm.Length
      ensures forall f, c :: 0 <= f < n && 0 <= c < CHANNELS ==> pcm[f * CHANNELS + c] == DirectPcm(h1, h2, pdm, c, f)
      ensures forall i :: n * CHANNELS <= i < pcm.Length ==> pcm[i] == old(pcm[i])
    {
      n := Samples(pdm) / DECIMATION;
      if !lutReady {
        BuildLut();
      }
      ghost var want := WantedPcm(h1, h2, pdm);
      var c := 0;
      while c < CHANNELS
        invariant 0 <= c <= CHANNELS
        invariant lutReady && LutInvariant()
        invariant Written(pcm[..], n, c, 0, want)
        invariant forall i :: n * CHANNELS <= i < pcm.Length ==> pcm[i] == old(pcm[i])
      {
        Transpose(pdm, c);
        FillIntermediate(pdm, c, Outputs(h1, Stream(pdm, c), 0));
        WriteChannel(pdm, pcm, c, want);
        c := c + 1;
      }
      forall f, d | 0 <= f < n && 0 <= d < CHANNELS
        ensures pcm[f * CHANNELS + d] == DirectPcm(h1, h2, pdm, d, f)
      {
        assert pcm[..][f * CHANNELS + d] == want(f, d);
      }
    }
  }

  // ----- The reference implementation kept for test builds

  /** A stored half table of the effective response. */
  ghost predicate IsReferenceTable(table: seq<int64>, h1: HalfTable, h2: HalfTable) {
    && |table| == EFFECTIVE_HALF + 1
    && forall d :: 0 <= d <= EFFECTIVE_HALF ==> table[d] == Effective(h1, h2, EFFECTIVE_HALF + d)
  }

  /** Mirroring the stored half table gives the whole effective response. */
  lemma ReferenceTap(table: seq<int64>, h1: HalfTable, h2: HalfTable, t: nat)
    requires ValidTables(h1, h2) && IsReferenceTable(table, h1, h2) && t <= 2 * EFFECTIVE_HALF
    ensures table[Abs(t - EFFECTIVE_HALF)] == Effective(h1, h2, t)
  {
    if t < EFFECTIVE_HALF {
      EffectiveSymmetric(h1, h2, t);
    }
  }

  /** Term `t` is what the reference loop adds for it, and neither it nor the sum so far overflows. */
  ghost predicate Matches(table: seq<int64>, pdm: seq<uint8>, c: nat, center: nat, terms: int -> int, t: nat)
    requires |table| == EFFECTIVE_HALF + 1 && t <= 2 * EFFECTIVE_HALF
  {
    && terms(t) == EdgeValue(table[Abs(t - EFFECTIVE_HALF)], pdm, c, center - EFFECTIVE_HALF + t)
    && Abs(Sum(t + 1, terms)) <= INT64_MAX - PCM_ROUND_HALF
    && Abs(table[Abs(t - EFFECTIVE_HALF)]) <= INT64_MAX
  }

  /** The signed sum the reference loop forms, for any terms it is told to match. */
  method SignedSum(table: seq<int64>, pdm: seq<uint8>, c: nat, center: nat, ghost terms: int -> int)
      returns (sum: int64)
    requires |table| == EFFECTIVE_HALF + 1
    requires forall t :: 0 <= t <= 2 * EFFECTIVE_HALF ==> Matches(table, pdm, c, center, terms, t)
    ensures sum == Sum(2 * |table| - 1, terms) && Abs(sum) <= INT64_MAX - PCM_ROUND_HALF
  {
    sum := 0;
    var t := 0;
    while t < 2 * EFFECTIVE_HALF + 1
      invariant 0 <= t <= 2 * EFFECTIVE_HALF + 1
      invariant sum == Sum(t, terms) && Abs(sum) <= INT64_MAX - PCM_ROUND_HALF
    {
      var index := center - EFFECTIVE_HALF + t;
      assert Matches(table, pdm, c, center, terms, t);
      if index >= 0 && index < Samples(pdm) {
        var coefficient := table[Abs(t - EFFECTIVE_HALF)];
        sum := sum + if Shr(Instant(pdm, index), c) % 2 != 0 then coefficient else -coefficient;
      }
      t := t + 1;
    }
  }

  lemma ReferenceTerms(table: seq<int64>, h1: HalfTable, h2: HalfTable, pdm: seq<uint8>, c: nat, frame: nat, t: nat)
    requires ValidTables(h1, h2) && IsReferenceTable(table, h1, h2) && t <= 2 * EFFECTIVE_HALF
    ensures Matches(table, pdm, c, frame * DECIMATION, DirectTerms(h1, h2, Stream(pdm, c), frame), t)
  {
    DirectPartialBound(h1, h2, Stream(pdm, c), frame, t + 1);
    EffectiveTapBound(h1, h2, t);
    ReferenceTap(table, h1, h2, t);
    SignedTerm(Effective(h1, h2, t), pdm, c, frame * DECIMATION - EFFECTIVE_HALF + t);
  }

  /** The direct-form loop over the stored half table computes the same sample the converter must. */
  method ReferenceSample(table: seq<int64>, ghost h1: HalfTable, ghost h2: HalfTable, pdm: seq<uint8>, frame: nat,
                         c: nat)
      returns (pcm: int16)
    requires ValidTables(h1, h2) && IsReferenceTable(table, h1, h2) && |pdm| % 4 == 0
    ensures pcm == if Samples(pdm) == 0 || Samples(pdm) > PDM_SAMPLES || c >= CHANNELS
                      || frame >= Samples(pdm) / DECIMATION
                   then 0 else DirectPcm(h1, h2, pdm, c, frame)
  {
    var samples := Samples(pdm);
    if samples == 0 || samples > PDM_SAMPLES || c >= CHANNELS || frame >= samples / DECIMATION {
      return 0;
    }
    ghost var terms := DirectTerms(h1, h2, Stream(pdm, c), frame);
    forall t | 0 <= t <= 2 * EFFECTIVE_HALF
      ensures Matches(table, pdm, c, frame * DECIMATION, terms, t)
    {
      ReferenceTerms(table, h1, h2, pdm, c, frame, t);
    }
    var sum := SignedSum(table, pdm, c, frame * DECIMATION, terms);
    pcm := RoundToPcm16(sum);
  }
}
