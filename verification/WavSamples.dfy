/**
 Converting one WAV sample to 16-bit PCM. Float samples are IEEE 754 binary32 (section 3.4) decoded with
 integers only; the lemmas relate that decoding to the real number the bits denote.
 */
module WavSamples {
  import opened MachineIntegers
  import opened LittleEndian
  import opened Options

  /** What the format chunk fixes about every sample. */
  datatype FormatFields = Format(encoding: nat, channels: nat, bits: nat, block: nat)

  /** The formats the board can play. */
  type Format = f: FormatFields | Supported(f) witness Format(1, 1, 8, 1)

  predicate Supported(f: FormatFields) {
    && (f.channels == 1 || f.channels == 2)
    && (f.encoding == 1 || f.encoding == 3)
    && (f.bits == 8 || f.bits == 16 || f.bits == 24 || f.bits == 32)
    && (f.encoding == 3 ==> f.bits == 32)
    && f.block == (if f.channels == 1 then f.bits / 8 else 2 * (f.bits / 8))
  }

  // ----- binary32

  function Exponent(raw: uint32): nat {
    raw / 0x80_0000 % 0x100
  }

  function Fraction(raw: uint32): nat {
    raw % 0x80_0000
  }

  predicate Negative(raw: uint32) {
    raw >= 0x8000_0000
  }

  predicate NanOrInfinity(raw: uint32) {
    Exponent(raw) == 255
  }

  function DecodeFloat(raw: uint32): Option<int> {
    if NanOrInfinity(raw) then None
    else
      var magnitude := raw % 0x8000_0000;
      if magnitude >= 0x3F80_0000 then
        Some(if Negative(raw) then INT16_MIN else INT16_MAX)
      else
        var exponent := magnitude / 0x80_0000;
        var pcm := if exponent < 112 then 0 else (magnitude % 0x80_0000 + 0x80_0000) / Pow2(135 - exponent);
        Some(if Negative(raw) then -pcm else pcm)
  }

  /** m * 2^k. */
  ghost function Scaled(m: nat, k: int): real {
    if k >= 0 then (m * Pow2(k)) as real else m as real / Pow2(-k) as real
  }

  /** The magnitude of the real number a finite binary32 pattern denotes. */
  ghost function FloatMagnitude(raw: uint32): real
    requires !NanOrInfinity(raw)
  {
    if Exponent(raw) == 0 then Scaled(Fraction(raw), -149)
    else Scaled(0x80_0000 + Fraction(raw), Exponent(raw) - 150)
  }

  ghost function FloatValue(raw: uint32): real
    requires !NanOrInfinity(raw)
  {
    if raw / 0x8000_0000 == 1 then -FloatMagnitude(raw) else FloatMagnitude(raw)
  }

  ghost function TruncateReal(x: real): int {
    if x >= 0.0 then x.Floor else -((-x).Floor)
  }

  function Saturate16(x: int): int16 {
    if x > INT16_MAX then INT16_MAX else if x < INT16_MIN then INT16_MIN else x
  }

  lemma RealProduct(a: nat, b: nat)
    ensures (a * b) as real == a as real * b as real
  {
  }

  lemma RealDivide(m: real, a: real, b: real)
    requires a > 0.0 && b > 0.0
    ensures m / (a * b) * a == m / b
  {
    var q := m / (a * b);
    assert q * (a * b) == m;
    assert q * a * b == m;
  }

  /** Cross-multiplied quotients are equal. */
  lemma RealQuotient(m: real, a: real, b: real, c: real)
    requires a > 0.0 && a * b == c
    ensures m / a * c == m * b
  {
    var q := m / a;
    assert q * a == m;
    assert q * (a * b) == (q * a) * b;
  }

  /** Multiplying by 2^15 adds 15 to the exponent. */
  lemma ScaledShift(m: nat, k: int)
    ensures Scaled(m, k) * 32768.0 == Scaled(m, k + 15)
  {
    if k >= 0 {
      ScaledShiftUp(m, k);
    } else if k + 15 >= 0 {
      ScaledShiftAcross(m, -k);
    } else {
      ScaledShiftDown(m, -k - 15);
    }
  }

  lemma ScaledShiftAcross(m: nat, j: nat)
    requires 0 < j <= 15
    ensures m as real / Pow2(j) as real * 32768.0 == (m * Pow2(15 - j)) as real
  {
    assert Pow2(15) == 32768;
    Pow2Add(j, 15 - j);
    QuotientTimesProduct(m, Pow2(j), Pow2(15 - j));
  }

  lemma QuotientTimesProduct(m: nat, a: nat, b: nat)
    requires a > 0
    ensures m as real / a as real * (a * b) as real == (m * b) as real
  {
    RealProduct(a, b);
    RealProduct(m, b);
    RealQuotient(m as real, a as real, b as real, (a * b) as real);
  }

  lemma ScaledShiftDown(m: nat, j: nat)
    ensures m as real / Pow2(j + 15) as real * 32768.0 == m as real / Pow2(j) as real
  {
    var b := Pow2(j);
    Pow2Add(15, j);
    assert Pow2(j + 15) == 32768 * b by { assert Pow2(15) == 32768; }
    RealProduct(32768, b);
    RealDivide(m as real, 32768.0, b as real);
  }

  lemma ScaledShiftUp(m: nat, k: nat)
    ensures (m * Pow2(k)) as real * 32768.0 == (m * Pow2(k + 15)) as real
  {
    assert Pow2(15) == 32768;
    Pow2Add(k, 15);
    var p := Pow2(k);
    assert m * (p * 32768) == (m * p) * 32768;
    RealProduct(m * p, 32768);
  }

  lemma RealQuotientBounds(m: real, d: real, low: real, high: real)
    requires d > 0.0 && low * d <= m < high * d
    ensures low <= m / d < high
  {
    var x := m / d;
    assert x * d == m;
  }

  /** The floor of a quotient of naturals is their integer quotient. */
  lemma FloorOfQuotient(m: nat, d: nat)
    requires d > 0
    ensures (m as real / d as real).Floor == m / d
  {
    var q := m / d;
    assert q * d <= m < (q + 1) * d;
    RealProduct(q, d);
    RealProduct(q + 1, d);
    RealQuotientBounds(m as real, d as real, q as real, (q + 1) as real);
  }

  lemma ScaledNonNegative(m: nat, k: int)
    ensures Scaled(m, k) >= 0.0
  {
    if k < 0 {
      var x := m as real / Pow2(-k) as real;
      assert x * Pow2(-k) as real == m as real;
    }
  }

  /** Truncating m * 2^k: a multiple when k >= 0, a shift right otherwise. */
  lemma ScaledFloor(m: nat, k: int)
    ensures Scaled(m, k).Floor == if k >= 0 then m * Pow2(k) else m / Pow2(-k)
  {
    if k < 0 {
      FloorOfQuotient(m, Pow2(-k));
    }
  }

  lemma Fields(raw: uint32)
    ensures var magnitude := raw % 0x8000_0000;
      && magnitude == Exponent(raw) * 0x80_0000 + Fraction(raw)
      && magnitude / 0x80_0000 == Exponent(raw)
      && magnitude % 0x80_0000 == Fraction(raw)
      && (magnitude >= 0x3F80_0000 <==> Exponent(raw) >= 127)
  {
  }

  lemma FloatFloor(raw: uint32)
    requires !NanOrInfinity(raw)
    ensures var x := FloatMagnitude(raw) * 32768.0;
      && x >= 0.0
      && (Exponent(raw) >= 127 ==> x.Floor >= 32768)
      && (112 <= Exponent(raw) < 127 ==> x.Floor == (0x80_0000 + Fraction(raw)) / Pow2(135 - Exponent(raw)))
      && (Exponent(raw) < 112 ==> x.Floor == 0)
  {
    var e: int := Exponent(raw);
    var m := if e == 0 then Fraction(raw) else 0x80_0000 + Fraction(raw);
    var k: int := if e == 0 then -149 else e - 150;
    assert FloatMagnitude(raw) == Scaled(m, k);
    ScaledShift(m, k);
    ScaledNonNegative(m, k + 15);
    ScaledFloor(m, k + 15);
    if e >= 135 {
      ProductAtLeast(m, Pow2(e - 135));
    } else if e >= 127 {
      Pow2Monotone(135 - e, 8);
      assert Pow2(8) == 256;
      QuotientAtLeast(m, Pow2(135 - e));
    } else if e < 112 {
      Pow2Monotone(24, -(k + 15));
      assert Pow2(24) == 0x100_0000 by { Pow2Add(12, 12); assert Pow2(12) == 0x1000; }
      QuotientZero(m, Pow2(-(k + 15)));
    }
  }

  lemma ProductAtLeast(m: nat, p: nat)
    requires m >= 0x80_0000 && p >= 1
    ensures m * p >= 32768
  {
    assert m * p == m + m * (p - 1);
    assert m * (p - 1) >= 0;
  }

  lemma QuotientAtLeast(m: nat, d: nat)
    requires m >= 0x80_0000 && 1 <= d <= 256
    ensures m / d >= 32768
  {
  }

  lemma QuotientZero(m: nat, d: nat)
    requires m < d
    ensures m / d == 0
  {
  }

  /** The integer decoding truncates x * 32768 toward zero and saturates, for every finite pattern. */
  lemma FloatDecodeIsTruncation(raw: uint32)
    requires !NanOrInfinity(raw)
    ensures DecodeFloat(raw) == Some(Saturate16(TruncateReal(FloatValue(raw) * 32768.0)) as int)
  {
    hide Scaled, FloatMagnitude, Exponent, Fraction;
    Fields(raw);
    FloatFloor(raw);
    var x := FloatMagnitude(raw) * 32768.0;
    if Negative(raw) {
      assert FloatValue(raw) * 32768.0 == -x;
      assert TruncateReal(-x) == -x.Floor;
    } else {
      assert FloatValue(raw) * 32768.0 == x;
    }
    var e := Exponent(raw);
    if 112 <= e < 127 {
      Pow2Monotone(9, 135 - e);
      assert Pow2(9) == 512;
      QuotientBelow(0x80_0000 + Fraction(raw), Pow2(135 - e));
    }
  }

  lemma QuotientBelow(m: nat, d: nat)
    requires m < 0x100_0000 && d >= 512
    ensures m / d < 32768
  {
  }

  // ----- Integer PCM and mixing

  /** Two's complement value of a `bits`-wide pattern. */
  function Signed(raw: nat, bits: nat): int
    requires bits >= 1
  {
    if raw / Pow2(bits - 1) % 2 != 0 then raw - Pow2(bits) else raw
  }

  function DecodeSample(f: Format, bytes: seq<uint8>): Option<int>
    requires |bytes| == f.bits / 8
  {
    var raw := Little(bytes);
    LittleBound(bytes);
    Pow2Values();
    if f.encoding == 3 then DecodeFloat(raw)
    else if f.bits == 8 then Some((raw - 128) * 256)
    else Some(TruncDiv(Signed(raw, f.bits), Pow2(f.bits - 16)))
  }

  /** A wide sample keeps its sign and loses only a fraction. */
  ghost predicate TruncatedFrom(v: int, s: int, d: nat) {
    Abs(v) * d <= Abs(s) < (Abs(v) + 1) * d && (v == 0 || (v < 0 <==> s < 0))
  }

  lemma TruncDivTruncates(s: int, d: nat)
    requires d > 0
    ensures TruncatedFrom(TruncDiv(s, d), s, d)
    ensures -(0x8000 * d) <= s < 0x8000 * d ==> INT16_MIN <= TruncDiv(s, d) <= INT16_MAX
  {
    var m := Abs(s);
    var q := m / d;
    DivBounds(m, d);
    ProductOrder(m, d, q, 0x8000);
    ProductOrder(m, d, q, 0);
    TruncDivMagnitude(s, d);
    assert (q + 1) * d == d * q + d;
  }

  lemma TruncDivMagnitude(s: int, d: nat)
    requires d > 0
    ensures Abs(TruncDiv(s, d)) == Abs(s) / d
    ensures s >= 0 ==> TruncDiv(s, d) >= 0
    ensures s <= 0 ==> TruncDiv(s, d) <= 0
  {
    DivBounds(Abs(s), d);
  }

  /** The integers that a pattern of `2 * half` values may stand for in two's complement: exactly one. */
  predicate Denotes(v: int, raw: nat, half: int)
    requires half > 0
  {
    -half <= v < half && (v - raw) % (2 * half) == 0
  }

  lemma OneInteger(v: int, w: int, raw: nat, half: int)
    requires half > 0 && Denotes(v, raw, half) && Denotes(w, raw, half)
    ensures v == w
  {
    var n := 2 * half;
    var q, p := (v - raw) / n, (w - raw) / n;
    assert v - w == n * (q - p);
    if q - p >= 1 {
      ProductOrder(n * (q - p), n, q - p, 1);
    } else if q - p <= -1 {
      ProductOrder(n * (p - q), n, p - q, 1);
    }
  }

  /** Every pattern stands for the integer it is decoded to. */
  lemma SignedDenotes(raw: nat, bits: nat)
    requires bits >= 1 && raw < Pow2(bits)
    ensures Denotes(Signed(raw, bits), raw, Pow2(bits - 1))
  {
    var half := Pow2(bits - 1);
    assert Pow2(bits) == 2 * half;
    TopBit(raw, half);
  }

  lemma TopBit(raw: nat, half: nat)
    requires half > 0 && raw < 2 * half
    ensures raw / half % 2 == if raw >= half then 1 else 0
    ensures (-(2 * half)) % (2 * half) == 0 && 0 % (2 * half) == 0
  {
    var n: int := 2 * half;
    QuotientUnique(raw, half, if raw >= half then 1 else 0, if raw >= half then raw - half else raw);
    QuotientUnique(n * -1, n, -1, 0);
    QuotientUnique(0, n, 0, 0);
  }

  lemma WideHalf(bits: nat)
    requires bits in {16, 24, 32}
    ensures Pow2(bits - 1) == 0x8000 * Pow2(bits - 16)
  {
    Pow2Values();
  }

  /**
   The PCM16 meaning of an integer sample: of the integer its bytes stand for, the top sixteen bits with the fraction
   dropped toward zero. Bytes of 8-bit samples are offset by 128 instead.
   */
  lemma PcmSampleMeaning(f: Format, bytes: seq<uint8>, v: int)
    requires |bytes| == f.bits / 8 && f.encoding == 1
    requires f.bits > 8 ==> Denotes(v, Little(bytes), Pow2(f.bits - 1))
    ensures DecodeSample(f, bytes).Some?
    ensures INT16_MIN <= DecodeSample(f, bytes).value <= INT16_MAX
    ensures f.bits == 8 ==> DecodeSample(f, bytes).value == 256 * (bytes[0] as int - 128)
    ensures f.bits > 8 ==> TruncatedFrom(DecodeSample(f, bytes).value, v, Pow2(f.bits - 16))
  {
    if f.bits == 8 {
      assert bytes[1..] == [];
      assert Little(bytes) == bytes[0];
    } else {
      assert 8 * |bytes| == f.bits;
      LittleBound(bytes);
      SignedDenotes(Little(bytes), f.bits);
      OneInteger(v, Signed(Little(bytes), f.bits), Little(bytes), Pow2(f.bits - 1));
      WideSample(f, bytes, v, Pow2(f.bits - 16));
    }
  }

  /** Every integer sample stands for some integer, whatever its bytes. */
  lemma SomeInteger(f: Format, bytes: seq<uint8>) returns (v: int)
    requires |bytes| == f.bits / 8 && f.encoding == 1
    ensures Denotes(v, Little(bytes), Pow2(f.bits - 1))
  {
    assert 8 * |bytes| == f.bits;
    LittleBound(bytes);
    v := Signed(Little(bytes), f.bits);
    SignedDenotes(Little(bytes), f.bits);
  }

  /**
   The PCM16 meaning of a float sample: none exactly for an infinity or a NaN, otherwise the real number it denotes
   times 32768, truncated toward zero and saturated.
   */
  lemma FloatSampleMeaning(f: Format, bytes: seq<uint8>)
    requires |bytes| == f.bits / 8 && f.encoding == 3
    ensures 0 <= Little(bytes) <= UINT32_MAX
    ensures DecodeSample(f, bytes).None? <==> Little(bytes) % 0x8000_0000 >= 0x7F80_0000
    ensures DecodeSample(f, bytes).Some? ==>
      && !NanOrInfinity(Little(bytes))
      && DecodeSample(f, bytes).value == Saturate16(TruncateReal(FloatValue(Little(bytes)) * 32768.0))
  {
    hide FloatValue, DecodeFloat;
    LittleBound(bytes);
    Pow2Values();
    var raw: uint32 := Little(bytes);
    assert DecodeSample(f, bytes) == DecodeFloat(raw);
    Fields(raw);
    if NanOrInfinity(raw) {
      NoFloat(raw);
    } else {
      FloatDecodeIsTruncation(raw);
    }
  }

  lemma NoFloat(raw: uint32)
    requires NanOrInfinity(raw)
    ensures DecodeFloat(raw).None?
  {
  }

  lemma WideSample(f: Format, bytes: seq<uint8>, s: int, d: nat)
    requires |bytes| == f.bits / 8 && f.encoding == 1 && f.bits > 8
    requires s == Signed(Little(bytes), f.bits) && d == Pow2(f.bits - 16)
    ensures DecodeSample(f, bytes) == Some(TruncDiv(s, d))
    ensures TruncatedFrom(TruncDiv(s, d), s, d)
    ensures INT16_MIN <= TruncDiv(s, d) <= INT16_MAX
  {
    assert -(0x8000 * d) <= s < 0x8000 * d by {
      assert 8 * |bytes| == f.bits;
      LittleBound(bytes);
      SignedDenotes(Little(bytes), f.bits);
      WideHalf(f.bits);
    }
    TruncDivTruncates(s, d);
  }

  lemma SampleRange(f: Format, bytes: seq<uint8>)
    requires |bytes| == f.bits / 8
    ensures DecodeSample(f, bytes).Some? ==> INT16_MIN <= DecodeSample(f, bytes).value <= INT16_MAX
  {
    if f.encoding == 1 {
      var v := SomeInteger(f, bytes);
      PcmSampleMeaning(f, bytes, v);
    } else {
      FloatSampleMeaning(f, bytes);
    }
  }

  /** One frame mixed to mono: the channel mean, truncated toward zero. */
  function MixFrame(f: Format, frame: seq<uint8>): (r: Option<int16>)
    requires |frame| == f.block
  {
    var width := f.bits / 8;
    var left := DecodeSample(f, frame[..width]);
    SampleRange(f, frame[..width]);
    if left.None? then None
    else if f.channels == 1 then Some(left.value)
    else
      var right := DecodeSample(f, frame[width..]);
      SampleRange(f, frame[width..]);
      if right.None? then None else Some(TruncDiv(left.value + right.value, 2))
  }

  /** Mixing fails exactly when a channel does; the mean is off by less than one, toward zero, and needs no clamping. */
  lemma MixIsTheMean(f: Format, frame: seq<uint8>)
    requires |frame| == f.block
    ensures f.channels == 1 ==> MixFrame(f, frame) == DecodeSample(f, frame)
    ensures f.channels == 2 ==>
      var left, right := DecodeSample(f, frame[..f.bits / 8]), DecodeSample(f, frame[f.bits / 8..]);
      var mixed := MixFrame(f, frame);
      && (mixed.Some? <==> left.Some? && right.Some?)
      && (mixed.Some? ==> IsHalf(mixed.value, left.value + right.value))
  {
    hide DecodeSample;
    assert f.channels == 1 ==> frame[..f.bits / 8] == frame;
    SampleRange(f, frame[..f.bits / 8]);
    if f.channels == 2 {
      SampleRange(f, frame[f.bits / 8..]);
    }
  }

  predicate IsHalf(m: int, s: int) {
    Abs(s - 2 * m) <= 1 && Abs(2 * m) <= Abs(s) && INT16_MIN <= m <= INT16_MAX
  }

  /** All frames of a data chunk, or nothing if any sample is not a number. */
  function MixFrames(f: Format, data: seq<uint8>): Option<seq<int16>>
    requires |data| % f.block == 0
    decreases |data|
  {
    if data == [] then Some([])
    else
      BlockDivides(f, data);
      match MixFrame(f, data[..f.block])
      case None => None
      case Some(first) =>
        match MixFrames(f, data[f.block..])
        case None => None
        case Some(rest) => Some([first] + rest)
  }

  lemma BlockDivides(f: Format, data: seq<uint8>)
    requires |data| % f.block == 0 && data != []
    ensures f.block <= |data| && (|data| - f.block) % f.block == 0
    ensures (|data| - f.block) / f.block == |data| / f.block - 1
  {
    var n, b := |data|, f.block;
    var q := n / b;
    assert n == b * q;
    DivBounds(n, b);
    ProductOrder(n, b, q, 1);
    assert n - b == b * (q - 1);
    QuotientUnique(n - b, b, q - 1, 0);
  }

  lemma {:induction false} MixFramesLength(f: Format, data: seq<uint8>)
    requires |data| % f.block == 0
    ensures MixFrames(f, data).Some? ==> |MixFrames(f, data).value| == |data| / f.block
    decreases |data|
  {
    if data != [] {
      hide MixFrame;
      BlockDivides(f, data);
      MixFramesLength(f, data[f.block..]);
    }
  }

  /** Integer formats never fail; float formats fail exactly when some 32-bit word is NaN or infinity. */
  lemma {:induction false} MixFramesFailure(f: Format, data: seq<uint8>)
    requires |data| % f.block == 0
    ensures MixFrames(f, data).None? <==>
      f.encoding == 3 && exists w :: 0 <= w < |data| / 4 && WordNotFinite(data, w)
    decreases |data|
  {
    if data != [] {
      BlockDivides(f, data);
      var head, rest := data[..f.block], data[f.block..];
      MixFramesFailure(f, rest);
      if f.encoding == 3 {
        var step := f.channels;
        assert f.block == 4 * step;
        FrameFailure(f, head);
        forall w | 0 <= w < step ensures WordNotFinite(data, w) == WordNotFinite(head, w) {
          assert data[4 * w..4 * w + 4] == head[4 * w..4 * w + 4];
        }
        forall w | 0 <= w < |rest| / 4 ensures WordNotFinite(data, w + step) == WordNotFinite(rest, w) {
          SliceOfRest(data, f.block, 4 * w);
        }
        if w :| 0 <= w < |data| / 4 && WordNotFinite(data, w) {
          if w >= step {
            assert WordNotFinite(rest, w - step);
          } else {
            assert WordNotFinite(head, w);
          }
        }
      }
    }
  }

  lemma SliceOfRest(data: seq<uint8>, skip: nat, at: nat)
    requires skip + at + 4 <= |data|
    ensures data[skip..][at..at + 4] == data[at + skip..at + skip + 4]
  {
  }

  predicate WordNotFinite(data: seq<uint8>, w: nat)
    requires 4 * w + 4 <= |data|
  {
    var bytes := data[4 * w..4 * w + 4];
    LittleBound(bytes);
    Pow2Values();
    NanOrInfinity(Little(bytes))
  }

  lemma FrameFailure(f: Format, frame: seq<uint8>)
    requires |frame| == f.block && f.encoding == 3
    ensures MixFrame(f, frame).None? <==> exists w :: 0 <= w < f.channels && WordNotFinite(frame, w)
  {
    assert frame[0..4] == frame[..4];
    assert WordNotFinite(frame, 0) <==> DecodeSample(f, frame[..4]).None?;
    if f.channels == 2 {
      assert frame[4..8] == frame[4..];
      assert WordNotFinite(frame, 1) <==> DecodeSample(f, frame[4..]).None?;
    }
  }
}
