/** CRC-32 as in section 8 of RFC 1952, one byte at a time. */
module Crc32 {
  import opened MachineIntegers
  import opened Bits
  import opened LittleEndian

  const POLYNOMIAL: uint32 := 0xEDB8_8320

  function ShiftOnce(crc: uint32): (r: uint32) {
    XorFits(crc / 2, POLYNOMIAL);
    if crc % 2 != 0 then Xor(crc / 2, POLYNOMIAL) else crc / 2
  }

  function ShiftTimes(crc: uint32, n: nat): uint32
    decreases n
  {
    if n == 0 then crc else ShiftTimes(ShiftOnce(crc), n - 1)
  }

  function Byte(crc: uint32, b: uint8): uint32 {
    XorFits(crc, b);
    ShiftTimes(Xor(crc, b), 8)
  }

  lemma XorFits(a: uint32, b: uint32)
    ensures 0 <= Xor(a, b) < 0x1_0000_0000
  {
    Pow2Values();
    XorBound(a, b, 32);
  }

  /** Register after the bytes, oldest first. */
  function Update(crc: uint32, bytes: seq<uint8>): uint32 {
    if bytes == [] then crc else Byte(Update(crc, bytes[..|bytes| - 1]), bytes[|bytes| - 1])
  }

  function Complement(crc: uint32): uint32 {
    UINT32_MAX - crc
  }

  function Crc(bytes: seq<uint8>): uint32 {
    Complement(Update(UINT32_MAX, bytes))
  }

  /** One shift drops the lowest bit and, if it was set, flips the bits of the polynomial. */
  lemma ShiftBits(crc: uint32, k: nat)
    ensures var top := if k < 31 then Bit(crc, k + 1) else 0;
      Bit(ShiftOnce(crc), k) == if Bit(crc, 0) == 1 && k < 32 && Exponent(31 - k) then 1 - top else top
  {
    Pow2Values();
    ShrBit(crc, 1, k);
    assert Shr(crc, 1) == crc / 2;
    if k >= 31 {
      HighBitsZero(crc, 32, k + 1);
    }
    XorBit(crc / 2, POLYNOMIAL, k);
    PolynomialBits(k);
  }

  /** The generator: the exponents below 32, the register's highest bit standing for exponent 0. */
  predicate Exponent(e: int) {
    e in {26, 23, 22, 16, 12, 11, 10, 8, 7, 5, 4, 2, 1, 0}
  }

  lemma PolynomialBits(k: nat)
    ensures Bit(POLYNOMIAL, k) == if k < 32 && Exponent(31 - k) then 1 else 0
  {
    hide Bit;
    Nibble(0xEDB_8832, 0x0, k);
    Nibble(0xED_B883, 0x2, k - 4);
    Nibble(0xE_DB88, 0x3, k - 8);
    Nibble(0xEDB8, 0x8, k - 12);
    Nibble(0xEDB, 0x8, k - 16);
    Nibble(0xED, 0xB, k - 20);
    Nibble(0xE, 0xD, k - 24);
    Nibble(0x0, 0xE, k - 28);
    if k >= 32 {
      BitOfZero(k - 32);
    }
  }

  /** Four bits at a time. */
  lemma Nibble(high: nat, low: nat, k: int)
    requires low < 0x10
    ensures 0 <= k < 4 ==> Bit(0x10 * high + low, k) == (if k == 0 then low else if k == 1 then low / 2
                                                         else if k == 2 then low / 4 else low / 8) % 2
    ensures k >= 4 ==> Bit(0x10 * high + low, k) == Bit(high, k - 4)
  {
    hide Bit;
    var n := 0x10 * high + low;
    if k >= 4 {
      assert n / 2 == 8 * high + low / 2 && n / 2 / 2 == 4 * high + low / 4 && n / 2 / 2 / 2 / 2 == high;
      NextBit(n, k);
      NextBit(n / 2, k - 1);
      NextBit(n / 2 / 2, k - 2);
      NextBit(n / 2 / 2 / 2, k - 3);
    } else if k >= 0 {
      assert n / 2 == 8 * high + low / 2 && n / 2 / 2 == 4 * high + low / 4 && n / 2 / 2 / 2 == 2 * high + low / 8;
      NextBit(n, k);
      NextBit(n / 2, if k > 0 then k - 1 else 0);
      NextBit(n / 2 / 2, if k > 1 then k - 2 else 0);
      NextBit(n / 2 / 2 / 2, if k > 2 then k - 3 else 0);
    }
  }

  lemma NextBit(n: nat, k: nat)
    ensures Bit(n, k) == if k == 0 then n % 2 else Bit(n / 2, k - 1)
  {
  }

  // Division of polynomials

  /** `r[e]` is the coefficient of the power `e` of the remainder; one more coefficient of the message is divided. */
  function Divide(r: seq<nat>, m: nat): (t: seq<nat>)
    requires |r| == 32
    ensures |t| == 32
  {
    var top := (r[31] + m) % 2;
    seq(32, e requires 0 <= e < 32 => ((if e == 0 then 0 else r[e - 1]) + (if Exponent(e) then top else 0)) % 2)
  }

  function DivideAll(r: seq<nat>, message: seq<nat>): (t: seq<nat>)
    requires |r| == 32
    ensures |t| == 32
    decreases |message|
  {
    if message == [] then r else DivideAll(Divide(r, message[0]), message[1..])
  }

  /** The message as it is divided: byte by byte, the lowest bit of each first. */
  function MessageBits(bytes: seq<uint8>): seq<nat> {
    if bytes == [] then [] else MessageBits(bytes[..|bytes| - 1]) + Digits(bytes[|bytes| - 1], 8)
  }

  /** The register holds the remainder, the highest power in its lowest bit. */
  predicate Holds(crc: uint32, r: seq<nat>) {
    |r| == 32 && forall e :: 0 <= e < 32 ==> r[e] == Bit(crc, 31 - e)
  }

  lemma DivideStep(crc: uint32, r: seq<nat>, m: nat)
    requires Holds(crc, r) && m <= 1
    ensures 0 <= Xor(crc, m) < 0x1_0000_0000
    ensures Holds(ShiftOnce(Xor(crc, m)), Divide(r, m))
  {
    hide Bit, Xor, ShiftOnce;
    XorFits(crc, m);
    var x := Xor(crc, m);
    var t := Divide(r, m);
    XorBit(crc, m, 0);
    OneBit(m, 0);
    assert r[31] == Bit(crc, 31 - 31);
    forall e | 0 <= e < 32 ensures t[e] == Bit(ShiftOnce(x), 31 - e) {
      ShiftBits(x, 31 - e);
      XorBit(crc, m, 32 - e);
      OneBit(m, 32 - e);
    }
  }

  lemma OneBit(m: nat, k: nat)
    requires m <= 1
    ensures Bit(m, k) == if k == 0 then m else 0
  {
    if k > 0 {
      BitOfZero(k - 1);
    }
  }

  /** Feeding bits one at a time, lowest first. */
  function Serial(crc: uint32, bits: seq<nat>): uint32
    requires forall i :: 0 <= i < |bits| ==> bits[i] <= 1
    decreases |bits|
  {
    if bits == [] then crc
    else
      XorFits(crc, bits[0]);
      Serial(ShiftOnce(Xor(crc, bits[0])), bits[1..])
  }

  /** Of a byte mixed in at once, each shift uses one bit and keeps the rest for later. */
  lemma ShiftMixed(crc: uint32, v: uint32)
    ensures 0 <= Xor(crc, v) < 0x1_0000_0000 && 0 <= Xor(crc, v % 2) < 0x1_0000_0000
    ensures ShiftOnce(Xor(crc, v)) == Xor(ShiftOnce(Xor(crc, v % 2)), v / 2)
  {
    hide Xor, ShiftOnce;
    XorFits(crc, v);
    XorFits(crc, v % 2);
    var all, first := Xor(crc, v), Xor(crc, v % 2);
    XorFits(ShiftOnce(first), v / 2);
    Pow2Values();
    forall k | 0 <= k < 32 ensures Bit(ShiftOnce(all), k) == Bit(Xor(ShiftOnce(first), v / 2), k) {
      ShiftBits(all, k);
      ShiftBits(first, k);
      XorBit(ShiftOnce(first), v / 2, k);
      MixedBit(crc, v, 0);
      MixedBit(crc, v, k + 1);
      HighBitsZero(v, 32, 32);
    }
    SameBits(ShiftOnce(all), Xor(ShiftOnce(first), v / 2), 32);
  }

  lemma MixedBit(crc: uint32, v: uint32, k: nat)
    ensures Bit(Xor(crc, v), k) == if Bit(crc, k) == Bit(v, k) then 0 else 1
    ensures Bit(Xor(crc, v % 2), k) == if k == 0 then (if Bit(crc, 0) == Bit(v, 0) then 0 else 1) else Bit(crc, k)
    ensures k > 0 ==> Bit(v / 2, k - 1) == Bit(v, k)
  {
    hide Xor;
    XorBit(crc, v, k);
    XorBit(crc, v % 2, k);
    OneBit(v % 2, k);
  }

  lemma {:induction false} SerialByte(crc: uint32, v: uint32, n: nat)
    requires v < Pow2(n)
    ensures 0 <= Xor(crc, v) < 0x1_0000_0000 && forall i :: 0 <= i < n ==> Digits(v, n)[i] <= 1
    ensures ShiftTimes(Xor(crc, v), n) == Serial(crc, Digits(v, n))
    decreases n
  {
    hide ShiftOnce, Xor;
    XorFits(crc, v);
    if n == 0 {
      XorZero(crc);
    } else {
      XorFits(crc, v % 2);
      ShiftMixed(crc, v);
      var next := ShiftOnce(Xor(crc, v % 2));
      SerialByte(next, v / 2, n - 1);
      assert Digits(v, n)[1..] == Digits(v / 2, n - 1);
    }
  }

  lemma {:induction false} XorZero(a: nat)
    ensures Xor(a, 0) == a
  {
    if a > 0 {
      XorZero(a / 2);
    }
  }

  lemma {:induction false} SerialDivides(crc: uint32, r: seq<nat>, bits: seq<nat>)
    requires Holds(crc, r) && forall i :: 0 <= i < |bits| ==> bits[i] <= 1
    ensures Holds(Serial(crc, bits), DivideAll(r, bits))
    decreases |bits|
  {
    hide ShiftOnce, Xor, Divide;
    if bits != [] {
      DivideStep(crc, r, bits[0]);
      SerialDivides(ShiftOnce(Xor(crc, bits[0])), Divide(r, bits[0]), bits[1..]);
    }
  }

  lemma {:induction false} DivideInPieces(r: seq<nat>, a: seq<nat>, b: seq<nat>)
    requires |r| == 32
    ensures DivideAll(r, a + b) == DivideAll(DivideAll(r, a), b)
    decreases |a|
  {
    hide Divide;
    if a == [] {
      assert a + b == b;
    } else {
      assert (a + b)[1..] == a[1..] + b;
      DivideInPieces(Divide(r, a[0]), a[1..], b);
    }
  }

  /** The register follows the long division of the message by the generator. */
  lemma {:induction false} UpdateDivides(crc: uint32, r: seq<nat>, bytes: seq<uint8>)
    requires Holds(crc, r)
    ensures Holds(Update(crc, bytes), DivideAll(r, MessageBits(bytes)))
    decreases |bytes|
  {
    hide Byte, Serial, Digits;
    if bytes != [] {
      var before, b := bytes[..|bytes| - 1], bytes[|bytes| - 1];
      UpdateDivides(crc, r, before);
      ByteDivides(Update(crc, before), DivideAll(r, MessageBits(before)), b);
      DivideInPieces(r, MessageBits(before), Digits(b, 8));
    }
  }

  lemma ByteDivides(crc: uint32, r: seq<nat>, b: uint8)
    requires Holds(crc, r)
    ensures Holds(Byte(crc, b), DivideAll(r, Digits(b, 8)))
  {
    hide ShiftTimes, Serial, Xor, Digits, DivideAll;
    Pow2Values();
    XorFits(crc, b);
    SerialByte(crc, b, 8);
    assert Byte(crc, b) == Serial(crc, Digits(b, 8));
    SerialDivides(crc, r, Digits(b, 8));
  }

  function Ones(): (r: seq<nat>)
    ensures |r| == 32
  {
    seq(32, _ => 1)
  }

  /**
   The checksum is the complement of the remainder of the message, its first 32 coefficients inverted, divided by the
   generator x^32 + x^26 + x^23 + x^22 + x^16 + x^12 + x^11 + x^10 + x^8 + x^7 + x^5 + x^4 + x^2 + x + 1.
   */
  lemma CrcIsRemainder(bytes: seq<uint8>, k: nat)
    requires k < 32
    ensures Bit(Crc(bytes), k) + DivideAll(Ones(), MessageBits(bytes))[31 - k] == 1
  {
    hide Update, DivideAll, MessageBits;
    Pow2Values();
    forall e | 0 <= e < 32 ensures Bit(UINT32_MAX, e) == 1 {
      BitOfComplement(0, 32, e);
      BitOfZero(e);
      assert UINT32_MAX == Pow2(32) - 1 - 0;
    }
    UpdateDivides(UINT32_MAX, Ones(), bytes);
    BitOfComplement(Update(UINT32_MAX, bytes), 32, k);
  }

  /** Feeding a message in pieces leaves the register where one pass would. */
  lemma {:induction false} UpdateInPieces(crc: uint32, a: seq<uint8>, b: seq<uint8>)
    ensures Update(crc, a + b) == Update(Update(crc, a), b)
    decreases |b|
  {
    if b == [] {
      assert a + b == a;
    } else {
      UpdateInPieces(crc, a, b[..|b| - 1]);
      assert (a + b)[..|a + b| - 1] == a + b[..|b| - 1];
    }
  }

  /** The one-shot routine of the frame sender. */
  method Compute(bytes: seq<uint8>) returns (crc: uint32)
    ensures crc == Crc(bytes)
  {
    crc := UINT32_MAX;
    var i := 0;
    while i < |bytes|
      invariant 0 <= i <= |bytes|
      invariant crc == Update(UINT32_MAX, bytes[..i])
    {
      assert bytes[..i + 1][..i] == bytes[..i];
      ghost var before := crc;
      XorFits(crc, bytes[i]);
      crc := Xor(crc, bytes[i]);
      ghost var seeded := crc;
      var b := 0;
      while b < 8
        invariant 0 <= b <= 8
        invariant ShiftTimes(crc, 8 - b) == ShiftTimes(seeded, 8)
      {
        crc := ShiftOnce(crc);
        b := b + 1;
      }
      assert crc == Byte(before, bytes[i]);
      i := i + 1;
    }
    assert bytes[..i] == bytes;
    crc := Complement(crc);
  }
}
