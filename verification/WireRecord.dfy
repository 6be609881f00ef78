/** The 112-byte record header: written by the board, read by the host. */
module WireRecord {
  import opened MachineIntegers
  import opened Options
  import opened LittleEndian
  import opened FramePool
  import opened HostStore
  import Crc32

  const HEADER_BYTES := 112
  const MAGIC: seq<uint8> := [0x41, 0x53, 0x4E, 0x33]
  const CHANNELS := 16
  const PDM_HZ := 2400000
  const RX_US := 50000
  const MAX_PAYLOAD := 16 * 1024 * 1024

  /** What the host learns from a header it accepts. */
  datatype Header = Header(meta: Meta, payloadBytes: nat, payloadCrc: nat, channels: nat, pdmHz: nat, rxUs: nat)

  function Pattern64(v: int64): uint64 {
    if v < 0 then v + 0x1_0000_0000_0000_0000 else v
  }

  function Pattern32(v: int32): uint32 {
    if v < 0 then v + 0x1_0000_0000 else v
  }

  function Signed64(p: uint64): int64 {
    if p >= 0x8000_0000_0000_0000 then p - 0x1_0000_0000_0000_0000 else p
  }

  function Signed32(p: uint32): int32 {
    if p >= 0x8000_0000 then p - 0x1_0000_0000 else p
  }

  /** Little-endian integer of `width` bytes at `at`. */
  function Field(raw: seq<uint8>, at: nat, width: nat): (n: nat)
    requires at + width <= |raw|
    ensures n < Pow2(8 * width)
  {
    LittleBound(raw[at..at + width]);
    Little(raw[at..at + width])
  }

  function Word(raw: seq<uint8>, at: nat): uint32
    requires at + 4 <= |raw|
  {
    Pow2Values();
    Field(raw, at, 4)
  }

  function Long(raw: seq<uint8>, at: nat): uint64
    requires at + 8 <= |raw|
  {
    Pow2Values();
    Pow2Add(32, 32);
    Field(raw, at, 8)
  }

  function Identity(raw: seq<uint8>, at: nat): seq<uint32>
    requires at + 16 <= |raw|
  {
    [Word(raw, at), Word(raw, at + 4), Word(raw, at + 8), Word(raw, at + 12)]
  }

  function MetaAt(raw: seq<uint8>): Meta
    requires |raw| == HEADER_BYTES
  {
    Meta(Word(raw, 12), Word(raw, 20), Word(raw, 60), Signed32(Word(raw, 56)), Signed64(Long(raw, 48)),
         Long(raw, 32), Long(raw, 40), Word(raw, 64), Identity(raw, 76), Identity(raw, 92))
  }

  /** The host's decoding: magic, version, size, checksum, dimensions, heartbeat rule and identity. */
  function DecodeHeader(raw: seq<uint8>): Option<Header> {
    if |raw| != HEADER_BYTES then None
    else if raw[0..4] != MAGIC || Field(raw, 4, 2) != 2 || Field(raw, 6, 2) != HEADER_BYTES
            || Crc32.Crc(raw[..108]) != Word(raw, 108) then None
    else
      var bytes, m := Word(raw, 8), MetaAt(raw);
      if bytes > MAX_PAYLOAD || bytes % 4 != 0 || Word(raw, 24) != CHANNELS || Word(raw, 28) == 0
         || Word(raw, 16) != m.sequence then None
      else if (bytes != 0) != (m.sequence != 0) then None
      else if bytes != 0 && (m.bootId == [0, 0, 0, 0] || m.testId == [0, 0, 0, 0]) then None
      else Some(Header(m, bytes, Word(raw, 72), Word(raw, 24), Word(raw, 28), Word(raw, 68)))
  }

  /** Every field as the board lays it out, the checksum aside. */
  ghost predicate Encodes(raw: seq<uint8>, m: Meta, bytes: uint32, crc: uint32)
    requires |raw| == HEADER_BYTES && |m.bootId| == 4 && |m.testId| == 4
  {
    && raw[0..4] == MAGIC && Field(raw, 4, 2) == 2 && Field(raw, 6, 2) == HEADER_BYTES
    && Word(raw, 8) == bytes && Word(raw, 12) == m.sequence && Word(raw, 16) == m.sequence
    && Word(raw, 20) == m.flags && Word(raw, 24) == CHANNELS && Word(raw, 28) == PDM_HZ
    && Long(raw, 32) == m.triggerUs && Long(raw, 40) == m.completionUs
    && Long(raw, 48) == Pattern64(m.position) && Word(raw, 56) == Pattern32(m.steps)
    && Word(raw, 60) == m.divisor && Word(raw, 64) == m.txDurationUs && Word(raw, 68) == RX_US && Word(raw, 72) == crc
    && (forall i :: 0 <= i < 4 ==> Word(raw, 76 + 4 * i) == m.bootId[i])
    && (forall i :: 0 <= i < 4 ==> Word(raw, 92 + 4 * i) == m.testId[i])
  }

  /** Writes `n` little-endian into `width` bytes and nothing else. */
  method PutInto(out: array<uint8>, at: nat, n: nat, width: nat)
    requires at + width <= out.Length && n < Pow2(8 * width)
    modifies out
    ensures Field(out[..], at, width) == n
    ensures forall k :: 0 <= k < out.Length && !(at <= k < at + width) ==> out[k] == old(out[k])
  {
    var rest := n;
    var i := 0;
    while i < width
      invariant 0 <= i <= width
      invariant Put(n, width) == out[at..at + i] + Put(rest, width - i)
      invariant forall k :: 0 <= k < out.Length && !(at <= k < at + width) ==> out[k] == old(out[k])
    {
      ghost var before := out[at..at + i];
      out[at + i] := rest % 0x100;
      assert out[at..at + i + 1] == before + [rest % 0x100];
      assert Put(rest, width - i) == [rest % 0x100] + Put(rest / 0x100, width - i - 1);
      rest := rest / 0x100;
      i := i + 1;
    }
    assert out[at..at + width] == Put(n, width);
    assert out[..][at..at + width] == out[at..at + width];
    LittleOfPut(n, width);
  }

  /** A field outside the bytes that changed reads the same. */
  lemma FieldStays(a: seq<uint8>, b: seq<uint8>, at: nat, width: nat)
    requires |a| == |b| && at + width <= |a|
    requires forall k :: at <= k < at + width ==> a[k] == b[k]
    ensures Field(a, at, width) == Field(b, at, width)
  {
    assert a[at..at + width] == b[at..at + width];
  }

  /** An accepted header comes back with every field the board put in it, and which are accepted. */
  lemma HeaderRoundTrip(raw: seq<uint8>, m: Meta, bytes: uint32, crc: uint32)
    requires |raw| == HEADER_BYTES && |m.bootId| == 4 && |m.testId| == 4
    requires Encodes(raw, m, bytes, crc) && Word(raw, 108) == Crc32.Crc(raw[..108])
    ensures DecodeHeader(raw).Some? <==>
      && bytes <= MAX_PAYLOAD && bytes % 4 == 0 && (bytes != 0 <==> m.sequence != 0)
      && (bytes != 0 ==> Identified(m))
    ensures DecodeHeader(raw).Some? ==> DecodeHeader(raw).value == Header(m, bytes, crc, CHANNELS, PDM_HZ, RX_US)
  {
    hide Word, Long, Field, Crc32.Crc;
    assert Identity(raw, 76) == m.bootId by {
      assert Word(raw, 76 + 4 * 0) == m.bootId[0] && Word(raw, 76 + 4 * 1) == m.bootId[1];
      assert Word(raw, 76 + 4 * 2) == m.bootId[2] && Word(raw, 76 + 4 * 3) == m.bootId[3];
    }
    assert Identity(raw, 92) == m.testId by {
      assert Word(raw, 92 + 4 * 0) == m.testId[0] && Word(raw, 92 + 4 * 1) == m.testId[1];
      assert Word(raw, 92 + 4 * 2) == m.testId[2] && Word(raw, 92 + 4 * 3) == m.testId[3];
    }
    assert Signed32(Pattern32(m.steps)) == m.steps && Signed64(Pattern64(m.position)) == m.position;
    assert MetaAt(raw) == m;
  }

  /** A little-endian number is zero exactly when all its bytes are. */
  lemma {:induction false} LittleZero(bytes: seq<uint8>)
    ensures Little(bytes) == 0 <==> forall i :: 0 <= i < |bytes| ==> bytes[i] == 0
  {
    if bytes != [] {
      LittleZero(bytes[1..]);
      if forall i :: 0 <= i < |bytes| ==> bytes[i] == 0 {
        assert forall i :: 0 <= i < |bytes[1..]| ==> bytes[1..][i] == bytes[i + 1] == 0;
      } else if bytes[0] == 0 {
        var i :| 0 <= i < |bytes| && bytes[i] != 0;
        assert bytes[1..][i - 1] != 0;
      }
    }
  }

  lemma WordZero(raw: seq<uint8>, at: nat)
    requires at + 4 <= |raw|
    ensures Word(raw, at) == 0 <==> raw[at] == raw[at + 1] == raw[at + 2] == raw[at + 3] == 0
  {
    hide Little;
    LittleZero(raw[at..at + 4]);
    var b := raw[at..at + 4];
    assert b == [raw[at], raw[at + 1], raw[at + 2], raw[at + 3]];
  }

  /** Sixteen bytes of identity, not all zero. */
  predicate Present(raw: seq<uint8>, at: nat)
    requires at + 16 <= |raw|
  {
    exists k :: at <= k < at + 16 && raw[k] != 0
  }

  lemma IdentityPresent(raw: seq<uint8>, at: nat)
    requires at + 16 <= |raw|
    ensures Identity(raw, at) != [0, 0, 0, 0] <==> Present(raw, at)
  {
    hide Word;
    WordZero(raw, at);
    WordZero(raw, at + 4);
    WordZero(raw, at + 8);
    WordZero(raw, at + 12);
    if Word(raw, at) != 0 || Word(raw, at + 4) != 0 || Word(raw, at + 8) != 0 || Word(raw, at + 12) != 0 {
      assert Present(raw, at);
    }
  }

  /** Which bytes the host accepts as a header, whoever wrote them. */
  lemma AcceptedHeaders(raw: seq<uint8>)
    ensures DecodeHeader(raw).Some? <==>
      && |raw| == 112 && raw[0..4] == [0x41, 0x53, 0x4E, 0x33] && Little(raw[4..6]) == 2 && Little(raw[6..8]) == 112
      && Little(raw[108..112]) == Crc32.Crc(raw[..108])
      && Little(raw[8..12]) <= 16777216 && Little(raw[8..12]) % 4 == 0
      && Little(raw[16..20]) == Little(raw[12..16]) && Little(raw[24..28]) == 16 && Little(raw[28..32]) != 0
      && (Little(raw[8..12]) != 0 <==> Little(raw[12..16]) != 0)
      && (Little(raw[8..12]) != 0 ==> Present(raw, 76) && Present(raw, 92))
  {
    hide Little, Crc32.Crc, Identity, Signed32, Signed64, Present, Long;
    if |raw| == 112 {
      IdentityPresent(raw, 76);
      IdentityPresent(raw, 92);
    }
  }

  /** Where the host finds each field of an accepted header; position and steps are in two's complement. */
  lemma AcceptedFields(raw: seq<uint8>)
    requires DecodeHeader(raw).Some?
    ensures |raw| == 112
    ensures var h := DecodeHeader(raw).value; var m := h.meta;
      && h.payloadBytes == Little(raw[8..12]) && m.sequence == Little(raw[12..16]) && m.flags == Little(raw[20..24])
      && h.channels == Little(raw[24..28]) && h.pdmHz == Little(raw[28..32])
      && m.triggerUs == Little(raw[32..40]) && m.completionUs == Little(raw[40..48])
      && (m.position - Little(raw[48..56])) % 0x1_0000_0000_0000_0000 == 0
      && (m.steps - Little(raw[56..60])) % 0x1_0000_0000 == 0
      && m.divisor == Little(raw[60..64]) && m.txDurationUs == Little(raw[64..68])
      && h.rxUs == Little(raw[68..72]) && h.payloadCrc == Little(raw[72..76])
    ensures forall i :: 0 <= i < 4 ==>
      && |DecodeHeader(raw).value.meta.bootId| == |DecodeHeader(raw).value.meta.testId| == 4
      && DecodeHeader(raw).value.meta.bootId[i] == Little(raw[76 + 4 * i..80 + 4 * i])
      && DecodeHeader(raw).value.meta.testId[i] == Little(raw[92 + 4 * i..96 + 4 * i])
  {
    hide Little, Crc32.Crc;
  }

  /** One `put` of the board: a value in `width` bytes at `at`. */
  datatype Entry = Entry(at: nat, value: nat, width: nat)

  /** The board's puts in order; the magic and the checksum come before and after. */
  function Layout(m: Meta, bytes: uint32, crc: uint32): seq<Entry>
    requires |m.bootId| == 4 && |m.testId| == 4
  {
    [Entry(4, 2, 2), Entry(6, HEADER_BYTES, 2), Entry(8, bytes, 4), Entry(12, m.sequence, 4), Entry(16, m.sequence, 4),
     Entry(20, m.flags, 4), Entry(24, CHANNELS, 4), Entry(28, PDM_HZ, 4), Entry(32, m.triggerUs, 8),
     Entry(40, m.completionUs, 8), Entry(48, Pattern64(m.position), 8), Entry(56, Pattern32(m.steps), 4),
     Entry(60, m.divisor, 4), Entry(64, m.txDurationUs, 4), Entry(68, RX_US, 4), Entry(72, crc, 4),
     Entry(76, m.bootId[0], 4), Entry(80, m.bootId[1], 4), Entry(84, m.bootId[2], 4), Entry(88, m.bootId[3], 4),
     Entry(92, m.testId[0], 4), Entry(96, m.testId[1], 4), Entry(100, m.testId[2], 4), Entry(104, m.testId[3], 4)]
  }

  predicate Fits(e: Entry) {
    4 <= e.at && e.at + e.width <= 108 && e.value < Pow2(8 * e.width)
  }

  /** Entries fit their widths, follow one another without a gap and lie between the magic and the checksum. */
  ghost predicate LaidOut(entries: seq<Entry>) {
    && (forall k :: 0 <= k < |entries| ==> Fits(entries[k]))
    && (forall k :: 1 <= k < |entries| ==> entries[k - 1].at + entries[k - 1].width == entries[k].at)
  }

  lemma {:induction false} EntriesAreApart(entries: seq<Entry>, k: nat, l: nat)
    requires LaidOut(entries) && k < l < |entries|
    ensures entries[k].at + entries[k].width <= entries[l].at
    decreases l
  {
    if k + 1 < l {
      EntriesAreApart(entries, k, l - 1);
    }
  }

  ghost predicate Holds(raw: seq<uint8>, e: Entry) {
    e.at + e.width <= |raw| && Field(raw, e.at, e.width) == e.value
  }

  lemma NarrowFits(e: Entry)
    requires 4 <= e.at && e.at + e.width <= 108
    requires (e.width == 2 && e.value < 0x1_0000) || (e.width == 4 && e.value < 0x1_0000_0000)
             || (e.width == 8 && e.value < 0x1_0000_0000_0000_0000)
    ensures Fits(e)
  {
    Pow2Values();
    Pow2Add(32, 32);
  }

  lemma LayoutIsLaidOut(m: Meta, bytes: uint32, crc: uint32)
    requires |m.bootId| == 4 && |m.testId| == 4
    ensures LaidOut(Layout(m, bytes, crc))
  {
    hide Fits;
    var l := Layout(m, bytes, crc);
    forall k | 0 <= k < |l| ensures Fits(l[k]) {
      NarrowFits(l[k]);
    }
    forall k | 1 <= k < |l| ensures l[k - 1].at + l[k - 1].width == l[k].at {
    }
  }

  method PutAll(out: array<uint8>, entries: seq<Entry>)
    requires out.Length == HEADER_BYTES && LaidOut(entries)
    modifies out
    ensures forall k :: 0 <= k < |entries| ==> Holds(out[..], entries[k])
    ensures out[..4] == old(out[..4])
  {
    hide Field;
    var i := 0;
    while i < |entries|
      invariant 0 <= i <= |entries|
      invariant forall k :: 0 <= k < i ==> Holds(out[..], entries[k])
      invariant out[..4] == old(out[..4])
    {
      ghost var before := out[..];
      PutInto(out, entries[i].at, entries[i].value, entries[i].width);
      forall k | 0 <= k < i ensures Holds(out[..], entries[k]) {
        EntriesAreApart(entries, k, i);
        FieldStays(before, out[..], entries[k].at, entries[k].width);
      }
      i := i + 1;
    }
  }

  lemma LayoutEncodes(raw: seq<uint8>, m: Meta, bytes: uint32, crc: uint32)
    requires |raw| == HEADER_BYTES && |m.bootId| == 4 && |m.testId| == 4
    requires raw[0..4] == MAGIC
    requires forall k :: 0 <= k < 24 ==> Holds(raw, Layout(m, bytes, crc)[k])
    ensures Encodes(raw, m, bytes, crc)
  {
    hide Field;
    var l := Layout(m, bytes, crc);
    assert Holds(raw, l[0]) && Holds(raw, l[1]) && Holds(raw, l[2]) && Holds(raw, l[3]);
    assert Holds(raw, l[4]) && Holds(raw, l[5]);
    assert Holds(raw, l[6]) && Holds(raw, l[7]) && Holds(raw, l[8]) && Holds(raw, l[9]);
    assert Holds(raw, l[10]) && Holds(raw, l[11]);
    assert Holds(raw, l[12]) && Holds(raw, l[13]) && Holds(raw, l[14]) && Holds(raw, l[15]);
    assert Holds(raw, l[16]) && Holds(raw, l[17]);
    assert Holds(raw, l[18]) && Holds(raw, l[19]) && Holds(raw, l[20]) && Holds(raw, l[21]);
    assert Holds(raw, l[22]) && Holds(raw, l[23]);
  }

  /** The board's header, with its checksum over everything before it, is what the host decodes. */
  method FrameHeader(out: array<uint8>, m: Meta, bytes: uint32, crc: uint32)
    requires out.Length == HEADER_BYTES && |m.bootId| == 4 && |m.testId| == 4
    modifies out
    ensures Encodes(out[..], m, bytes, crc)
    ensures DecodeHeader(out[..]).Some? <==>
      && bytes <= MAX_PAYLOAD && bytes % 4 == 0 && (bytes != 0 <==> m.sequence != 0)
      && (bytes != 0 ==> Identified(m))
    ensures DecodeHeader(out[..]).Some? ==>
      DecodeHeader(out[..]).value == Header(m, bytes, crc, CHANNELS, PDM_HZ, RX_US)
  {
    hide Field, Crc32.Crc, Layout, DecodeHeader;
    out[0], out[1], out[2], out[3] := 0x41, 0x53, 0x4E, 0x33;
    LayoutIsLaidOut(m, bytes, crc);
    PutAll(out, Layout(m, bytes, crc));
    ghost var before := out[..];
    var sum := Crc32.Compute(out[..108]);
    Pow2Values();
    PutInto(out, 108, sum, 4);
    ChecksumLast(before, out[..], m, bytes, crc);
    HeaderRoundTrip(out[..], m, bytes, crc);
  }

  lemma ChecksumLast(before: seq<uint8>, after: seq<uint8>, m: Meta, bytes: uint32, crc: uint32)
    requires |before| == |after| == HEADER_BYTES && |m.bootId| == 4 && |m.testId| == 4
    requires forall k :: 0 <= k < 108 ==> after[k] == before[k]
    requires before[..4] == MAGIC
    requires forall k :: 0 <= k < |Layout(m, bytes, crc)| ==> Holds(before, Layout(m, bytes, crc)[k])
    ensures Encodes(after, m, bytes, crc) && after[..108] == before[..108]
  {
    hide Field, Encodes;
    var l := Layout(m, bytes, crc);
    LayoutIsLaidOut(m, bytes, crc);
    forall k | 0 <= k < |l| ensures Holds(after, l[k]) {
      assert Holds(before, l[k]);
      FieldStays(before, after, l[k].at, l[k].width);
    }
    assert after[0..4] == before[..4];
    LayoutEncodes(after, m, bytes, crc);
  }
}
