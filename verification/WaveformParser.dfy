/**
 The board's byte-at-a-time RIFF parser as a state machine, and the proof that running it over a file
 is the same as the host's whole-file check.
 */
module WaveformParser {
  import opened MachineIntegers
  import opened LittleEndian
  import opened Options
  import opened WavSamples
  import opened WavFormat
  import opened AudioLimits

  datatype Phase = RiffHeader | ChunkHeader | FormatChunk | AudioData | Skip | Pad

  /** `header`, `fmt` and `frame` are the filled parts of the board's buffers; `pcm` is what was emitted. */
  datatype Parser = Parser(
    phase: Phase, header: seq<uint8>, fmt: seq<uint8>, frame: seq<uint8>, remaining: int, chunkBytes: nat,
    format: Option<Format>, dataSeen: bool, fileBytes: nat, received: nat, pcm: seq<int16>)

  function Start(fileBytes: nat): Parser {
    Parser(RiffHeader, [], [], [], 0, 0, None, false, fileBytes, 0, [])
  }

  function ChunkDone(p: Parser): Parser {
    p.(phase := if p.chunkBytes % 2 != 0 then Pad else ChunkHeader, header := [])
  }

  /** The format chunk as buffered: at most its first forty bytes. */
  function FormatDone(fmt: seq<uint8>): Option<Format> {
    if |fmt| < 16 then None
    else
      var channels, block, bits := U16(fmt, 2), U16(fmt, 12), U16(fmt, 14);
      var extensible := U16(fmt, 0) == 65534;
      if extensible && (|fmt| < 40 || U16(fmt, 16) < 22 || U16(fmt, 18) != bits || fmt[28..40] != GUID_TAIL) then None
      else
        var encoding := if extensible then U32(fmt, 24) else U16(fmt, 0);
        if (channels != 1 && channels != 2) || U32(fmt, 4) != AUDIO_HZ || (encoding != 1 && encoding != 3)
           || (encoding == 3 && bits != 32) || (bits != 8 && bits != 16 && bits != 24 && bits != 32)
           || block != channels * (bits / 8) || U32(fmt, 8) != AUDIO_HZ * block then None
        else Some(Format(encoding, channels, bits, block))
  }

  /** A full frame: mixed, counted against the capacity, and every second one written. */
  function EmitFrame(p: Parser, f: Format, capacity: nat, idle: bool): Option<Parser>
    requires |p.frame| == f.block
  {
    match MixFrame(f, p.frame)
    case None => None
    case Some(v) =>
      if |p.pcm| >= capacity || (|p.pcm| % 2 != 0 && !idle) then None
      else Some(p.(pcm := p.pcm + [v], frame := []))
  }

  function HeaderDone(p: Parser, capacity: nat): Option<Parser>
    requires |p.header| >= 8
  {
    var name, n := p.header[0..4], U32(p.header, 4);
    if p.received + n + n % 2 > p.fileBytes then None
    else
      var q := p.(remaining := n, chunkBytes := n, header := []);
      if name == FMT then
        if p.format.Some? || n < 16 then None else Some(q.(fmt := [], phase := FormatChunk))
      else if name == DATA then
        if p.format.None? || p.dataSeen || n == 0 || n % p.format.value.block != 0
           || n / p.format.value.block > capacity then None
        else Some(q.(phase := AudioData))
      else Some(if n == 0 then ChunkDone(q.(phase := Skip)) else q.(phase := Skip))
  }

  function RiffByte(p: Parser, byte: uint8): Option<Parser> {
    var q := p.(header := p.header + [byte]);
    if |q.header| < 12 then Some(q)
    else if q.header[0..4] != RIFF || q.header[8..12] != WAVE || U32(q.header, 4) + 8 != p.fileBytes then None
    else Some(q.(phase := ChunkHeader, header := []))
  }

  function HeaderByte(p: Parser, byte: uint8, capacity: nat): Option<Parser> {
    var q := p.(header := p.header + [byte]);
    if |q.header| < 8 then Some(q) else HeaderDone(q, capacity)
  }

  function FormatByte(p: Parser, byte: uint8): Option<Parser> {
    var q := p.(fmt := if |p.fmt| < 40 then p.fmt + [byte] else p.fmt, remaining := p.remaining - 1);
    if q.remaining != 0 then Some(q)
    else if FormatDone(q.fmt).None? then None
    else Some(ChunkDone(q.(format := FormatDone(q.fmt))))
  }

  function AudioByte(p: Parser, f: Format, byte: uint8, capacity: nat, idle: bool): Option<Parser> {
    var q := p.(frame := p.frame + [byte]);
    match if |q.frame| == f.block then EmitFrame(q, f, capacity, idle) else Some(q)
    case None => None
    case Some(e) =>
      if p.remaining == 1 then Some(ChunkDone(e.(remaining := 0, dataSeen := true)))
      else Some(e.(remaining := p.remaining - 1))
  }

  function SkipByte(p: Parser): Option<Parser> {
    if p.remaining == 1 then Some(ChunkDone(p.(remaining := 0))) else Some(p.(remaining := p.remaining - 1))
  }

  /** One byte, already counted. The audio phase is entered only with a known format. */
  function Feed(p: Parser, byte: uint8, capacity: nat, idle: bool): Option<Parser> {
    match p.phase
    case RiffHeader => RiffByte(p, byte)
    case ChunkHeader => HeaderByte(p, byte, capacity)
    case FormatChunk => FormatByte(p, byte)
    case AudioData => if p.format.None? then None else AudioByte(p, p.format.value, byte, capacity, idle)
    case Skip => SkipByte(p)
    case Pad => Some(p.(phase := ChunkHeader, header := []))
  }

  function Counted(p: Parser): Parser {
    p.(received := p.received + 1)
  }

  /** Whether playback is idle when a byte, by its position in the file, is parsed. */
  type Answers = nat -> bool

  function Always(): Answers {
    _ => true
  }

  /** One byte, counted and then fed. */
  function Step(p: Parser, byte: uint8, capacity: nat, idle: Answers): Option<Parser> {
    Feed(Counted(p), byte, capacity, idle(p.received))
  }

  function Run(p: Parser, bytes: seq<uint8>, capacity: nat, idle: Answers): Option<Parser>
    decreases |bytes|
  {
    if bytes == [] then Some(p)
    else match Step(p, bytes[0], capacity, idle)
      case None => None
      case Some(q) => Run(q, bytes[1..], capacity, idle)
  }

  /** Where a commit is possible, apart from the file checksum. */
  predicate Complete(p: Parser) {
    && p.received == p.fileBytes && p.format.Some? && p.dataSeen
    && p.phase == ChunkHeader && p.header == [] && p.frame == [] && p.pcm != []
  }

  // ----- Running in pieces

  function Then(r: Option<Parser>, bytes: seq<uint8>, capacity: nat, idle: Answers): Option<Parser> {
    if r.None? then None else Run(r.value, bytes, capacity, idle)
  }

  /** Splitting the input does not change the run: any sequence of append blocks is one stream. */
  lemma {:induction false} RunInPieces(p: Parser, a: seq<uint8>, b: seq<uint8>, capacity: nat, idle: Answers)
    ensures Run(p, a + b, capacity, idle) == Then(Run(p, a, capacity, idle), b, capacity, idle)
    decreases |a|
  {
    if a == [] {
      assert a + b == b;
    } else {
      assert (a + b)[1..] == a[1..] + b;
      var s := Step(p, a[0], capacity, idle);
      if s.Some? {
        RunInPieces(s.value, a[1..], b, capacity, idle);
      }
    }
  }

  lemma RunOne(p: Parser, byte: uint8, capacity: nat, idle: Answers)
    ensures Run(p, [byte], capacity, idle) == Step(p, byte, capacity, idle)
    ensures Run(p, [], capacity, idle) == Some(p)
  {
    hide Step;
    assert [byte][1..] == [];
  }

  /** All but the last byte, then the last. */
  lemma RunLast(p: Parser, bytes: seq<uint8>, capacity: nat, idle: Answers)
    requires bytes != []
    ensures var n := |bytes| - 1;
      var r := Run(p, bytes[..n], capacity, idle);
      Run(p, bytes, capacity, idle) == if r.None? then None else Step(r.value, bytes[n], capacity, idle)
  {
    hide Run, Step;
    var n := |bytes| - 1;
    assert bytes[n..] == [bytes[n]];
    assert bytes[..n] + bytes[n..] == bytes;
    RunInPieces(p, bytes[..n], bytes[n..], capacity, idle);
    var r := Run(p, bytes[..n], capacity, idle);
    if r.Some? {
      RunOne(r.value, bytes[n], capacity, idle);
    }
  }

  // ----- One chunk at a time

  lemma {:induction false} FillRiff(p: Parser, bytes: seq<uint8>, capacity: nat, idle: Answers)
    requires p.phase == RiffHeader && |p.header| + |bytes| < 12
    ensures Run(p, bytes, capacity, idle) == Some(p.(header := p.header + bytes, received := p.received + |bytes|))
    decreases |bytes|
  {
    if bytes != [] {
      var q := p.(header := p.header + [bytes[0]], received := p.received + 1);
      FillRiff(q, bytes[1..], capacity, idle);
      assert q.header + bytes[1..] == p.header + bytes;
    } else {
      assert p.header + bytes == p.header;
    }
  }

  lemma {:induction false} FillHeader(p: Parser, bytes: seq<uint8>, capacity: nat, idle: Answers)
    requires p.phase == ChunkHeader && |p.header| + |bytes| < 8
    ensures Run(p, bytes, capacity, idle) == Some(p.(header := p.header + bytes, received := p.received + |bytes|))
    decreases |bytes|
  {
    if bytes != [] {
      var q := p.(header := p.header + [bytes[0]], received := p.received + 1);
      FillHeader(q, bytes[1..], capacity, idle);
      assert q.header + bytes[1..] == p.header + bytes;
    } else {
      assert p.header + bytes == p.header;
    }
  }

  /** Eight bytes in a row decide the next chunk. */
  lemma ReadHeader(p: Parser, bytes: seq<uint8>, capacity: nat, idle: Answers)
    requires p.phase == ChunkHeader && p.header == [] && |bytes| == 8
    ensures Run(p, bytes, capacity, idle) == HeaderDone(p.(header := bytes, received := p.received + 8), capacity)
  {
    hide Run, HeaderDone;
    RunLast(p, bytes, capacity, idle);
    FillHeader(p, bytes[..7], capacity, idle);
    assert [] + bytes[..7] + [bytes[7]] == bytes;
  }

  lemma {:induction false} SkipRun(p: Parser, bytes: seq<uint8>, capacity: nat, idle: Answers)
    requires p.phase == Skip && |bytes| == p.remaining > 0
    ensures Run(p, bytes, capacity, idle) == Some(ChunkDone(p.(remaining := 0, received := p.received + |bytes|)))
    decreases |bytes|
  {
    if p.remaining > 1 {
      SkipRun(p.(remaining := p.remaining - 1, received := p.received + 1), bytes[1..], capacity, idle);
    } else {
      assert bytes[1..] == [];
    }
  }

  /** The first forty bytes of a chunk. */
  function Prefix40(bytes: seq<uint8>): seq<uint8> {
    if |bytes| <= 40 then bytes else bytes[..40]
  }

  lemma BufferByte(fmt: seq<uint8>, bytes: seq<uint8>)
    requires |fmt| <= 40 && bytes != []
    ensures Prefix40((if |fmt| < 40 then fmt + [bytes[0]] else fmt) + bytes[1..]) == Prefix40(fmt + bytes)
  {
  }

  lemma {:induction false} FormatRun(p: Parser, bytes: seq<uint8>, capacity: nat, idle: Answers)
    requires p.phase == FormatChunk && |bytes| == p.remaining > 0 && |p.fmt| <= 40
    ensures var fmt := Prefix40(p.fmt + bytes);
      Run(p, bytes, capacity, idle) ==
        if FormatDone(fmt).None? then None
        else Some(ChunkDone(p.(fmt := fmt, format := FormatDone(fmt), remaining := 0,
                               received := p.received + |bytes|)))
    decreases |bytes|
  {
    hide MixFrame, FormatDone;
    BufferByte(p.fmt, bytes);
    var buffered := if |p.fmt| < 40 then p.fmt + [bytes[0]] else p.fmt;
    if p.remaining > 1 {
      FormatRun(p.(fmt := buffered, remaining := p.remaining - 1, received := p.received + 1), bytes[1..], capacity,
                idle);
    } else {
      assert bytes[1..] == [];
      assert buffered + bytes[1..] == buffered;
    }
  }

  lemma {:induction false} FillFrame(p: Parser, bytes: seq<uint8>, capacity: nat, idle: Answers)
    requires p.phase == AudioData && p.format.Some?
    requires |p.frame| + |bytes| < p.format.value.block && |bytes| < p.remaining
    ensures Run(p, bytes, capacity, idle)
         == Some(p.(frame := p.frame + bytes, remaining := p.remaining - |bytes|, received := p.received + |bytes|))
    decreases |bytes|
  {
    hide MixFrame, FormatDone;
    if bytes != [] {
      var q := p.(frame := p.frame + [bytes[0]], remaining := p.remaining - 1, received := p.received + 1);
      FillFrame(q, bytes[1..], capacity, idle);
      assert q.frame + bytes[1..] == p.frame + bytes;
    } else {
      assert p.frame + bytes == p.frame;
    }
  }

  /** After a whole frame: one more sample, or the end of the chunk. */
  function AfterFrame(p: Parser, block: nat, v: int16): Parser {
    var q := p.(pcm := p.pcm + [v], frame := [], remaining := p.remaining - block, received := p.received + block);
    if q.remaining == 0 then ChunkDone(q.(dataSeen := true)) else q
  }

  lemma BlockPositive(f: Format)
    ensures f.block >= 1
  {
  }

  lemma AfterFrameDropsFrame(p: Parser, block: nat, frame: seq<uint8>)
    ensures forall v :: AfterFrame(p.(frame := frame), block, v) == AfterFrame(p, block, v)
  {
  }

  lemma FrameLast(p: Parser, f: Format, byte: uint8, capacity: nat)
    requires p.phase == AudioData && p.format == Some(f) && |p.frame| == f.block - 1
    requires p.remaining > 0 && |p.pcm| < capacity
    ensures var v := MixFrame(f, p.frame + [byte]);
      Step(p, byte, capacity, Always()) ==
        if v.None? then None
        else Some(AfterFrame(p.(remaining := p.remaining + |p.frame|, received := p.received - |p.frame|), f.block,
                             v.value))
    requires p.received >= |p.frame|
  {
    hide MixFrame;
  }

  lemma FrameRun(p: Parser, bytes: seq<uint8>, capacity: nat)
    requires p.phase == AudioData && p.frame == [] && p.format.Some?
    requires |bytes| == p.format.value.block <= p.remaining && |p.pcm| < capacity
    ensures var v := MixFrame(p.format.value, bytes);
      Run(p, bytes, capacity, Always()) == if v.None? then None else Some(AfterFrame(p, |bytes|, v.value))
  {
    hide Run, Step, MixFrame, AfterFrame, Always, Supported;
    BlockPositive(p.format.value);
    var n := |bytes| - 1;
    var head, last := bytes[..n], bytes[n];
    RunLast(p, bytes, capacity, Always());
    FillFrame(p, head, capacity, Always());
    var q := p.(frame := head, remaining := p.remaining - n, received := p.received + n);
    assert [] + head == head;
    assert head + [last] == bytes;
    FrameLast(q, p.format.value, last, capacity);
    assert q.(remaining := q.remaining + n, received := q.received - n) == p.(frame := head);
    AfterFrameDropsFrame(p, p.format.value.block, head);
  }

  /** The parser after a data chunk whose samples are `s`. */
  function AfterData(p: Parser, bytes: nat, s: seq<int16>): Parser {
    ChunkDone(p.(pcm := p.pcm + s, frame := [], dataSeen := true, remaining := 0, received := p.received + bytes))
  }

  lemma {:induction false} DataRun(p: Parser, f: Format, bytes: seq<uint8>, capacity: nat)
    requires p.phase == AudioData && p.frame == [] && p.format == Some(f)
    requires |bytes| == p.remaining > 0 && |bytes| % f.block == 0
    requires |p.pcm| + |bytes| / f.block <= capacity
    ensures var s := MixFrames(f, bytes);
      Run(p, bytes, capacity, Always()) == if s.None? then None else Some(AfterData(p, |bytes|, s.value))
    decreases |bytes|
  {
    hide Run, Step, MixFrame;
    BlockDivides(f, bytes);
    var head, tail := bytes[..f.block], bytes[f.block..];
    assert head + tail == bytes;
    RunInPieces(p, head, tail, capacity, Always());
    FrameRun(p, head, capacity);
    var first := MixFrame(f, head);
    if first.Some? {
      var rest := MixFrames(f, tail);
      if tail == [] {
        RunOne(AfterFrame(p, f.block, first.value), 0, capacity, Always());
        assert p.pcm + ([first.value] + []) == p.pcm + [first.value];
      } else {
        DataRun(AfterFrame(p, f.block, first.value), f, tail, capacity);
        if rest.Some? {
          assert p.pcm + [first.value] + rest.value == p.pcm + ([first.value] + rest.value);
        }
      }
    }
  }

  // ----- The whole file

  function BoardLimits(capacity: nat): Limits {
    Limits(Some(AUDIO_HZ), Some(capacity))
  }

  /** Parser and host agree at a chunk boundary. */
  predicate AtBoundary(p: Parser, d: seq<uint8>, at: nat, s: Findings)
    requires WellFormed(d, s)
  {
    && p.phase == ChunkHeader && p.header == [] && p.frame == []
    && at <= |d| == p.fileBytes && p.received == at
    && p.format == (if s.format.Some? then Some(s.format.value.format) else None)
    && p.dataSeen == s.audio.Some?
    && Decoded(d, s) == Some(p.pcm)
    && (p.dataSeen ==> p.pcm != [])
    && (s.format.Some? ==> s.format.value.rate == AUDIO_HZ)
  }

  /** The board's reading of the buffered format chunk is the host's reading of the file. */
  lemma FormatsAgree(d: seq<uint8>, start: nat, length: nat, capacity: nat)
    requires 16 <= length && start + length <= |d|
    ensures var host := ParseFormat(d, start, length, BoardLimits(capacity));
      var board := FormatDone(Prefix40(d[start..start + length]));
      && (host.Some? <==> board.Some?)
      && (host.Some? ==> host.value == HostFormat(board.value, AUDIO_HZ))
  {
    var n := if length <= 40 then length else 40;
    var end := start + n;
    var fmt := d[start..end];
    assert Prefix40(d[start..start + length]) == fmt;
    assert U16(fmt, 0) == U16(d, start) by { U16OfSlice(d, start, end, 0); }
    assert U16(fmt, 2) == U16(d, start + 2) by { U16OfSlice(d, start, end, 2); }
    assert U32(fmt, 4) == U32(d, start + 4) by { U32OfSlice(d, start, end, 4); }
    assert U32(fmt, 8) == U32(d, start + 8) by { U32OfSlice(d, start, end, 8); }
    assert U16(fmt, 12) == U16(d, start + 12) by { U16OfSlice(d, start, end, 12); }
    assert U16(fmt, 14) == U16(d, start + 14) by { U16OfSlice(d, start, end, 14); }
    if length >= 40 {
      assert U16(fmt, 16) == U16(d, start + 16) by { U16OfSlice(d, start, end, 16); }
      assert U16(fmt, 18) == U16(d, start + 18) by { U16OfSlice(d, start, end, 18); }
      assert U32(fmt, 24) == U32(d, start + 24) by { U32OfSlice(d, start, end, 24); }
      assert fmt[28..40] == d[start + 28..start + 40] by { SliceOfSlice(d, start, end, 28, 40); }
    }
  }

  /** Within the capacity, the host's remaining demand on a data chunk is that its samples are numbers. */
  lemma AudioAgrees(d: seq<uint8>, start: nat, n: nat, h: HostFormat, capacity: nat)
    requires h.rate == AUDIO_HZ && capacity <= TX_MAX_SAMPLES
    requires start + n <= |d| && n > 0 && n % h.format.block == 0
    ensures var s := MixFrames(h.format, d[start..start + n]);
      && (AudioAccepted(d, start, n, h, BoardLimits(capacity)) <==> n / h.format.block <= capacity && s.Some?)
      && (s.Some? ==> s.value != [])
  {
    hide MixFrame, MixFrames, NanOrInfinity;
    var body := d[start..start + n];
    MixFramesFailure(h.format, body);
    MixFramesLength(h.format, body);
    AtLeastOneFrame(h.format, n);
    forall w | 0 <= w < n / 4 ensures WordNotFinite(body, w) == WordNotFinite(d[start..], w) {
      SliceOfSlice(d, start, start + n, 4 * w, 4 * w + 4);
      assert d[start..|d|] == d[start..];
      SliceOfSlice(d, start, |d|, 4 * w, 4 * w + 4);
    }
  }

  lemma AtLeastOneFrame(f: Format, n: nat)
    requires n > 0 && n % f.block == 0
    ensures n / f.block >= 1
  {
    DivBounds(n, f.block);
  }

  /** Zero or one pad byte after a chunk. */
  lemma PadRun(p: Parser, pad: seq<uint8>, capacity: nat)
    requires (p.phase == ChunkHeader && pad == []) || (p.phase == Pad && |pad| == 1)
    requires p.header == []
    ensures Run(p, pad, capacity, Always()) == Some(p.(phase := ChunkHeader, received := p.received + |pad|))
  {
    if p.phase == Pad {
      assert pad[1..] == [];
    }
  }

  /** A format chunk, header already read. */
  lemma FormatBody(p: Parser, d: seq<uint8>, at: nat, n: nat, s: Findings, capacity: nat)
    requires WellFormed(d, s) && AtBoundary(p, d, at, s) && s.format.None?
    requires 16 <= n && at + 8 + n <= |d|
    ensures var q := p.(received := at + 8, remaining := n, chunkBytes := n, fmt := [], phase := FormatChunk);
      var r := Run(q, d[at + 8..at + 8 + n], capacity, Always());
      var host := ParseFormat(d, at + 8, n, BoardLimits(capacity));
      && (r.Some? <==> host.Some?)
      && (r.Some? ==> AfterChunk(r.value, d, at, n, s.(format := host)))
  {
    hide Run, FormatDone, ParseFormat, MixFrames;
    var q := p.(received := at + 8, remaining := n, chunkBytes := n, fmt := [], phase := FormatChunk);
    var body := d[at + 8..at + 8 + n];
    FormatRun(q, body, capacity, Always());
    assert [] + body == body;
    FormatsAgree(d, at + 8, n, capacity);
  }

  /** A data chunk, header already read. */
  lemma DataBody(p: Parser, d: seq<uint8>, at: nat, n: nat, s: Findings, capacity: nat)
    requires WellFormed(d, s) && AtBoundary(p, d, at, s) && s.format.Some? && s.audio.None?
    requires n > 0 && at + 8 + n <= |d| && capacity <= TX_MAX_SAMPLES
    requires n % s.format.value.format.block == 0 && n / s.format.value.format.block <= capacity
    ensures var q := p.(received := at + 8, remaining := n, chunkBytes := n, phase := AudioData);
      var r, host := Run(q, d[at + 8..at + 8 + n], capacity, Always()),
                     AudioAccepted(d, at + 8, n, s.format.value, BoardLimits(capacity));
      && (r.Some? <==> host)
      && (r.Some? ==> AfterChunk(r.value, d, at, n, s.(audio := Some(Audio(at + 8, n)))))
  {
    hide Run, MixFrames, AudioAccepted;
    var q := p.(received := at + 8, remaining := n, chunkBytes := n, phase := AudioData);
    var body := d[at + 8..at + 8 + n];
    DataRun(q, s.format.value.format, body, capacity);
    AudioAgrees(d, at + 8, n, s.format.value, capacity);
    var samples := MixFrames(s.format.value.format, body);
    if samples.Some? {
      assert [] + samples.value == samples.value;
    }
  }

  /** After a chunk body: at the next boundary but for a pad byte. */
  predicate AfterChunk(p: Parser, d: seq<uint8>, at: nat, n: nat, s: Findings) {
    && WellFormed(d, s)
    && p.phase == (if n % 2 != 0 then Pad else ChunkHeader)
    && p.received == at + 8 + n
    && AtBoundary(p.(phase := ChunkHeader, received := at), d, at, s)
  }

  /** One chunk body: the board gets past it exactly when the host does. */
  lemma BodyRun(p: Parser, d: seq<uint8>, at: nat, s: Findings, capacity: nat)
    requires WellFormed(d, s) && AtBoundary(p, d, at, s) && capacity <= TX_MAX_SAMPLES
    requires at + 8 <= |d| && NextChunk(d, at) <= |d|
    ensures var n := U32(d, at + 4);
      var q := HeaderDone(p.(header := d[at..at + 8], received := at + 8), capacity);
      var r, c := Then(q, d[at + 8..at + 8 + n], capacity, Always()), Chunk(d, at, s, BoardLimits(capacity));
      && (r.Some? <==> c.Some?)
      && (r.Some? ==> AfterChunk(r.value, d, at, n, c.value))
  {
    hide Run, MixFrames, HasNonFinite, FrameLimit, FormatDone, ParseFormat;
    var n := U32(d, at + 4);
    U32OfSlice(d, at, at + 8, 4);
    SliceOfSlice(d, at, at + 8, 0, 4);
    var name := d[at..at + 4];
    if name == FMT {
      if s.format.None? && n >= 16 {
        FormatBody(p, d, at, n, s, capacity);
      }
    } else if name == DATA {
      if s.format.Some? && s.audio.None? && n > 0 && n % s.format.value.format.block == 0 {
        AudioAgrees(d, at + 8, n, s.format.value, capacity);
        if n / s.format.value.format.block <= capacity {
          DataBody(p, d, at, n, s, capacity);
        }
      }
    } else {
      SkipBody(p, d, at, n, s, capacity);
    }
  }

  lemma SkipBody(p: Parser, d: seq<uint8>, at: nat, n: nat, s: Findings, capacity: nat)
    requires WellFormed(d, s) && AtBoundary(p, d, at, s) && at + 8 + n <= |d|
    ensures var q := p.(received := at + 8, remaining := n, chunkBytes := n, phase := Skip);
      var r := Run(if n == 0 then ChunkDone(q) else q, d[at + 8..at + 8 + n], capacity, Always());
      r.Some? && AfterChunk(r.value, d, at, n, s)
  {
    hide MixFrames;
    var q := p.(received := at + 8, remaining := n, chunkBytes := n, phase := Skip);
    var body := d[at + 8..at + 8 + n];
    if n > 0 {
      SkipRun(q, body, capacity, Always());
    }
  }

  /** A whole chunk, pad included, from boundary to boundary. */
  lemma ChunkRun(p: Parser, d: seq<uint8>, at: nat, s: Findings, capacity: nat)
    requires WellFormed(d, s) && AtBoundary(p, d, at, s) && capacity <= TX_MAX_SAMPLES
    requires at + 8 <= |d| && NextChunk(d, at) <= |d|
    ensures var next := NextChunk(d, at);
      var r, c := Run(p, d[at..next], capacity, Always()), Chunk(d, at, s, BoardLimits(capacity));
      && (r.Some? <==> c.Some?)
      && (r.Some? ==> AtBoundary(r.value, d, next, c.value))
  {
    hide Run, HeaderDone, Chunk, MixFrames;
    var n, next := U32(d, at + 4), NextChunk(d, at);
    var header, body, pad := d[at..at + 8], d[at + 8..at + 8 + n], d[at + 8 + n..next];
    assert d[at..next] == header + (body + pad);
    RunInPieces(p, header, body + pad, capacity, Always());
    ReadHeader(p, header, capacity, Always());
    BodyRun(p, d, at, s, capacity);
    var q := HeaderDone(p.(header := header, received := at + 8), capacity);
    if q.Some? {
      RunInPieces(q.value, body, pad, capacity, Always());
      var r := Run(q.value, body, capacity, Always());
      if r.Some? {
        PadRun(r.value, pad, capacity);
      }
    }
  }

  /** A chunk that does not fit in the rest of the file stops the board as it stops the host. */
  lemma OverlongChunk(p: Parser, d: seq<uint8>, at: nat, s: Findings, capacity: nat)
    requires WellFormed(d, s) && AtBoundary(p, d, at, s)
    requires at + 8 <= |d| < NextChunk(d, at)
    ensures Run(p, d[at..], capacity, Always()).None?
  {
    hide Run, MixFrames;
    var header := d[at..at + 8];
    assert d[at..] == header + d[at + 8..];
    RunInPieces(p, header, d[at + 8..], capacity, Always());
    ReadHeader(p, header, capacity, Always());
    U32OfSlice(d, at, at + 8, 4);
  }

  /** From any chunk boundary the parser finishes completely exactly when the host accepts. */
  lemma {:induction false} ChunksAgree(p: Parser, d: seq<uint8>, at: nat, s: Findings, capacity: nat)
    requires WellFormed(d, s) && AtBoundary(p, d, at, s) && capacity <= TX_MAX_SAMPLES
    ensures var r, host := Run(p, d[at..], capacity, Always()), Chunks(d, at, s, BoardLimits(capacity));
      && (host.Some? <==> r.Some? && Complete(r.value))
      && (host.Some? ==> Decoded(d, Findings(Some(host.value.format), Some(host.value.audio))) == Some(r.value.pcm))
    decreases |d| - at
  {
    hide Run, HeaderDone, Chunk, MixFrames, Always;
    if at == |d| {
      assert d[at..] == [];
      RunOne(p, 0, capacity, Always());
    } else if at + 8 > |d| {
      FillHeader(p, d[at..], capacity, Always());
    } else if NextChunk(d, at) > |d| {
      OverlongChunk(p, d, at, s, capacity);
    } else {
      var next := NextChunk(d, at);
      SplitAt(d, at, next);
      RunInPieces(p, d[at..next], d[next..], capacity, Always());
      ChunkRun(p, d, at, s, capacity);
      var r := Run(p, d[at..next], capacity, Always());
      if r.Some? {
        ChunksAgree(r.value, d, next, Chunk(d, at, s, BoardLimits(capacity)).value, capacity);
      }
    }
  }

  lemma RiffRun(d: seq<uint8>, capacity: nat)
    requires |d| >= 12
    ensures Run(Start(|d|), d[..12], capacity, Always()) ==
      if d[0..4] == RIFF && d[8..12] == WAVE && U32(d, 4) + 8 == |d|
      then Some(Start(|d|).(phase := ChunkHeader, received := 12)) else None
  {
    hide Run;
    var head := d[..12];
    RunLast(Start(|d|), head, capacity, Always());
    FillRiff(Start(|d|), head[..11], capacity, Always());
    assert [] + head[..11] + [head[11]] == head;
    assert head[0..4] == d[0..4] && head[8..12] == d[8..12] && head[4..8] == d[4..8];
  }

  /** Streaming a file through the board's parser accepts exactly what the host's check accepts. */
  lemma StreamingIsInspection(d: seq<uint8>, capacity: nat)
    requires 44 <= |d| <= MAX_FILE_BYTES && capacity <= TX_MAX_SAMPLES
    ensures var r, limits := Run(Start(|d|), d, capacity, Always()), BoardLimits(capacity);
      && (Inspect(d, limits).Some? <==> r.Some? && Complete(r.value))
      && (Inspect(d, limits).Some? ==>
        && DecodedFile(d, limits) == Some(r.value.pcm)
        && Inspect(d, limits).value.Samples() == |r.value.pcm|)
  {
    hide Run, Chunks, MixFrames;
    assert d == d[..12] + d[12..];
    RunInPieces(Start(|d|), d[..12], d[12..], capacity, Always());
    RiffRun(d, capacity);
    if Container(d) {
      ChunksAgree(Start(|d|).(phase := ChunkHeader, received := 12), d, 12, Findings(None, None), capacity);
      var host := Inspect(d, BoardLimits(capacity));
      if host.Some? {
        var a := host.value.audio;
        MixFramesLength(host.value.format.format, d[a.offset..a.offset + a.bytes]);
      }
    }
  }
}
