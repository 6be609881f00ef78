/**
 Uploading a waveform: the parser's fields updated byte by byte while converted frames go straight into
 playback memory, and the history of waveforms committed so far.
 */
module WaveformUpload {
  import opened MachineIntegers
  import opened Options
  import opened LittleEndian
  import opened Crc32
  import opened TxBram
  import opened WavSamples
  import opened WavFormat
  import opened WaveformParser

  /** The bytes the waveform checksum covers: PCM16, least significant byte first. */
  function PcmBytes(pcm: seq<int16>): seq<uint8> {
    if pcm == [] then []
    else
      var p := Pattern(pcm[|pcm| - 1]);
      PcmBytes(pcm[..|pcm| - 1]) + [p % 0x100, p / 0x100]
  }

  lemma PcmBytesStep(pcm: seq<int16>, v: int16, crc: uint32)
    requires crc == Update(UINT32_MAX, PcmBytes(pcm))
    ensures Update(UINT32_MAX, PcmBytes(pcm + [v])) == Byte(Byte(crc, Pattern(v) % 0x100), Pattern(v) / 0x100)
  {
    hide Byte;
    var low, high := Pattern(v) % 0x100, Pattern(v) / 0x100;
    assert (pcm + [v])[..|pcm|] == pcm;
    var bytes := PcmBytes(pcm);
    assert PcmBytes(pcm + [v]) == bytes + [low, high];
    assert (bytes + [low, high])[..|bytes| + 1] == bytes + [low];
    assert (bytes + [low])[..|bytes|] == bytes;
  }

  lemma NothingConverted()
    ensures Update(UINT32_MAX, PcmBytes([])) == UINT32_MAX
  {
  }

  /** Sample `i` is in place: its original, and the copy that is played, at the gain set last for it. */
  predicate InPlace(word: uint32, v: int16, percent: nat) {
    percent <= 100 && Upper(word) == Pattern(v) && Lower(word) == Pattern(ScaledSample(v, percent))
  }

  /** The first `n` samples are in place. */
  predicate Stored(words: seq<uint32>, pcm: seq<int16>, gains: seq<nat>, n: nat) {
    n <= |pcm| && n <= |words| && n <= |gains| && forall i :: 0 <= i < n ==> InPlace(words[i], pcm[i], gains[i])
  }

  /** The first `n` samples are played at `percent` of their originals. */
  predicate AtGain(gains: seq<nat>, percent: nat, n: nat) {
    n <= |gains| && forall i :: 0 <= i < n ==> gains[i] == percent
  }

  /** A whole waveform in memory as committed, its played copies scaled from it. */
  predicate Played(words: seq<uint32>, pcm: seq<int16>, percent: nat) {
    |pcm| <= |words| && forall i :: 0 <= i < |pcm| ==> InPlace(words[i], pcm[i], percent)
  }

  lemma StoredIsPlayed(words: seq<uint32>, pcm: seq<int16>, gains: seq<nat>, percent: nat)
    requires Stored(words, pcm, gains, |pcm|) && AtGain(gains, percent, |pcm|)
    ensures Played(words, pcm, percent)
  {
    hide InPlace;
  }

  /** A word as it is uploaded plays the original itself. */
  lemma UploadedInPlace(v: int16)
    ensures InPlace(Pack(Pattern(v), Pattern(v)), v, 100)
  {
    ScalingRounds(v, 100);
  }

  /** The gains after the pair at `pair` was uploaded. */
  function PairAt(gains: seq<nat>, pair: nat): seq<nat>
    requires 2 * pair < |gains|
  {
    var first := gains[2 * pair := 100];
    if 2 * pair + 1 < |gains| then first[2 * pair + 1 := 100] else first
  }

  lemma NothingStored(words: seq<uint32>, gains: seq<nat>)
    ensures Stored(words, [], gains, 0) && AtGain(gains, 100, 0)
  {
  }

  function Flatten(blocks: seq<seq<uint8>>): seq<uint8> {
    if blocks == [] then [] else Flatten(blocks[..|blocks| - 1]) + blocks[|blocks| - 1]
  }

  /** The scalar members of the board's parser structure. */
  datatype ParserFields = ParserFields(
    phase: Phase, used: nat, fmtUsed: nat, frameUsed: nat, remaining: nat, chunkBytes: nat,
    format: FormatFields, fmtSeen: bool, dataSeen: bool,
    samples: nat, pcmCrc: uint32, pendingWord: uint16,
    fileBytes: nat, expectedCrc: uint32, fileCrc: uint32, received: nat)

  const CLEARED := ParserFields(RiffHeader, 0, 0, 0, 0, 0, Format(0, 0, 0, 0), false, false, 0, 0, 0, 0, 0, 0, 0)

  class Uploader {
    const bram: Bram
    const header: array<uint8>
    const fmt: array<uint8>
    const frame: array<uint8>

    var parser: ParserFields
    var uploading: bool
    var locked: bool
    var currentId: uint32
    var nextId: uint32
    var currentSamples: nat
    var currentCrc: uint32

    /** Samples emitted by the upload in progress. */
    ghost var pcm: seq<int16>
    /** The percentage each played copy was scaled with last; an upload writes originals, which is 100. */
    ghost var gains: seq<nat>
    /** Whether a gain was set during the upload in progress. */
    ghost var rescaled: bool
    /** Every waveform committed since reset; waveform id `k` is entry `k - 1`. */
    ghost var history: seq<seq<int16>>

    ghost predicate Shape()
      reads this`parser, this`gains
    {
      && header.Length == 12 && fmt.Length == 40 && frame.Length == 8
      && header != fmt && header != frame && fmt != frame
      && bram.Valid() && |gains| == bram.capacity
      && parser.used <= 12 && parser.fmtUsed <= 40 && parser.frameUsed <= 8
      && (parser.fmtSeen ==> Supported(parser.format))
    }

    ghost function View(): Parser
      requires Shape()
      reads this`parser, this`pcm, this`gains, header, fmt, frame
    {
      Parser(parser.phase, header[..parser.used], fmt[..parser.fmtUsed], frame[..parser.frameUsed],
             parser.remaining, parser.chunkBytes, if parser.fmtSeen then Some(parser.format) else None,
             parser.dataSeen, parser.fileBytes, parser.received, pcm)
    }

    /** What has been emitted is counted, summed and, in pairs, stored. */
    ghost predicate Converted()
      reads this`parser, this`pcm, this`gains, this`rescaled, bram.words
    {
      && parser.samples == |pcm| <= bram.capacity
      && parser.pcmCrc == Update(UINT32_MAX, PcmBytes(pcm))
      && (parser.samples % 2 == 1 ==> parser.pendingWord == Pattern(pcm[parser.samples - 1]))
      && Stored(bram.words[..], pcm, gains, parser.samples / 2 * 2)
      && (!rescaled ==> AtGain(gains, 100, parser.samples / 2 * 2))
    }

    /** Between bytes, the counters say there is room for the next one. */
    ghost predicate Ready()
      reads this`parser
    {
      && (parser.phase == RiffHeader ==> parser.used < 12)
      && (parser.phase == ChunkHeader ==> parser.used < 8)
      && (parser.phase == FormatChunk || parser.phase == AudioData || parser.phase == Skip ==> parser.remaining > 0)
      && (parser.phase == AudioData ==> parser.fmtSeen)
      && (parser.phase == FormatChunk ==> !parser.fmtSeen)
      && (if parser.fmtSeen then parser.frameUsed < parser.format.block else parser.frameUsed == 0)
    }

    ghost predicate Parsing()
      reads this, bram, bram.words
    {
      && Ready() && Converted()
      && bram.initialized && currentId == 0 && nextId < UINT32_MAX && parser.received <= parser.fileBytes
    }

    /** The current waveform, if any, is the last one committed and its originals are in memory. */
    ghost predicate CurrentInMemory()
      reads this, bram, bram.words
    {
      && nextId == |history|
      && (currentId != 0 ==> Holds(history))
    }

    ghost predicate Holds(h: seq<seq<int16>>)
      requires currentId != 0
      reads this, bram, bram.words
    {
      && currentId == nextId == |h|
      && currentSamples == |h[currentId - 1]|
      && 0 < currentSamples <= bram.capacity
      && currentCrc == Crc(PcmBytes(h[currentId - 1]))
      && Stored(bram.words[..], h[currentId - 1], gains, currentSamples)
    }

    ghost predicate Valid()
      reads this, bram, bram.words
    {
      Shape() && CurrentInMemory() && (uploading ==> Parsing())
    }

    constructor (bram: Bram)
      requires bram.Valid()
      ensures Valid() && this.bram == bram && history == [] && currentId == 0 && !uploading && !locked
      ensures fresh(header) && fresh(fmt) && fresh(frame)
    {
      this.bram := bram;
      header, fmt, frame := new uint8[12], new uint8[40], new uint8[8];
      parser := CLEARED;
      uploading, locked := false, false;
      currentId, nextId, currentSamples, currentCrc := 0, 0, 0, 0;
      pcm, history := [], [];
      gains, rescaled := seq(bram.capacity, _ => 100), false;
    }

    /** Starting an upload invalidates the current waveform before anything is overwritten. */
    method Begin(bytes: nat, crc: uint32) returns (ok: bool)
      requires Valid()
      modifies this, bram`initialized
      ensures Valid()
      ensures ok == (!old(locked) && !old(uploading) && 44 <= bytes <= MAX_FILE_BYTES && old(nextId) != UINT32_MAX)
      ensures ok ==> uploading && currentId == 0 && View() == Start(bytes) && !rescaled
      ensures ok ==> parser.expectedCrc == crc && parser.fileCrc == UINT32_MAX
      ensures !ok ==> unchanged(this, bram)
      ensures history == old(history) && nextId == old(nextId) && locked == old(locked)
    {
      hide Byte, Update, PcmBytes, Supported, Holds, Stored, AtGain, Ready, Converted, Parsing, Start;
      if locked || uploading || bytes < 44 || bytes > MAX_FILE_BYTES || nextId == UINT32_MAX {
        return false;
      }
      Restart(bytes, crc);
      return true;
    }

    method Restart(bytes: nat, crc: uint32)
      requires Shape() && nextId == |history| < UINT32_MAX
      modifies this, bram`initialized
      ensures Valid() && uploading && currentId == 0 && View() == Start(bytes) && !rescaled
      ensures parser.expectedCrc == crc && parser.fileCrc == UINT32_MAX
      ensures history == old(history) && nextId == old(nextId) && locked == old(locked)
    {
      hide Byte, Update, PcmBytes, Supported, Holds, Stored, AtGain, Ready, Converted;
      var ready := bram.Init();
      ClearParser(bytes, crc);
      currentId, currentSamples, currentCrc := 0, 0, 0;
      uploading := true;
    }

    method ClearParser(bytes: nat, crc: uint32)
      requires Shape()
      modifies this`parser, this`pcm, this`rescaled
      ensures Shape() && Ready() && Converted() && !rescaled && View() == Start(bytes)
      ensures parser.expectedCrc == crc && parser.fileCrc == UINT32_MAX
    {
      hide Byte, Update, PcmBytes, Supported, Stored, AtGain;
      parser := CLEARED.(fileBytes := bytes, expectedCrc := crc, fileCrc := UINT32_MAX, pcmCrc := UINT32_MAX);
      pcm, rescaled := [], false;
      NothingConverted();
      NothingStored(bram.words[..], gains);
      assert header[..0] == [] && fmt[..0] == [] && frame[..0] == [];
    }

    method EmitFrame(idle: bool) returns (ok: bool)
      requires Shape() && parser.fmtSeen && parser.frameUsed == parser.format.block && Converted() && bram.initialized
      modifies this`parser, this`pcm, this`gains, bram.words
      ensures Shape()
      ensures ok == WaveformParser.EmitFrame(old(View()), old(parser).format, bram.capacity, idle).Some?
      ensures ok ==> Converted() && parser.frameUsed == 0
      ensures ok ==> View() == WaveformParser.EmitFrame(old(View()), old(parser).format, bram.capacity, idle).value
      ensures parser == old(parser).(samples := parser.samples, pcmCrc := parser.pcmCrc,
                                     pendingWord := parser.pendingWord, frameUsed := parser.frameUsed)
    {
      hide MixFrame, Supported, Byte, Update, PcmBytes, Stored, AtGain;
      var mixed := MixFrame(parser.format, frame[..parser.frameUsed]);
      if mixed.None? || parser.samples >= bram.capacity {
        return false;
      }
      ok := StoreSample(mixed.value, idle);
      if ok {
        parser := parser.(frameUsed := 0);
        assert frame[..0] == [];
      }
    }

    /** One converted sample more: summed, and stored once it completes a pair. */
    method StoreSample(v: int16, idle: bool) returns (ok: bool)
      requires Shape() && Converted() && bram.initialized && parser.samples < bram.capacity
      modifies this`parser, this`pcm, this`gains, bram.words
      ensures Shape() && ok == (|old(pcm)| % 2 == 1 ==> idle)
      ensures ok ==> Converted() && pcm == old(pcm) + [v]
      ensures parser == old(parser).(samples := parser.samples, pcmCrc := parser.pcmCrc,
                                     pendingWord := parser.pendingWord)
    {
      hide Byte, Update, PcmBytes, Supported, Stored, AtGain, PairAt;
      PcmBytesStep(pcm, v, parser.pcmCrc);
      var crc := Byte(Byte(parser.pcmCrc, Pattern(v) % 0x100), Pattern(v) / 0x100);
      if parser.samples % 2 == 0 {
        StillStored(bram.words[..], pcm, v, gains, |pcm|);
        parser := parser.(pcmCrc := crc, pendingWord := Pattern(v), samples := parser.samples + 1);
      } else {
        ok := StorePair(v, idle);
        parser := parser.(pcmCrc := crc);
        if !ok {
          return;
        }
        parser := parser.(samples := parser.samples + 1);
      }
      pcm := pcm + [v];
      return true;
    }

    /** Writes the pending sample and its successor. */
    method StorePair(v: int16, idle: bool) returns (ok: bool)
      requires Shape() && Converted() && bram.initialized && parser.samples < bram.capacity && |pcm| % 2 == 1
      modifies this`gains, bram.words
      ensures |gains| == bram.capacity && ok == idle
      ensures ok ==> Stored(bram.words[..], pcm + [v], gains, |pcm| + 1)
      ensures ok && !rescaled ==> AtGain(gains, 100, |pcm| + 1)
    {
      hide Byte, Update, PcmBytes, Supported, Stored, AtGain, PairAt;
      ghost var words := bram.words[..];
      ok := bram.Write(parser.samples / 2, parser.pendingWord, Pattern(v), idle);
      if ok {
        PairInPlace(words, bram.words[..], pcm, gains, v);
        gains := PairAt(gains, parser.samples / 2);
      }
    }

    /** Writing the pair of the last two samples puts one pair more in place, at full amplitude. */
    static lemma PairInPlace(before: seq<uint32>, after: seq<uint32>, pcm: seq<int16>, gains: seq<nat>, v: int16)
      requires |before| == |after| == |gains| && |pcm| % 2 == 1 && |pcm| < |after|
      requires Stored(before, pcm, gains, |pcm| - 1)
      requires after[|pcm| - 1] == Pack(Pattern(pcm[|pcm| - 1]), Pattern(pcm[|pcm| - 1]))
      requires after[|pcm|] == Pack(Pattern(v), Pattern(v))
      requires forall i :: 0 <= i < |after| && i / 2 != |pcm| / 2 ==> after[i] == before[i]
      ensures |PairAt(gains, |pcm| / 2)| == |gains|
      ensures Stored(after, pcm + [v], PairAt(gains, |pcm| / 2), |pcm| + 1)
      ensures AtGain(gains, 100, |pcm| - 1) ==> AtGain(PairAt(gains, |pcm| / 2), 100, |pcm| + 1)
    {
      hide InPlace;
      var n, all, set_ := |pcm| - 1, pcm + [v], PairAt(gains, |pcm| / 2);
      UploadedInPlace(pcm[n]);
      UploadedInPlace(v);
      forall i | 0 <= i <= |pcm| ensures InPlace(after[i], all[i], set_[i]) {
        if i < n {
          assert InPlace(before[i], pcm[i], gains[i]);
        }
      }
    }

    /** A word more than what is stored may change. */
    static lemma StillStored(words: seq<uint32>, pcm: seq<int16>, v: int16, gains: seq<nat>, n: nat)
      requires Stored(words, pcm, gains, n)
      ensures Stored(words, pcm + [v], gains, n)
    {
      hide InPlace;
    }

    method FinishChunk()
      requires Shape()
      modifies this`parser
      ensures Shape() && View() == ChunkDone(old(View()))
      ensures parser == old(parser).(phase := parser.phase, used := 0)
    {
      assert header[..0] == [];
      parser := parser.(phase := if parser.chunkBytes % 2 != 0 then Pad else ChunkHeader, used := 0);
    }

    method FinishHeader() returns (ok: bool)
      requires Shape() && parser.used == 8
      modifies this`parser
      ensures Shape()
      ensures ok == HeaderDone(old(View()), bram.capacity).Some?
      ensures ok ==> View() == HeaderDone(old(View()), bram.capacity).value
      ensures ok && (if old(parser).fmtSeen then parser.frameUsed < parser.format.block else parser.frameUsed == 0) ==>
        Ready()
      ensures parser == old(parser).(phase := parser.phase, used := parser.used, remaining := parser.remaining,
                                     chunkBytes := parser.chunkBytes, fmtUsed := parser.fmtUsed)
    {
      ghost var was := View();
      var name, n := header[0..4], U32(header[..], 4);
      assert was.header[0..4] == name && was.header[4..8] == header[..][4..8];
      if parser.received + n + n % 2 > parser.fileBytes {
        return false;
      }
      parser := parser.(remaining := n, chunkBytes := n, used := 0);
      assert header[..0] == [] && fmt[..0] == [];
      if name == FMT {
        if parser.fmtSeen || n < 16 {
          return false;
        }
        parser := parser.(fmtUsed := 0, phase := FormatChunk);
      } else if name == DATA {
        if !parser.fmtSeen || parser.dataSeen || n == 0 || n % parser.format.block != 0
           || n / parser.format.block > bram.capacity {
          return false;
        }
        parser := parser.(phase := AudioData);
      } else {
        parser := parser.(phase := Skip);
      }
      if n == 0 {
        FinishChunk();
      }
      return true;
    }

    method FeedRiff(byte: uint8) returns (ok: bool)
      requires Shape() && Ready() && parser.phase == RiffHeader
      modifies this`parser, header
      ensures Shape()
      ensures ok == RiffByte(old(View()), byte).Some?
      ensures ok ==> View() == RiffByte(old(View()), byte).value && Ready()
      ensures parser == old(parser).(phase := parser.phase, used := parser.used)
    {
      ghost var was := View();
      header[parser.used] := byte;
      parser := parser.(used := parser.used + 1);
      assert header[..parser.used] == was.header + [byte];
      if parser.used == 12 {
        assert header[..] == header[..12];
        assert header[..12][0..4] == header[0..4] && header[..12][8..12] == header[8..12];
        assert header[..12][4..8] == header[4..8];
        if header[0..4] != RIFF || header[8..12] != WAVE || U32(header[..], 4) + 8 != parser.fileBytes {
          return false;
        }
        parser := parser.(phase := ChunkHeader, used := 0);
        assert header[..0] == [];
      }
      return true;
    }

    method FeedHeader(byte: uint8) returns (ok: bool)
      requires Shape() && Ready() && parser.phase == ChunkHeader
      modifies this`parser, header
      ensures Shape()
      ensures ok == HeaderByte(old(View()), byte, bram.capacity).Some?
      ensures ok ==> View() == HeaderByte(old(View()), byte, bram.capacity).value && Ready()
      ensures parser == old(parser).(phase := parser.phase, used := parser.used, remaining := parser.remaining,
                                     chunkBytes := parser.chunkBytes, fmtUsed := parser.fmtUsed)
    {
      hide HeaderDone;
      ghost var was := View();
      header[parser.used] := byte;
      parser := parser.(used := parser.used + 1);
      assert header[..parser.used] == was.header + [byte];
      ok := true;
      if parser.used == 8 {
        ok := FinishHeader();
      }
    }

    method FeedFormat(byte: uint8) returns (ok: bool)
      requires Shape() && Ready() && parser.phase == FormatChunk
      modifies this`parser, fmt
      ensures Shape()
      ensures ok == FormatByte(old(View()), byte).Some?
      ensures ok ==> View() == FormatByte(old(View()), byte).value && Ready()
      ensures parser == old(parser).(phase := parser.phase, used := parser.used, remaining := parser.remaining,
                                     fmtUsed := parser.fmtUsed, format := parser.format, fmtSeen := parser.fmtSeen)
    {
      hide FormatDone;
      ghost var was := View();
      if parser.fmtUsed < 40 {
        fmt[parser.fmtUsed] := byte;
        parser := parser.(fmtUsed := parser.fmtUsed + 1);
        assert fmt[..parser.fmtUsed] == was.fmt + [byte];
      }
      parser := parser.(remaining := parser.remaining - 1);
      if parser.remaining == 0 {
        var parsed := FormatDone(fmt[..parser.fmtUsed]);
        if parsed.None? {
          return false;
        }
        parser := parser.(format := parsed.value, fmtSeen := true);
        FinishChunk();
      }
      return true;
    }

    method FeedAudio(byte: uint8, idle: bool) returns (ok: bool)
      requires Shape() && Ready() && parser.phase == AudioData && Converted() && bram.initialized
      modifies this`parser, this`pcm, this`gains, frame, bram.words
      ensures Shape()
      ensures ok == AudioByte(old(View()), old(parser).format, byte, bram.capacity, idle).Some?
      ensures ok ==> View() == AudioByte(old(View()), old(parser).format, byte, bram.capacity, idle).value
      ensures ok ==> Converted() && Ready()
      ensures parser == old(parser).(phase := parser.phase, used := parser.used, remaining := parser.remaining,
                                     frameUsed := parser.frameUsed, dataSeen := parser.dataSeen,
                                     samples := parser.samples,
                                     pcmCrc := parser.pcmCrc, pendingWord := parser.pendingWord)
    {
      hide WaveformParser.EmitFrame, Update, PcmBytes, Stored, Supported, ChunkDone, Converted;
      PushByte(byte);
      if parser.frameUsed == parser.format.block {
        var emitted := EmitFrame(idle);
        if !emitted {
          return false;
        }
      }
      CountByte();
      return true;
    }

    method PushByte(byte: uint8)
      requires Shape() && Ready() && parser.phase == AudioData && Converted()
      modifies this`parser, frame
      ensures Shape() && Converted() && View() == old(View()).(frame := old(View()).frame + [byte])
      ensures parser == old(parser).(frameUsed := old(parser).frameUsed + 1) && parser.frameUsed <= parser.format.block
    {
      hide Update, PcmBytes, Stored, Supported;
      BlockFits(parser.format);
      ghost var was := View();
      frame[parser.frameUsed] := byte;
      parser := parser.(frameUsed := parser.frameUsed + 1);
      assert frame[..parser.frameUsed] == was.frame + [byte];
    }

    /** One byte less of the data chunk to come. */
    method CountByte()
      requires Shape() && parser.phase == AudioData && Converted() && parser.remaining > 0
      requires parser.fmtSeen && parser.frameUsed < parser.format.block
      modifies this`parser
      ensures Shape() && Converted() && Ready()
      ensures var v := old(View()); View() == if v.remaining == 1 then ChunkDone(v.(remaining := 0, dataSeen := true))
                                              else v.(remaining := v.remaining - 1)
      ensures parser == old(parser).(phase := parser.phase, used := parser.used, remaining := parser.remaining,
                                     dataSeen := parser.dataSeen)
    {
      hide Update, PcmBytes, Stored, Supported;
      parser := parser.(remaining := parser.remaining - 1);
      if parser.remaining == 0 {
        parser := parser.(dataSeen := true);
        FinishChunk();
      }
    }

    static lemma BlockFits(f: FormatFields)
      requires Supported(f)
      ensures 1 <= f.block <= 8
    {
    }

    /** One byte less of a chunk that is passed over. */
    method PassByte()
      requires Shape() && parser.phase == Skip && Ready() && Converted()
      modifies this`parser
      ensures Shape() && Ready() && Converted()
      ensures Some(View()) == WaveformParser.SkipByte(old(View()))
      ensures parser == old(parser).(phase := parser.phase, used := parser.used, remaining := parser.remaining)
    {
      hide Update, PcmBytes, Stored, Supported;
      parser := parser.(remaining := parser.remaining - 1);
      if parser.remaining == 0 {
        FinishChunk();
      }
    }

    method Feed(byte: uint8, idle: bool) returns (ok: bool)
      requires Shape() && Ready() && Converted() && bram.initialized
      modifies this`parser, this`pcm, this`gains, header, fmt, frame, bram.words
      ensures Shape()
      ensures ok == WaveformParser.Feed(old(View()), byte, bram.capacity, idle).Some?
      ensures ok ==> View() == WaveformParser.Feed(old(View()), byte, bram.capacity, idle).value
      ensures ok ==> Ready() && Converted()
      ensures parser.fileBytes == old(parser).fileBytes && parser.received == old(parser).received
      ensures parser.expectedCrc == old(parser).expectedCrc && parser.fileCrc == old(parser).fileCrc
    {
      hide RiffByte, HeaderByte, FormatByte, AudioByte, Update, PcmBytes, Stored, Supported;
      match parser.phase {
        case RiffHeader => ok := FeedRiff(byte);
        case ChunkHeader => ok := FeedHeader(byte);
        case FormatChunk => ok := FeedFormat(byte);
        case AudioData => ok := FeedAudio(byte, idle);
        case Skip =>
          PassByte();
          ok := true;
        case Pad =>
          parser := parser.(phase := ChunkHeader, used := 0);
          assert header[..0] == [];
          ok := true;
      }
    }

    /**
     Appends the next block of the file. Any failure abandons the upload, or was refused outright. `idle` answers
     whether playback is idle whenever a pair of samples is written.
     */
    method Append(offset: nat, data: seq<uint8>, idle: Answers) returns (ok: bool)
      requires Valid()
      modifies this, header, fmt, frame, bram.words
      ensures Valid()
      ensures history == old(history) && nextId == old(nextId) && currentId == old(currentId) && locked == old(locked)
      ensures rescaled == old(rescaled)
      ensures ok <==>
        && !old(locked) && old(uploading) && data != [] && offset == old(parser).received
        && |data| <= old(parser).fileBytes - old(parser).received
        && Run(old(View()), data, bram.capacity, idle).Some?
      ensures ok ==> uploading && Some(View()) == Run(old(View()), data, bram.capacity, idle)
      ensures ok ==> parser.fileCrc == Update(old(parser).fileCrc, data)
      ensures ok ==> parser.fileBytes == old(parser).fileBytes && parser.expectedCrc == old(parser).expectedCrc
      ensures ok ==> parser.received == old(parser).received + |data|
      ensures !ok && uploading ==> parser == old(parser) && old(uploading) && View() == old(View())
      ensures !old(uploading) ==> unchanged(this, header, fmt, frame, bram.words)
    {
      hide Run, WaveformParser.Feed, Byte, Stored, PcmBytes, Supported, Converted, Ready;
      if locked || !uploading || data == [] || offset != parser.received
         || |data| > parser.fileBytes - parser.received {
        return false;
      }
      ghost var start := View();
      RunOne(start, 0, bram.capacity, idle);
      assert data[..0] == [];
      var i := 0;
      while i < |data|
        invariant 0 <= i <= |data|
        invariant Shape() && CurrentInMemory() && uploading && Parsing()
        invariant history == old(history) && nextId == old(nextId) && currentId == old(currentId)
        invariant locked == old(locked)
        invariant rescaled == old(rescaled)
        invariant Run(start, data[..i], bram.capacity, idle) == Some(View())
        invariant parser.fileCrc == Update(old(parser).fileCrc, data[..i])
        invariant parser.received == old(parser).received + i
        invariant parser.fileBytes == old(parser).fileBytes && parser.expectedCrc == old(parser).expectedCrc
      {
        ghost var was := View();
        var fed := FeedCounted(data[i], idle(parser.received));
        NextByte(start, data, i, was, bram.capacity, idle);
        UpdateNext(old(parser).fileCrc, data, i);
        if !fed {
          uploading := false;
          return false;
        }
        i := i + 1;
      }
      assert data[..i] == data;
      return true;
    }

    /** Counts and sums a byte, then parses it. */
    method FeedCounted(byte: uint8, idle: bool) returns (ok: bool)
      requires Shape() && Parsing() && parser.received < parser.fileBytes
      modifies this`parser, this`pcm, this`gains, header, fmt, frame, bram.words
      ensures Shape() && (ok ==> Parsing())
      ensures ok == WaveformParser.Feed(Counted(old(View())), byte, bram.capacity, idle).Some?
      ensures ok ==> View() == WaveformParser.Feed(Counted(old(View())), byte, bram.capacity, idle).value
      ensures parser.received == old(parser).received + 1 && parser.fileCrc == Byte(old(parser).fileCrc, byte)
      ensures parser.fileBytes == old(parser).fileBytes && parser.expectedCrc == old(parser).expectedCrc
    {
      hide WaveformParser.Feed, Byte, Stored, PcmBytes, Update, Supported;
      ghost var was := View();
      parser := parser.(received := parser.received + 1, fileCrc := Byte(parser.fileCrc, byte));
      assert View() == Counted(was);
      ok := Feed(byte, idle);
    }

    static lemma UpdateNext(crc: uint32, data: seq<uint8>, i: nat)
      requires i < |data|
      ensures Update(crc, data[..i + 1]) == Byte(Update(crc, data[..i]), data[i])
    {
      hide Byte;
      assert data[..i + 1][..i] == data[..i];
    }

    /** A run that survived `i` bytes continues with the next; if that byte is rejected so is the whole. */
    static lemma NextByte(start: Parser, data: seq<uint8>, i: nat, p: Parser, capacity: nat, idle: Answers)
      requires i < |data| && Run(start, data[..i], capacity, idle) == Some(p)
      ensures Run(start, data[..i + 1], capacity, idle) == Step(p, data[i], capacity, idle)
      ensures Step(p, data[i], capacity, idle).None? ==> Run(start, data, capacity, idle).None?
    {
      hide Run, WaveformParser.Feed;
      RunLast(start, data[..i + 1], capacity, idle);
      assert data[..i + 1][..i] == data[..i];
      RunInPieces(start, data[..i + 1], data[i + 1..], capacity, idle);
      assert data[..i + 1] + data[i + 1..] == data;
    }

    /** Writes the unpaired last sample, if there is one. */
    method FlushOdd(idle: bool) returns (ok: bool)
      requires Shape() && Converted() && bram.initialized
      modifies bram.words, this`gains
      ensures Shape() && ok == (|pcm| % 2 == 1 ==> idle)
      ensures Converted()
      ensures ok ==> Stored(bram.words[..], pcm, gains, |pcm|) && (!rescaled ==> AtGain(gains, 100, |pcm|))
    {
      hide Byte, PcmBytes, Update, Supported, Stored, AtGain, PairAt;
      ok := true;
      if parser.samples % 2 != 0 {
        ghost var words := bram.words[..];
        ok := bram.Write(parser.samples / 2, parser.pendingWord, 0, idle);
        if ok {
          LastInPlace(words, bram.words[..], pcm, gains);
          gains := PairAt(gains, parser.samples / 2);
        }
      }
    }

    /** Writing the unpaired last sample puts it in place, at full amplitude. */
    static lemma LastInPlace(before: seq<uint32>, after: seq<uint32>, pcm: seq<int16>, gains: seq<nat>)
      requires |before| == |after| == |gains| && |pcm| % 2 == 1 && |pcm| <= |after|
      requires Stored(before, pcm, gains, |pcm| - 1)
      requires after[|pcm| - 1] == Pack(Pattern(pcm[|pcm| - 1]), Pattern(pcm[|pcm| - 1]))
      requires forall i :: 0 <= i < |after| && i / 2 != |pcm| / 2 ==> after[i] == before[i]
      ensures |PairAt(gains, |pcm| / 2)| == |gains|
      ensures Stored(after, pcm, PairAt(gains, |pcm| / 2), |pcm|)
      ensures Stored(after, pcm, PairAt(gains, |pcm| / 2), |pcm| - 1)
      ensures AtGain(gains, 100, |pcm| - 1) ==>
        AtGain(PairAt(gains, |pcm| / 2), 100, |pcm|) && AtGain(PairAt(gains, |pcm| / 2), 100, |pcm| - 1)
    {
      hide InPlace;
      var n, set_ := |pcm| - 1, PairAt(gains, |pcm| / 2);
      UploadedInPlace(pcm[n]);
      forall i | 0 <= i < |pcm| ensures InPlace(after[i], pcm[i], set_[i]) {
        if i < n {
          assert InPlace(before[i], pcm[i], gains[i]);
        }
      }
    }

    method Publish()
      requires Shape() && nextId == |history| < UINT32_MAX && parser.samples == |pcm| > 0 && |pcm| <= bram.capacity
      requires Stored(bram.words[..], pcm, gains, |pcm|) && parser.pcmCrc == Update(UINT32_MAX, PcmBytes(pcm))
      modifies this`nextId, this`currentId, this`currentSamples, this`currentCrc, this`history, this`uploading
      ensures Valid() && !uploading && nextId == currentId == old(nextId) + 1 && history == old(history) + [pcm]
    {
      hide Byte, PcmBytes, Update, Supported, Stored;
      nextId := nextId + 1;
      currentId, currentSamples, currentCrc := nextId, parser.samples, Complement(parser.pcmCrc);
      history := history + [pcm];
      uploading := false;
    }

    /** Publishes a completely received file under a fresh id, to be played at full amplitude. */
    method Commit(idle: bool) returns (ok: bool)
      requires Valid()
      modifies this, bram.words
      ensures Valid()
      ensures locked == old(locked)
      ensures ok <==>
        && !old(locked) && old(uploading) && Complete(old(View()))
        && Complement(old(parser).fileCrc) == old(parser).expectedCrc
        && (|old(pcm)| % 2 == 1 ==> idle)
      ensures ok ==> !uploading && currentId == old(nextId) + 1 && history == old(history) + [old(pcm)]
      ensures ok && !old(rescaled) ==> Played(bram.words[..], history[currentId - 1], 100)
      ensures !ok ==> currentId == old(currentId) && history == old(history) && nextId == old(nextId)
      ensures !old(uploading) ==> unchanged(this, bram.words)
    {
      hide Byte, PcmBytes, Update, Supported, Stored, AtGain, Played;
      if locked || !uploading || parser.received != parser.fileBytes || !parser.fmtSeen || !parser.dataSeen
         || parser.phase != ChunkHeader || parser.used != 0 || parser.frameUsed != 0 || parser.samples == 0 {
        return false;
      }
      if Complement(parser.fileCrc) != parser.expectedCrc {
        uploading := false;
        return false;
      }
      var flushed := FlushOdd(idle);
      if !flushed {
        return false;
      }
      Publish();
      if !rescaled {
        StoredIsPlayed(bram.words[..], pcm, gains, 100);
      }
      return true;
    }

    method Cancel()
      requires Valid()
      modifies this`uploading, this`parser
      ensures Valid() && !uploading
      ensures parser == old(parser).(received := 0)
    {
      uploading := false;
      parser := parser.(received := 0);
    }

    method Lock(value: bool)
      requires Valid()
      modifies this`locked
      ensures Valid() && locked == value
    {
      locked := value;
    }

    /**
     Rescaling playback touches no original, so whatever waveform was in memory stays there; its played copies
     are from now on scaled by the new percentage.
     */
    method SetGain(samples: nat, percent: nat, idle: bool) returns (ok: bool)
      requires Valid()
      modifies bram.words, this`gains, this`rescaled
      ensures Valid()
      ensures ok == (bram.initialized && 0 < samples <= bram.capacity && percent <= 100 && idle)
      ensures |gains| == |old(gains)|
      ensures forall i :: 0 <= i < |gains| ==> gains[i] == if ok && i < samples then percent else old(gains)[i]
      ensures ok && currentId != 0 && samples == currentSamples ==>
        Played(bram.words[..], history[currentId - 1], percent)
    {
      hide Byte, PcmBytes, Update, Supported, ScaledSample, InPlace, AtGain;
      ghost var words, set_ := bram.words[..], gains;
      ok := bram.SetGain(samples, percent, idle);
      if !ok {
        return;
      }
      gains := seq(bram.capacity, i requires 0 <= i < |set_| => if i < samples then percent else set_[i]);
      rescaled := rescaled || uploading;
      RescaledInPlace(words, bram.words[..], samples, percent);
      if currentId != 0 && samples == currentSamples {
        assert AtGain(gains, percent, samples) by {
          SameGain(gains, percent, samples);
        }
        StoredIsPlayed(bram.words[..], history[currentId - 1], gains, percent);
      }
    }

    static lemma SameGain(gains: seq<nat>, percent: nat, n: nat)
      requires n <= |gains| && forall i :: 0 <= i < n ==> gains[i] == percent
      ensures AtGain(gains, percent, n)
    {
    }

    static lemma RescaledInPlace(before: seq<uint32>, after: seq<uint32>, samples: nat, percent: nat)
      requires |before| == |after| && samples <= |after| && percent <= 100
      requires forall i :: 0 <= i < |after| ==> Upper(after[i]) == Upper(before[i])
      requires forall i :: 0 <= i < samples ==> Lower(after[i]) == ScaledPattern(Upper(before[i]), percent)
      ensures forall i, v: int16, g :: 0 <= i < samples && InPlace(before[i], v, g) ==> InPlace(after[i], v, percent)
    {
      hide ScaledSample;
      forall i, v: int16, g | 0 <= i < samples && InPlace(before[i], v, g) ensures InPlace(after[i], v, percent) {
        assert Signed16(Pattern(v)) == v;
      }
    }

    static method TotalSize(blocks: seq<seq<uint8>>) returns (size: nat)
      ensures size == |Flatten(blocks)|
    {
      size := 0;
      var k := 0;
      while k < |blocks|
        invariant 0 <= k <= |blocks|
        invariant size == |Flatten(blocks[..k])|
      {
        assert blocks[..k + 1][..k] == blocks[..k];
        size := size + |blocks[k]|;
        k := k + 1;
      }
      assert blocks[..k] == blocks;
    }

    static lemma NothingSent()
      ensures Update(UINT32_MAX, Flatten([])) == UINT32_MAX && Flatten([]) == []
    {
    }

    /**
     A whole upload: any split of the file into non-empty blocks is committed exactly when the host's
     check accepts the file for this board and the announced checksum is the file's.
     */
    method UploadFile(blocks: seq<seq<uint8>>, crc: uint32) returns (ok: bool)
      requires Valid() && !locked && !uploading && nextId != UINT32_MAX
      requires forall b :: b in blocks ==> b != []
      modifies this, header, fmt, frame, bram, bram.words
      ensures Valid()
      ensures ok <==>
        && 44 <= |Flatten(blocks)| <= MAX_FILE_BYTES
        && Inspect(Flatten(blocks), BoardLimits(bram.capacity)).Some?
        && Crc(Flatten(blocks)) == crc
      ensures ok ==>
        && currentId == old(nextId) + 1 == |history|
        && history == old(history) + [history[|history| - 1]]
        && DecodedFile(Flatten(blocks), BoardLimits(bram.capacity)) == Some(history[|history| - 1])
        && currentSamples == Inspect(Flatten(blocks), BoardLimits(bram.capacity)).value.Samples()
      ensures ok ==> Played(bram.words[..], history[|history| - 1], 100)
      ensures !ok ==> history == old(history) && (currentId == 0 || currentId == old(currentId))
    {
      hide Run, Inspect, Byte, Stored, PcmBytes, Supported, Update, Converted, Ready, Flatten, Complete;
      var size := TotalSize(blocks);
      ok := Begin(size, crc);
      if !ok {
        return;
      }
      StreamingIsInspection(Flatten(blocks), bram.capacity);
      ok := SendBlocks(blocks);
      if ok {
        ok := Commit(true);
      }
    }

    /** Appends block after block, up to the first that is rejected. */
    method SendBlocks(blocks: seq<seq<uint8>>) returns (ok: bool)
      requires Valid() && uploading && !locked && View() == Start(|Flatten(blocks)|) && parser.fileCrc == UINT32_MAX
      requires forall b :: b in blocks ==> b != []
      modifies this, header, fmt, frame, bram.words
      ensures Valid()
      ensures history == old(history) && nextId == old(nextId) && currentId == old(currentId) && locked == old(locked)
      ensures rescaled == old(rescaled)
      ensures ok <==> Run(Start(|Flatten(blocks)|), Flatten(blocks), bram.capacity, Always()).Some?
      ensures ok ==>
        uploading && Some(View()) == Run(Start(|Flatten(blocks)|), Flatten(blocks), bram.capacity, Always())
      ensures ok ==>
        parser.fileCrc == Update(UINT32_MAX, Flatten(blocks)) && parser.expectedCrc == old(parser).expectedCrc
    {
      hide Run, Byte, Stored, PcmBytes, Supported, Update, Converted, Ready, Holds, Parsing, CurrentInMemory, Flatten;
      ghost var file := Flatten(blocks);
      ghost var start := Start(|file|);
      RunOne(start, 0, bram.capacity, Always());
      NothingSent();
      var k := 0;
      var sent := 0;
      assert blocks[..0] == [];
      while k < |blocks|
        invariant 0 <= k <= |blocks|
        invariant Valid() && uploading && !locked
        invariant history == old(history) && nextId == old(nextId) && currentId == old(currentId)
        invariant rescaled == old(rescaled)
        invariant sent == |Flatten(blocks[..k])| == parser.received
        invariant parser.fileBytes == |file| && parser.expectedCrc == old(parser).expectedCrc
        invariant Run(start, Flatten(blocks[..k]), bram.capacity, Always()) == Some(View())
        invariant parser.fileCrc == Update(UINT32_MAX, Flatten(blocks[..k]))
      {
        assert blocks[k] in blocks;
        NextBlock(start, blocks, k, bram.capacity);
        ok := Append(sent, blocks[k], Always());
        if !ok {
          return;
        }
        sent := sent + |blocks[k]|;
        k := k + 1;
      }
      assert blocks[..k] == blocks;
      ok := true;
    }
  }

  /** The next block continues the run; if it fails so does the whole file. */
  lemma NextBlock(start: Parser, blocks: seq<seq<uint8>>, k: nat, capacity: nat)
    requires k < |blocks| && Run(start, Flatten(blocks[..k]), capacity, Always()).Some?
    ensures Flatten(blocks[..k + 1]) == Flatten(blocks[..k]) + blocks[k] <= Flatten(blocks)
    ensures var p := Run(start, Flatten(blocks[..k]), capacity, Always()).value;
      && Run(start, Flatten(blocks[..k + 1]), capacity, Always()) == Run(p, blocks[k], capacity, Always())
      && (Run(p, blocks[k], capacity, Always()).None? ==> Run(start, Flatten(blocks), capacity, Always()).None?)
    ensures Update(UINT32_MAX, Flatten(blocks[..k + 1])) == Update(Update(UINT32_MAX, Flatten(blocks[..k])), blocks[k])
  {
    hide Run, Update;
    assert blocks[..k + 1][..k] == blocks[..k];
    FlattenPrefix(blocks, k + 1);
    var file := Flatten(blocks);
    RunInPieces(start, Flatten(blocks[..k]), blocks[k], capacity, Always());
    RunInPieces(start, Flatten(blocks[..k + 1]), file[|Flatten(blocks[..k + 1])|..], capacity, Always());
    UpdateInPieces(UINT32_MAX, Flatten(blocks[..k]), blocks[k]);
  }

  /** The first blocks of a file are a prefix of it. */
  lemma {:induction false} FlattenPrefix(blocks: seq<seq<uint8>>, k: nat)
    requires k <= |blocks|
    ensures Flatten(blocks[..k]) <= Flatten(blocks)
    ensures Flatten(blocks) == Flatten(blocks[..k]) + Flatten(blocks)[|Flatten(blocks[..k])|..]
    decreases |blocks|
  {
    if k == |blocks| {
      assert blocks[..k] == blocks;
    } else {
      var shorter := blocks[..|blocks| - 1];
      FlattenPrefix(shorter, k);
      assert shorter[..k] == blocks[..k];
    }
  }
}
