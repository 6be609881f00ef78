/** The host's whole-file check of a WAV container. */
module WavFormat {
  import opened MachineIntegers
  import opened LittleEndian
  import opened Options
  import opened WavSamples

  const MAX_FILE_BYTES := 65536
  const GUID_TAIL: seq<uint8> := [0, 0, 0x10, 0, 0x80, 0, 0, 0xAA, 0, 0x38, 0x9B, 0x71]
  const RIFF: seq<uint8> := [0x52, 0x49, 0x46, 0x46]
  const WAVE: seq<uint8> := [0x57, 0x41, 0x56, 0x45]
  const FMT: seq<uint8> := [0x66, 0x6D, 0x74, 0x20]
  const DATA: seq<uint8> := [0x64, 0x61, 0x74, 0x61]

  /** Optional demands of the caller: a required rate and a capacity. */
  datatype Limits = Limits(sampleHz: Option<nat>, maxSamples: Option<nat>)
  datatype HostFormat = HostFormat(format: Format, rate: nat)
  datatype Audio = Audio(offset: nat, bytes: nat)
  datatype Info = Info(format: HostFormat, audio: Audio) {
    function Samples(): nat {
      audio.bytes / format.format.block
    }
  }

  /** The format chunk of `length` bytes at `start`. */
  function ParseFormat(d: seq<uint8>, start: nat, length: nat, limits: Limits): Option<HostFormat>
    requires 16 <= length && start + length <= |d|
  {
    var channels, rate, byteRate := U16(d, start + 2), U32(d, start + 4), U32(d, start + 8);
    var block, bits := U16(d, start + 12), U16(d, start + 14);
    var extensible := U16(d, start) == 65534;
    if extensible && (length < 40 || U16(d, start + 16) < 22 || U16(d, start + 18) != bits
                      || d[start + 28..start + 40] != GUID_TAIL) then None
    else
      var encoding := if extensible then U32(d, start + 24) else U16(d, start);
      if !(8000 <= rate <= 192000) then None
      else if limits.sampleHz.Some? && rate != limits.sampleHz.value then None
      else if (channels != 1 && channels != 2) || (encoding != 1 && encoding != 3)
              || (bits != 8 && bits != 16 && bits != 24 && bits != 32) || (encoding == 3 && bits != 32)
              || block != channels * (bits / 8) || byteRate != rate * block then None
      else Some(HostFormat(Format(encoding, channels, bits, block), rate))
  }

  function FrameLimit(f: HostFormat, limits: Limits): nat {
    var byTime := f.rate * 49000 / 1000000;
    if limits.maxSamples.Some? && limits.maxSamples.value < byTime then limits.maxSamples.value else byTime
  }

  /** The limit is 49 milliseconds of frames at the file's own rate, and what the caller's memory holds. */
  lemma FrameLimitIsTime(f: HostFormat, limits: Limits, frames: nat)
    ensures frames <= FrameLimit(f, limits) <==>
      frames * 1000000 <= f.rate * 49000 && (limits.maxSamples.Some? ==> frames <= limits.maxSamples.value)
  {
  }

  /** A format is accepted only at 8 to 192 kHz, at the rate demanded, if any, and with a consistent byte rate. */
  lemma AcceptedRates(d: seq<uint8>, start: nat, length: nat, limits: Limits)
    requires 16 <= length && start + length <= |d| && ParseFormat(d, start, length, limits).Some?
    ensures var f, rate := ParseFormat(d, start, length, limits).value, U32(d, start + 4);
      && f.rate == rate && 8000 <= rate <= 192000 && (limits.sampleHz.Some? ==> rate == limits.sampleHz.value)
      && U32(d, start + 8) == rate * f.format.block && f.format.block == U16(d, start + 12)
  {
    hide Little;
  }

  predicate HasNonFinite(d: seq<uint8>, start: nat, words: nat)
    requires start + 4 * words <= |d|
  {
    exists w :: 0 <= w < words && WordNotFinite(d[start..], w)
  }

  predicate AudioAccepted(d: seq<uint8>, start: nat, length: nat, f: HostFormat, limits: Limits)
    requires start + length <= |d|
  {
    && length != 0
    && length % f.format.block == 0
    && 1 <= length / f.format.block <= FrameLimit(f, limits)
    && !(f.format.encoding == 3 && HasNonFinite(d, start, length / 4))
  }

  /** What one chunk does to the findings so far, or a rejection. */
  datatype Findings = Findings(format: Option<HostFormat>, audio: Option<Audio>)

  /** Audio found so far lies inside the file in whole frames of a known format. */
  predicate WellFormed(d: seq<uint8>, s: Findings) {
    s.audio.Some? ==>
      && s.format.Some?
      && s.audio.value.offset + s.audio.value.bytes <= |d|
      && s.audio.value.bytes % s.format.value.format.block == 0
  }

  function Chunk(d: seq<uint8>, at: nat, s: Findings, limits: Limits): (r: Option<Findings>)
    requires at + 8 <= |d| && at + 8 + U32(d, at + 4) <= |d| && WellFormed(d, s)
    ensures r.Some? ==> WellFormed(d, r.value)
  {
    var name, length, start := d[at..at + 4], U32(d, at + 4), at + 8;
    if name == FMT then
      if s.format.Some? || length < 16 then None
      else match ParseFormat(d, start, length, limits)
        case None => None
        case Some(f) => Some(s.(format := Some(f)))
    else if name == DATA then
      if s.format.None? || s.audio.Some? || !AudioAccepted(d, start, length, s.format.value, limits) then None
      else Some(s.(audio := Some(Audio(start, length))))
    else Some(s)
  }

  function NextChunk(d: seq<uint8>, at: nat): nat
    requires at + 8 <= |d|
  {
    at + 8 + U32(d, at + 4) + U32(d, at + 4) % 2
  }

  function Chunks(d: seq<uint8>, at: nat, s: Findings, limits: Limits): (r: Option<Info>)
    requires at <= |d| && WellFormed(d, s)
    ensures r.Some? ==> WellFormed(d, Findings(Some(r.value.format), Some(r.value.audio)))
    decreases |d| - at
  {
    if at == |d| then
      if s.format.None? || s.audio.None? then None else Some(Info(s.format.value, s.audio.value))
    else if at + 8 > |d| || NextChunk(d, at) > |d| then None
    else match Chunk(d, at, s, limits)
      case None => None
      case Some(s') => Chunks(d, NextChunk(d, at), s', limits)
  }

  /** The mono samples of the data chunk found, if every one is a number. */
  function Decoded(d: seq<uint8>, s: Findings): Option<seq<int16>>
    requires WellFormed(d, s)
  {
    if s.audio.None? then Some([])
    else MixFrames(s.format.value.format, d[s.audio.value.offset..s.audio.value.offset + s.audio.value.bytes])
  }

  /** The samples a file the host accepts stands for. */
  function DecodedFile(d: seq<uint8>, limits: Limits): Option<seq<int16>>
    requires Inspect(d, limits).Some?
  {
    var info := Inspect(d, limits).value;
    Decoded(d, Findings(Some(info.format), Some(info.audio)))
  }

  predicate Container(d: seq<uint8>) {
    && 44 <= |d| <= MAX_FILE_BYTES
    && d[0..4] == RIFF
    && d[8..12] == WAVE
    && U32(d, 4) + 8 == |d|
  }

  function Inspect(d: seq<uint8>, limits: Limits): (r: Option<Info>)
    ensures r.Some? ==> WellFormed(d, Findings(Some(r.value.format), Some(r.value.audio)))
  {
    if Container(d) then Chunks(d, 12, Findings(None, None), limits) else None
  }

  /** The loop of the host, one chunk a pass. */
  method InspectWav(d: seq<uint8>, limits: Limits) returns (r: Option<Info>)
    ensures r == Inspect(d, limits)
  {
    if !Container(d) {
      return None;
    }
    var at := 12;
    var s := Findings(None, None);
    while at < |d|
      invariant 12 <= at <= |d| && WellFormed(d, s)
      invariant Inspect(d, limits) == Chunks(d, at, s, limits)
      decreases |d| - at
    {
      if at + 8 > |d| {
        return None;
      }
      var next := NextChunk(d, at);
      if next > |d| {
        return None;
      }
      var found := Chunk(d, at, s, limits);
      if found.None? {
        return None;
      }
      at, s := next, found.value;
    }
    if s.format.None? || s.audio.None? {
      return None;
    }
    return Some(Info(s.format.value, s.audio.value));
  }
}
