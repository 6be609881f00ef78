/**
 The configuration service: sessions stage a configuration or upload a waveform, apply it to the
 transmitter and arm a test. One session at a time owns what is staged.
 */
module ControlService {
  import opened MachineIntegers
  import opened Options
  import opened LittleEndian
  import opened ExperimentConfig
  import opened AudioLimits
  import opened Identity
  import TxBram
  import TxControl
  import WaveformParser
  import WaveformUpload

  const MAX_CONFIG_ID := 65535
  const IDLE_CONFIG := Config(Generate, 0, 0, 0, 0, 0, 0)
  const IDLE_VALUES := Values(0, 0, 0, 0, 0)

  datatype Op = GetCapabilities | SetGenerated | UploadBegin | UploadData | UploadCommit | SelectWaveform | ApplyPending
              | GetConfiguration | UploadCancel | SetBootId | PrepareTest | EndSession | Unknown
  datatype Error = Fine | BadRequest | Busy | Range | Checksum | NoWaveform | Hardware | Sequence

  /** What the hardware contributes to one command. */
  datatype CommandIo = CommandIo(sample: TxControl.Sample, active: bool, triggerLow: bool, playbackIdle: bool,
                                 uploadIdle: WaveformParser.Answers)

  /** The generator's registers and the selected source, as written last. */
  datatype Registers = Registers(startInc: uint32, step: int32, samples: uint32, amplitude: uint32, playback: bool)

  /** The service's own variables and the generator's registers. */
  datatype Settings = Settings(
    active: Config, pending: Config, values: Values, valid: bool, staged: bool, running: bool, owner: uint32,
    nextId: nat,
    registers: Registers)

  /** The upload in progress, byte buffers and all, and the waveforms so far. */
  datatype UploadState = UploadState(
    uploading: bool, parser: WaveformUpload.ParserFields, header: seq<uint8>, fmt: seq<uint8>, frame: seq<uint8>,
    pcm: seq<int16>, currentId: uint32, currentSamples: nat, currentCrc: nat, nextId: nat, history: seq<seq<int16>>,
    gains: seq<nat>, memory: seq<uint32>)

  /** Everything a command may change, for saying that one changed nothing. */
  datatype Snapshot = Snapshot(settings: Settings, boot: Id, test: Id, prepared: bool, tx: TxControl.Tx,
                               upload: UploadState)

  function Word(p: seq<uint8>, at: nat): uint32
    requires at + 4 <= |p|
  {
    LittleBound(p[at..at + 4]);
    Pow2Values();
    U32(p, at)
  }

  function Words(p: seq<uint8>, at: nat): Id
    requires at + 16 <= |p|
  {
    [Word(p, at), Word(p, at + 4), Word(p, at + 8), Word(p, at + 12)]
  }

  /** The generated chirp a payload of sixteen bytes asks for. */
  function Generated(p: seq<uint8>): Config
    requires |p| == 16
  {
    Config(Generate, Word(p, 0), Word(p, 4), Word(p, 8), Word(p, 12), 0, 0)
  }

  /** Four numbers as a session sends them. */
  lemma WordsSent(a: uint32, b: uint32, c: uint32, d: uint32)
    ensures var p := Put(a, 4) + Put(b, 4) + Put(c, 4) + Put(d, 4);
      Words(p, 0) == [a, b, c, d] && |p| == 16
  {
    hide Little, Put;
    var p := Put(a, 4) + Put(b, 4) + Put(c, 4) + Put(d, 4);
    assert p[0..4] == Put(a, 4) && p[4..8] == Put(b, 4) && p[8..12] == Put(c, 4) && p[12..16] == Put(d, 4);
    Pow2Values();
    LittleOfPut(a, 4);
    LittleOfPut(b, 4);
    LittleOfPut(c, 4);
    LittleOfPut(d, 4);
  }

  /** The chirp asked for is the one that is staged: start, stop, duration and amplitude, in this order. */
  lemma GeneratedAsSent(start: uint32, stop: uint32, durationUs: uint32, percent: uint32)
    ensures var p := Put(start, 4) + Put(stop, 4) + Put(durationUs, 4) + Put(percent, 4);
      && |p| == 16
      && Generated(p) == Config(Generate, start, stop, durationUs, percent, 0, 0)
      && (Stageable(p) <==> 0 < start < 48000 && 0 < stop < 48000 && 16 <= durationUs <= 49000 && percent <= 100)
  {
    hide Word, Put, Calculate;
    WordsSent(start, stop, durationUs, percent);
    AcceptedExactly(Config(Generate, start, stop, durationUs, percent, 0, 0), 0);
  }

  predicate Stageable(p: seq<uint8>) {
    |p| == 16 && Calculate(Generated(p), 0).Some?
  }

  /** Configuration ids never repeat and never exceed 16 bits; the active one is the last applied. */
  predicate IdsSound(s: Settings, applied: seq<nat>) {
    && s.active.configId <= s.nextId <= MAX_CONFIG_ID
    && (forall i :: 0 <= i < |applied| ==> 0 < applied[i] <= s.nextId)
    && (forall i, j :: 0 <= i < j < |applied| ==> applied[i] < applied[j])
    && (s.valid ==> applied != [] && s.active.configId == applied[|applied| - 1])
  }

  /** The generator registers and source hold configuration `c` with values `v`. */
  predicate Loaded(r: Registers, c: Config, v: Values) {
    && r.samples == v.samples && r.playback == (c.mode == Wav)
    && (c.mode == Generate ==> r.startInc == v.startInc && r.step == v.step && r.amplitude == v.amplitude)
  }

  class Service {
    const transmitter: TxControl.Transmitter
    const uploader: WaveformUpload.Uploader
    const identity: BoardIdentity

    var s: Settings
    var playerAvailable: bool

    /** The configuration ids applied so far, and the id for which the test was armed last. */
    ghost var applied: seq<nat>
    ghost var armedFor: nat

    ghost function State(): Snapshot
      reads this, transmitter, identity, uploader, uploader.header, uploader.fmt, uploader.frame, uploader.bram.words
    {
      Snapshot(s, identity.bootId, identity.testId, identity.prepared, transmitter.tx, Upload())
    }

    ghost function Upload(): UploadState
      reads uploader, uploader.header, uploader.fmt, uploader.frame, uploader.bram.words
    {
      UploadState(uploader.uploading, uploader.parser, uploader.header[..], uploader.fmt[..], uploader.frame[..],
                  uploader.pcm, uploader.currentId, uploader.currentSamples, uploader.currentCrc, uploader.nextId,
                  uploader.history, uploader.gains, uploader.bram.words[..])
    }

    /** Playback memory holds the waveform of `c` as it was committed, scaled to its amplitude. */
    ghost predicate InMemory(c: Config, v: Values)
      reads uploader, uploader.bram.words
    {
      && c.amplitudePct <= 100
      && 0 < c.waveformId == uploader.currentId <= |uploader.history|
      && v.samples == uploader.currentSamples == |uploader.history[c.waveformId - 1]|
      && WaveformUpload.Played(uploader.bram.words[..], uploader.history[c.waveformId - 1], c.amplitudePct)
    }

    /** What `valid` promises: the transmitter holds exactly the active configuration. */
    ghost predicate ActiveIsProgrammed()
      reads this`s, transmitter, uploader, uploader.bram.words
    {
      && transmitter.tx.applied && Loaded(s.registers, s.active, s.values)
      && Calculate(s.active, uploader.currentSamples) == Some(s.values)
      && s.active.durationUs == s.values.durationUs
      && (s.active.mode == Wav ==> InMemory(s.active, s.values))
    }

    ghost predicate Valid()
      reads this, transmitter, uploader, identity, uploader.bram, uploader.bram.words
    {
      && uploader.Valid() && TxControl.Sound(transmitter.tx)
      && (transmitter.tx.initialized ==> playerAvailable)
      && IdsSound(s, applied)
      && uploader.locked == s.running
      && (s.staged || uploader.uploading ==> s.owner != 0)
      && (s.staged && s.pending.mode == Generate ==> Calculate(s.pending, 0).Some?)
      && (s.valid ==> ActiveIsProgrammed())
      && (identity.prepared ==> 0 < armedFor == s.active.configId && identity.testId != ZERO)
      && (identity.testId != ZERO ==> identity.bootId != ZERO)
    }

    constructor (uploader: WaveformUpload.Uploader)
      requires uploader.Valid() && !uploader.locked && !uploader.uploading
      ensures Valid() && this.uploader == uploader && applied == []
      ensures s == Settings(IDLE_CONFIG, IDLE_CONFIG, IDLE_VALUES, false, false, false, 0, 0,
                            Registers(0, 0, 0, 0, false))
      ensures fresh(transmitter) && fresh(identity) && transmitter.tx == TxControl.CLEARED && !playerAvailable
    {
      this.uploader := uploader;
      transmitter := new TxControl.Transmitter();
      identity := new BoardIdentity();
      s := Settings(IDLE_CONFIG, IDLE_CONFIG, IDLE_VALUES, false, false, false, 0, 0, Registers(0, 0, 0, 0, false));
      playerAvailable := false;
      applied, armedFor := [], 0;
    }

    /** Start-up of the transmitter and, with it, of the waveform player; until it succeeds nothing can be applied. */
    method StartUp(io: TxControl.InitIo) returns (ok: bool)
      requires Valid()
      modifies transmitter, this`playerAvailable, uploader.bram`initialized
      ensures Valid() && transmitter.tx == TxControl.Init(old(transmitter.tx), io)
      ensures ok == (transmitter.tx.initialized && !transmitter.tx.fault)
      ensures playerAvailable == (old(playerAvailable) || transmitter.tx.initialized)
    {
      hide WaveformUpload.Played, Calculate, TxControl.Sound, IdsSound;
      ghost var was := transmitter.tx;
      TxControl.StepKeeps(was, TxControl.Startup(io));
      ok := transmitter.InitTx(io);
      if transmitter.tx.initialized && !playerAvailable {
        var _ := uploader.bram.Init();
        playerAvailable := true;
      }
    }

    predicate CanStart()
      reads this, uploader
    {
      && s.valid && !s.staged && !uploader.uploading && !s.running
      && (s.active.mode != Wav || s.active.waveformId == uploader.currentId)
    }

    method SetRunning(value: bool)
      requires Valid()
      modifies this`s, uploader`locked
      ensures Valid() && s == old(s).(running := value)
    {
      hide IdsSound, WaveformUpload.Played, Calculate, TxControl.Sound, WaveformUpload.Uploader.Valid;
      var t := s.(running := value);
      SameIds(s, t, applied);
      s := t;
      uploader.Lock(value);
    }

    static lemma SameIds(s: Settings, t: Settings, applied: seq<nat>)
      requires IdsSound(s, applied)
      requires s.active.configId == t.active.configId && s.nextId == t.nextId && (t.valid ==> s.valid)
      ensures IdsSound(t, applied)
    {
    }

    /** Releases ownership, and what is staged or being uploaded with it. Other sessions end without effect. */
    method End(session: uint32)
      requires Valid()
      modifies this`s, uploader`uploading, uploader`parser
      ensures Valid()
      ensures session == old(s).owner ==> s == old(s).(staged := false, owner := 0) && !uploader.uploading
      ensures session != old(s).owner ==> State() == old(State())
    {
      hide WaveformUpload.Played, Calculate, TxControl.Sound, IdsSound, WaveformUpload.Uploader.Valid;
      if session == s.owner {
        var t := s.(staged := false, owner := 0);
        SameIds(s, t, applied);
        s := t;
        uploader.Cancel();
      }
    }

    method StageGenerated(session: uint32, p: seq<uint8>) returns (e: Error)
      requires Valid() && session != 0
      modifies this`s
      ensures Valid()
      ensures e == if |p| != 16 then BadRequest else if Stageable(p) then Fine else Range
      ensures e == Fine ==> s == old(s).(pending := Generated(p), staged := true, owner := session)
      ensures e != Fine ==> s == old(s)
    {
      hide Calculate, Word, WaveformUpload.Played, TxControl.Sound, IdsSound, WaveformUpload.Uploader.Valid;
      if |p| != 16 {
        return BadRequest;
      }
      var candidate := Generated(p);
      if Calculate(candidate, 0).None? {
        return Range;
      }
      var t := s.(pending := candidate, staged := true, owner := session);
      SameIds(s, t, applied);
      s := t;
      return Fine;
    }

    method StageWaveform(session: uint32, p: seq<uint8>) returns (e: Error)
      requires Valid() && session != 0
      modifies this`s
      ensures Valid()
      ensures e == if |p| != 8 then BadRequest
                   else if Word(p, 0) == 0 || Word(p, 0) != uploader.currentId then NoWaveform
                   else if Word(p, 4) <= 100 then Fine else Range
      ensures e == Fine ==>
        s == old(s).(pending := Config(Wav, 0, 0, 0, Word(p, 4), Word(p, 0), 0), staged := true, owner := session)
      ensures e != Fine ==> s == old(s)
    {
      hide Calculate, Word, WaveformUpload.Played, TxControl.Sound, IdsSound, WaveformUpload.Uploader.Valid;
      if |p| != 8 {
        return BadRequest;
      }
      CurrentFits();
      var candidate := Config(Wav, 0, 0, 0, Word(p, 4), Word(p, 0), 0);
      if candidate.waveformId == 0 || candidate.waveformId != uploader.currentId {
        return NoWaveform;
      }
      AcceptedExactly(candidate, uploader.currentSamples);
      if Calculate(candidate, uploader.currentSamples).None? {
        return Range;
      }
      var t := s.(pending := candidate, staged := true, owner := session);
      SameIds(s, t, applied);
      s := t;
      return Fine;
    }

    /** An upload of `bytes` bytes may begin. */
    predicate Accepts(bytes: nat)
      reads uploader
    {
      !uploader.locked && !uploader.uploading && 44 <= bytes <= 65536 && uploader.nextId != UINT32_MAX
    }

    /** An upload of that length and checksum has just begun. */
    ghost predicate Begun(bytes: nat, crc: uint32)
      requires uploader.Valid()
      reads uploader, uploader.header, uploader.fmt, uploader.frame, uploader.bram, uploader.bram.words
    {
      && uploader.uploading && uploader.currentId == 0 && uploader.View() == WaveformParser.Start(bytes)
      && uploader.parser.expectedCrc == crc && uploader.parser.fileCrc == UINT32_MAX
    }

    /** From here on playback memory may change, so a waveform configuration is no longer valid. */
    method BeginUpload(session: uint32, p: seq<uint8>) returns (e: Error)
      requires Valid() && session != 0
      modifies this`s, uploader, uploader.bram`initialized
      ensures Valid()
      ensures e == if |p| != 8 then BadRequest
                   else if !transmitter.tx.initialized || transmitter.tx.fault then Hardware
                   else if old(Accepts(Word(p, 0))) then Fine else Range
      ensures e == Fine ==> Begun(Word(p, 0), Word(p, 4))
      ensures e == Fine ==>
        s == old(s).(valid := old(s).valid && old(s).active.mode != Wav, staged := false, owner := session)
      ensures e != Fine ==> State() == old(State())
    {
      hide Calculate, Word, WaveformUpload.Played, TxControl.Sound, IdsSound, WaveformUpload.Uploader.Valid;
      if |p| != 8 {
        return BadRequest;
      }
      if !transmitter.tx.initialized || transmitter.tx.fault || !playerAvailable {
        return Hardware;
      }
      var begun := uploader.Begin(Word(p, 0), Word(p, 4));
      if !begun {
        return Range;
      }
      var t := s.(valid := s.valid && s.active.mode != Wav, staged := false, owner := session);
      SameIds(s, t, applied);
      WavSamplesUnused(s.active, old(uploader.currentSamples), uploader.currentSamples);
      s := t;
      return Fine;
    }
  
    /** These are the next bytes of the upload in progress, and they parse. */
    ghost predicate Appends(offset: nat, data: seq<uint8>, idle: WaveformParser.Answers)
      requires uploader.Valid()
      reads uploader, uploader.header, uploader.fmt, uploader.frame, uploader.bram, uploader.bram.words
    {
      && !uploader.locked && uploader.uploading && data != [] && offset == uploader.parser.received
      && |data| <= uploader.parser.fileBytes - uploader.parser.received
      && WaveformParser.Run(uploader.View(), data, uploader.bram.capacity, idle).Some?
    }

    /** The upload in progress is a complete file with the announced checksum, and its last sample can be written. */
    ghost predicate Commits(idle: bool)
      requires uploader.Valid()
      reads uploader, uploader.header, uploader.fmt, uploader.frame, uploader.bram, uploader.bram.words
    {
      && !uploader.locked && uploader.uploading && WaveformParser.Complete(uploader.View())
      && UINT32_MAX - uploader.parser.fileCrc == uploader.parser.expectedCrc
      && (|uploader.pcm| % 2 == 1 ==> idle)
    }

    method AppendUpload(session: uint32, p: seq<uint8>, io: CommandIo) returns (e: Error)
      requires Valid()
      modifies uploader, uploader.header, uploader.fmt, uploader.frame, uploader.bram.words
      ensures Valid()
      ensures e == if |p| <= 4 || s.owner != session then BadRequest
                   else if old(Appends(Word(p, 0), p[4..], io.uploadIdle)) then Fine else Range
      ensures e == BadRequest ==> State() == old(State())
      ensures e == Fine ==> uploader.uploading && uploader.parser.received == old(uploader.parser).received + |p| - 4
      ensures e == Fine ==>
        Some(uploader.View()) == WaveformParser.Run(old(uploader.View()), p[4..], uploader.bram.capacity, io.uploadIdle)
      ensures uploader.currentId == old(uploader.currentId) && uploader.history == old(uploader.history)
    {
      hide Calculate, Word, WaveformUpload.Played, TxControl.Sound, IdsSound;
      if |p| <= 4 || s.owner != session {
        return BadRequest;
      }
      EmptyWhileUploading();
      var appended := uploader.Append(Word(p, 0), p[4..], io.uploadIdle);
      WavSamplesUnused(s.active, old(uploader.currentSamples), uploader.currentSamples);
      return if appended then Fine else Range;
    }

    /** No waveform is current while another is being uploaded. */
    lemma EmptyWhileUploading()
      requires Valid()
      ensures uploader.uploading ==> uploader.currentId == 0
      ensures uploader.uploading && s.valid ==> s.active.mode == Generate
    {
      hide Calculate, WaveformUpload.Played, TxControl.Sound, IdsSound;
    }

    /** A current waveform is the last one committed, and short enough to play. */
    lemma CurrentFits()
      requires uploader.Valid()
      ensures uploader.currentId != 0 ==>
        && uploader.currentId == |uploader.history|
        && 0 < uploader.currentSamples == |uploader.history[uploader.currentId - 1]| <= uploader.bram.capacity
        && uploader.bram.capacity <= TX_MAX_SAMPLES
    {
      hide WaveformUpload.Played;
    }

    method CommitUpload(session: uint32, p: seq<uint8>, io: CommandIo) returns (e: Error)
      requires Valid()
      modifies this`s, uploader, uploader.bram.words
      ensures Valid()
      ensures e == if p != [] || old(s).owner != session then BadRequest
                   else if old(Commits(io.playbackIdle)) then Fine else Checksum
      ensures e == BadRequest ==> State() == old(State())
      ensures e == Fine ==> 0 < uploader.currentId == |uploader.history| && !uploader.uploading
      ensures e == Fine ==> uploader.history == old(uploader.history) + [old(uploader.pcm)]
      ensures e == Fine ==> s == old(s).(valid := old(s).valid && old(s).active.mode != Wav)
      ensures e != Fine ==> s == old(s) && uploader.currentId == old(uploader.currentId)
    {
      hide Calculate, WaveformUpload.Played, TxControl.Sound, IdsSound, WaveformUpload.Uploader.Valid;
      if p != [] || s.owner != session {
        return BadRequest;
      }
      EmptyWhileUploading();
      var committed := uploader.Commit(io.playbackIdle);
      WavSamplesUnused(s.active, old(uploader.currentSamples), uploader.currentSamples);
      CurrentFits();
      if !committed {
        return Checksum;
      }
      var t := s.(valid := s.valid && s.active.mode != Wav);
      SameIds(s, t, applied);
      s := t;
      return Fine;
    }

    method CancelUpload(p: seq<uint8>) returns (e: Error)
      requires Valid()
      modifies uploader`uploading, uploader`parser
      ensures Valid()
      ensures if p == [] then e == Fine && !uploader.uploading else e == BadRequest && State() == old(State())
    {
      hide Calculate, WaveformUpload.Played, TxControl.Sound, IdsSound, WaveformUpload.Uploader.Valid;
      if p != [] {
        return BadRequest;
      }
      uploader.Cancel();
      return Fine;
    }

    /** Arms a test only for the configuration that is valid now, named by its id. */
    method Arm(p: seq<uint8>) returns (e: Error)
      requires Valid()
      modifies identity, this`armedFor
      ensures Valid()
      ensures e ==
        if |p| != 36 || !s.valid || s.staged || uploader.uploading || Word(p, 32) != s.active.configId then BadRequest
        else if Words(p, 0) != ZERO && Words(p, 16) != ZERO
                && Words(p, 0) == identity.bootId && Words(p, 16) != old(identity.testId) then Fine
        else Range
      ensures e == Fine ==> identity.prepared && identity.testId == Words(p, 16) && armedFor == s.active.configId
      ensures e != Fine ==> State() == old(State())
      ensures identity.bootId == old(identity.bootId)
    {
      hide Calculate, Word, Words, WaveformUpload.Played, TxControl.Sound, WaveformUpload.Uploader.Valid;
      if |p| != 36 || !s.valid || s.staged || uploader.uploading || Word(p, 32) != s.active.configId {
        return BadRequest;
      }
      var armed := identity.PrepareTest(Words(p, 0), Words(p, 16));
      if armed {
        armedFor := s.active.configId;
      }
      return if armed then Fine else Range;
    }

    method SetBootIdentity(p: seq<uint8>) returns (e: Error)
      requires Valid()
      modifies identity
      ensures Valid()
      ensures e ==
        if |p| != 16 then BadRequest
        else if Words(p, 0) != ZERO && (old(identity.bootId) == ZERO || Words(p, 0) == old(identity.bootId)) then Fine
        else Range
      ensures identity.bootId == if e == Fine then Words(p, 0) else old(identity.bootId)
      ensures e != Fine ==> State() == old(State())
      ensures identity.testId == old(identity.testId) && identity.prepared == old(identity.prepared)
    {
      hide Calculate, Words, WaveformUpload.Played, TxControl.Sound, WaveformUpload.Uploader.Valid, IdsSound;
      if |p| != 16 {
        return BadRequest;
      }
      var set_ := identity.SetBoot(Words(p, 0));
      return if set_ then Fine else Range;
    }

    /** A started experiment consumes the test, and stopping the outputs disarms it. */
    method DisarmTest()
      requires Valid()
      modifies identity
      ensures Valid() && !identity.prepared && identity.bootId == old(identity.bootId)
    {
      hide Calculate, WaveformUpload.Played, TxControl.Sound, WaveformUpload.Uploader.Valid, IdsSound;
      identity.Disarm();
    }

    /**
     The transmitter is up, idle and inactive, its trigger line can be lowered, and the configuration's source is there.
     */
    predicate Programmable(c: Config, io: CommandIo)
      reads this`playerAvailable, transmitter, uploader, uploader.bram`initialized
    {
      var t := TxControl.Poll(transmitter.tx, io.sample);
      && t.initialized && !t.fault && !t.running && !t.prepared && !io.active && io.triggerLow && playerAvailable
      && 0 < c.configId <= MAX_CONFIG_ID && Calculate(c, uploader.currentSamples).Some?
      && (c.mode == Wav ==>
            && !uploader.uploading && c.waveformId == uploader.currentId
            && uploader.bram.initialized && io.playbackIdle)
    }

    /**
     Programs the transmitter with `c` and `v`, which must be its values, unless it is busy, faulty or
     active, or the waveform is not the current one.
     */
    method Program(c: Config, v: Values, io: CommandIo) returns (ok: bool, ghost outcome: TxControl.Programming)
      requires uploader.Valid() && TxControl.Sound(transmitter.tx)
      modifies this`s, transmitter, uploader.bram.words, uploader`gains, uploader`rescaled
      ensures uploader.Valid()
      ensures s == old(s).(registers := s.registers)
      ensures transmitter.tx == TxControl.Apply(old(transmitter.tx), io.sample, outcome)
      ensures ok <==> old(Programmable(c, io)) && Calculate(c, uploader.currentSamples) == Some(v)
      ensures ok ==> transmitter.tx.applied && Loaded(s.registers, c, v) && (c.mode == Wav ==> InMemory(c, v))
    {
      hide Calculate, WaveformUpload.Played, TxControl.Sound, WaveformUpload.Uploader.Valid;
      transmitter.PollTx(io.sample);
      var t := transmitter.tx;
      outcome := TxControl.Refused;
      if !t.initialized || t.fault || t.running || t.prepared || c.configId == 0 || c.configId > MAX_CONFIG_ID
         || Calculate(c, uploader.currentSamples) != Some(v) || io.active {
        return false, outcome;
      }
      if c.mode == Wav && (!playerAvailable || uploader.uploading || c.waveformId != uploader.currentId) {
        return false, outcome;
      }
      if !io.triggerLow {
        transmitter.tx := t.(fault := true);
        return false, TxControl.TriggerStuck;
      }
      transmitter.tx := t.(applied := false);
      outcome := TxControl.Unselected;
      ok := SelectSource(c, v, io.playbackIdle);
      if ok {
        outcome := TxControl.Programmed(v.durationUs + START_MARGIN_US + TIMEOUT_MARGIN_US);
        transmitter.tx := t.(timeout := v.durationUs + START_MARGIN_US + TIMEOUT_MARGIN_US, applied := true,
                             completed := false, aborted := false);
      }
    }

    /** Writes the registers of a generated chirp, or scales the current waveform and selects playback. */
    method SelectSource(c: Config, v: Values, idle: bool) returns (ok: bool)
      requires uploader.Valid() && Calculate(c, uploader.currentSamples) == Some(v)
      requires c.mode == Wav ==> playerAvailable && c.waveformId == uploader.currentId
      modifies this`s, uploader.bram.words, uploader`gains, uploader`rescaled
      ensures uploader.Valid()
      ensures s == old(s).(registers := s.registers)
      ensures ok == (playerAvailable && (c.mode == Wav ==> uploader.bram.initialized && idle))
      ensures ok ==> Loaded(s.registers, c, v) && (c.mode == Wav ==> InMemory(c, v))
    {
      hide Calculate, WaveformUpload.Played, WaveformUpload.Uploader.Valid;
      if c.mode == Generate {
        if !playerAvailable {
          return false;
        }
        s := s.(registers := Registers(v.startInc, v.step, v.samples, v.amplitude, false));
        return true;
      }
      WavValues(c, uploader.currentSamples);
      CurrentFits();
      ok := uploader.SetGain(v.samples, c.amplitudePct, idle);
      if ok {
        s := s.(registers := s.registers.(samples := v.samples, playback := true));
      }
    }

    /** What the owner has staged can be applied now. */
    predicate CanApply(session: uint32, p: seq<uint8>, io: CommandIo)
      reads this, transmitter, uploader, uploader.bram`initialized
    {
      && p == [] && s.staged && s.owner == session && !uploader.uploading && s.nextId < MAX_CONFIG_ID
      && (s.pending.mode == Wav ==> s.pending.waveformId == uploader.currentId)
      && Programmable(s.pending.(configId := s.nextId + 1), io)
    }

    /** Applies what is staged under a fresh id. Once the transmitter is touched, only success makes it valid again. */
    method ApplyStaged(session: uint32, p: seq<uint8>, io: CommandIo) returns (e: Error)
      requires Valid()
      modifies this, identity, transmitter, uploader.bram.words, uploader`gains, uploader`rescaled
      ensures Valid()
      ensures e == BadRequest <==> p != [] || !old(s).staged || old(s).owner != session
      ensures e == Fine <==> old(CanApply(session, p, io))
      ensures e == Fine ==> s.valid && !s.staged && s.nextId == old(s).nextId + 1
      ensures e == Fine ==>
        && Calculate(old(s).pending, uploader.currentSamples) == Some(s.values)
        && s.active == old(s).pending.(configId := s.nextId, durationUs := s.values.durationUs)
      ensures e == Fine ==> applied == old(applied) + [s.nextId] && !identity.prepared
      ensures e == Sequence ==> old(s).nextId == MAX_CONFIG_ID
      ensures e != Fine ==> applied == old(applied) && s.active == old(s).active && s.values == old(s).values
      ensures e != Fine && e != Hardware ==> State() == old(State())
      ensures e == Hardware ==> !s.valid && !identity.prepared && s.nextId == old(s).nextId + 1
      ensures identity.bootId == old(identity.bootId) && s.running == old(s).running && old(s).nextId <= s.nextId
      ensures playerAvailable == old(playerAvailable)
    {
      hide Calculate, WaveformUpload.Played, TxControl.Sound, WaveformUpload.Uploader.Valid;
      if p != [] || !s.staged || s.owner != session {
        return BadRequest;
      }
      if uploader.uploading {
        return Busy;
      }
      if s.pending.mode == Wav && s.pending.waveformId != uploader.currentId {
        return NoWaveform;
      }
      var calculated := Calculate(s.pending, uploader.currentSamples);
      if s.nextId < MAX_CONFIG_ID {
        ConfigIdUnused(s.pending, s.nextId + 1, uploader.currentSamples);
      }
      if calculated.None? {
        return Range;
      }
      if s.nextId >= MAX_CONFIG_ID {
        return Sequence;
      }
      e := ApplyFresh(calculated.value, io);
    }

    method ApplyFresh(v: Values, io: CommandIo) returns (e: Error)
      requires Valid() && s.staged && s.nextId < MAX_CONFIG_ID
      requires Calculate(s.pending, uploader.currentSamples) == Some(v)
      modifies this, identity, transmitter, uploader.bram.words, uploader`gains, uploader`rescaled
      ensures Valid() && (e == Fine || e == Hardware)
      ensures e == Fine <==> old(Programmable(s.pending.(configId := s.nextId + 1), io))
      ensures e == Fine ==>
        s == old(s).(pending := s.pending, registers := s.registers, nextId := old(s).nextId + 1, values := v,
                     active := s.pending.(durationUs := v.durationUs), valid := true, staged := false)
      ensures s.pending == old(s).pending.(configId := old(s).nextId + 1)
      ensures e == Fine ==> applied == old(applied) + [s.nextId]
      ensures e == Hardware ==> applied == old(applied)
      ensures e == Hardware ==>
        s == old(s).(pending := s.pending, registers := s.registers, nextId := old(s).nextId + 1, valid := false)
      ensures !identity.prepared && identity.bootId == old(identity.bootId) && playerAvailable == old(playerAvailable)
    {
      hide Calculate, WaveformUpload.Played, TxControl.Sound, IdsSound;
      hide WaveformUpload.Uploader.Valid, TxControl.Apply, Loaded;
      identity.Disarm();
      var t := s.(nextId := s.nextId + 1, pending := s.pending.(configId := s.nextId + 1), valid := false);
      ConfigIdUnused(s.pending, t.nextId, uploader.currentSamples);
      ConfigIdUnused(s.pending, t.nextId, 0);
      assert s.active.configId <= s.nextId by {
        LastId(s, applied);
      }
      FreshId(s, t, applied);
      s := t;
      ghost var was := transmitter.tx;
      var programmed, outcome := Program(t.pending, v, io);
      TxControl.StepKeeps(was, TxControl.Applied(io.sample, outcome));
      ApplyKeepsInitialized(was, io.sample, outcome);
      if !programmed {
        SameIds(t, s, applied);
        return Hardware;
      }
      var u := s.(active := t.pending.(durationUs := v.durationUs), values := v, valid := true, staged := false);
      RecalculationAgrees(t.pending, uploader.currentSamples);
      SameIds(t, s, applied);
      NewId(s, u, applied);
      LoadedAgrees(s.registers, t.pending, u.active, v);
      s, applied := u, applied + [u.nextId];
      return Fine;
    }

    // What the board answers, by command

    static function BootAnswer(p: seq<uint8>, boot: Id): Error {
      if |p| != 16 then BadRequest
      else if Words(p, 0) != ZERO && (boot == ZERO || Words(p, 0) == boot) then Fine else Range
    }

    function ArmAnswer(p: seq<uint8>): Error
      reads this`s, uploader, identity
    {
      if |p| != 36 || !s.valid || s.staged || uploader.uploading || Word(p, 32) != s.active.configId then BadRequest
      else if Words(p, 0) != ZERO && Words(p, 16) != ZERO
              && Words(p, 0) == identity.bootId && Words(p, 16) != identity.testId then Fine
      else Range
    }

    function SelectAnswer(p: seq<uint8>): Error
      reads uploader
    {
      if |p| != 8 then BadRequest
      else if Word(p, 0) == 0 || Word(p, 0) != uploader.currentId then NoWaveform
      else if Word(p, 4) <= 100 then Fine else Range
    }

    function BeginAnswer(p: seq<uint8>): Error
      reads uploader, transmitter
    {
      if |p| != 8 then BadRequest
      else if !transmitter.tx.initialized || transmitter.tx.fault then Hardware
      else if Accepts(Word(p, 0)) then Fine else Range
    }

    ghost function AppendAnswer(session: uint32, p: seq<uint8>, io: CommandIo): Error
      requires uploader.Valid()
      reads this`s, uploader, uploader.header, uploader.fmt, uploader.frame, uploader.bram, uploader.bram.words
    {
      if |p| <= 4 || s.owner != session then BadRequest
      else if Appends(Word(p, 0), p[4..], io.uploadIdle) then Fine else Range
    }

    ghost function CommitAnswer(session: uint32, p: seq<uint8>, io: CommandIo): Error
      requires uploader.Valid()
      reads this`s, uploader, uploader.header, uploader.fmt, uploader.frame, uploader.bram, uploader.bram.words
    {
      if p != [] || s.owner != session then BadRequest else if Commits(io.playbackIdle) then Fine else Checksum
    }

    /** The sequencer is idle and nobody else owns the service. */
    predicate Permitted(session: uint32, mutable: bool)
      reads this`s
    {
      mutable && !s.running && session != 0 && (s.owner == 0 || s.owner == session)
    }

    /**
     One command from one session. Only the owner, or anybody while there is no owner, changes anything,
     and only while the sequencer is idle; ending the owner's session is the exception.
     */
    method Command(session: uint32, op: Op, p: seq<uint8>, mutable: bool, io: CommandIo) returns (e: Error)
      requires Valid()
      modifies this, identity, transmitter, uploader, uploader.header, uploader.fmt, uploader.frame
      modifies uploader.bram`initialized, uploader.bram.words
      ensures Valid()
      ensures old(s).owner != 0 && session != old(s).owner ==> State() == old(State())
      ensures (!mutable || old(s).running) && !(op == EndSession && session == old(s).owner) ==> State() == old(State())
      ensures old(applied) <= applied && old(s).nextId <= s.nextId
      ensures s.active != old(s).active ==>
        op == ApplyPending && e == Fine && s.active.configId == s.nextId == old(s).nextId + 1
      ensures op == ApplyPending && e == Fine ==> s.valid && !s.staged && !identity.prepared
      ensures op == ApplyPending && e == Fine ==>
        s.active == old(s).pending.(configId := s.nextId, durationUs := s.values.durationUs)
      ensures op == ApplyPending && old(Permitted(session, mutable)) ==> (e == Fine <==> old(CanApply(session, p, io)))
      ensures op == SetGenerated && old(Permitted(session, mutable)) ==>
        e == if |p| != 16 then BadRequest else if Stageable(p) then Fine else Range
      ensures op == SetGenerated && e == Fine ==>
        |p| == 16 && s == old(s).(pending := Generated(p), staged := true, owner := session)
      ensures op == SetGenerated || op == ApplyPending ==>
        uploader.uploading == old(uploader.uploading) && uploader.currentId == old(uploader.currentId)
      ensures op == SetGenerated ==> transmitter.tx == old(transmitter.tx)
      ensures playerAvailable == old(playerAvailable)
      ensures old(identity.bootId) != ZERO ==> identity.bootId == old(identity.bootId)
      ensures s.running == old(s).running
      ensures op == SetBootId && old(Permitted(session, mutable)) ==>
        && e == BootAnswer(p, old(identity.bootId))
        && identity.bootId == (if e == Fine then Words(p, 0) else old(identity.bootId))
      ensures op == PrepareTest && old(Permitted(session, mutable)) ==>
        && e == old(ArmAnswer(p))
        && (e == Fine ==> identity.prepared && identity.testId == Words(p, 16))
      ensures op == SelectWaveform && old(Permitted(session, mutable)) ==>
        && e == old(SelectAnswer(p))
        && (e == Fine ==>
             s == old(s).(pending := Config(Wav, 0, 0, 0, Word(p, 4), Word(p, 0), 0), staged := true, owner := session))
      ensures op == UploadBegin && old(Permitted(session, mutable)) ==>
        && e == old(BeginAnswer(p))
        && (e == Fine ==> Begun(Word(p, 0), Word(p, 4)) && s.owner == session && !s.staged)
      ensures op == UploadData && old(Permitted(session, mutable)) ==>
        && e == old(AppendAnswer(session, p, io))
        && (e == Fine ==> uploader.parser.received == old(uploader.parser).received + |p| - 4)
      ensures op == UploadCommit && old(Permitted(session, mutable)) ==>
        && e == old(CommitAnswer(session, p, io))
        && (e == Fine ==> uploader.history == old(uploader.history) + [old(uploader.pcm)])
      ensures op == UploadCancel && old(Permitted(session, mutable)) ==>
        if p == [] then e == Fine && !uploader.uploading else e == BadRequest
      ensures op == Unknown && old(Permitted(session, mutable)) ==> e == BadRequest && State() == old(State())
      ensures op == GetCapabilities || op == GetConfiguration ==>
        e == (if p == [] then Fine else BadRequest) && State() == old(State())
      ensures op == EndSession ==>
        e == Fine && (session == old(s).owner ==> s.owner == 0 && !s.staged && !uploader.uploading)
      ensures op != GetCapabilities && op != GetConfiguration && op != EndSession
              && !old(Permitted(session, mutable)) ==>
        e == Busy && State() == old(State())
    {
      hide Calculate, Word, Words, WaveformUpload.Played, TxControl.Sound;
      hide IdsSound, WaveformUpload.Uploader.Valid, Loaded, Valid;
      hide CanApply, Programmable, Generated, Stageable, Accepts, Appends, Commits, Begun;
      hide BootAnswer, ArmAnswer, SelectAnswer, BeginAnswer, AppendAnswer, CommitAnswer;
      if op == GetCapabilities || op == GetConfiguration {
        return if p == [] then Fine else BadRequest;
      }
      if op == EndSession {
        End(session);
        return Fine;
      }
      if !mutable || s.running {
        return Busy;
      }
      if session == 0 || (s.owner != 0 && s.owner != session) {
        return Busy;
      }
      if op == UploadBegin || op == UploadData || op == UploadCommit || op == UploadCancel {
        e := PerformUpload(session, op, p, io);
      } else {
        e := Configure(session, op, p, io);
      }
    }

    /** The commands of an upload. */
    method PerformUpload(session: uint32, op: Op, p: seq<uint8>, io: CommandIo) returns (e: Error)
      requires Valid() && session != 0
      requires op == UploadBegin || op == UploadData || op == UploadCommit || op == UploadCancel
      modifies this`s, uploader, uploader.header, uploader.fmt, uploader.frame
      modifies uploader.bram`initialized, uploader.bram.words
      ensures Valid()
      ensures s.active == old(s).active && s.nextId == old(s).nextId && s.running == old(s).running
      ensures op == UploadBegin ==>
        && e == old(BeginAnswer(p))
        && (e == Fine ==> Begun(Word(p, 0), Word(p, 4)) && s.owner == session && !s.staged)
      ensures op == UploadData ==>
        && e == old(AppendAnswer(session, p, io))
        && (e == Fine ==> uploader.parser.received == old(uploader.parser).received + |p| - 4)
      ensures op == UploadCommit ==>
        && e == old(CommitAnswer(session, p, io))
        && (e == Fine ==> uploader.history == old(uploader.history) + [old(uploader.pcm)])
      ensures op == UploadCancel ==> if p == [] then e == Fine && !uploader.uploading else e == BadRequest
    {
      hide Calculate, Word, Words, WaveformUpload.Played, TxControl.Sound;
      hide IdsSound, WaveformUpload.Uploader.Valid, Loaded, Valid;
      hide CanApply, Programmable, Generated, Stageable, Accepts, Appends, Commits, Begun;
      if op == UploadBegin {
        e := BeginUpload(session, p);
      } else if op == UploadData {
        e := AppendUpload(session, p, io);
      } else if op == UploadCommit {
        e := CommitUpload(session, p, io);
      } else {
        e := CancelUpload(p);
      }
    }

    /** The other commands that change something. */
    method Configure(session: uint32, op: Op, p: seq<uint8>, io: CommandIo) returns (e: Error)
      requires Valid() && session != 0
      requires op == SetBootId || op == PrepareTest || op == SetGenerated || op == SelectWaveform || op == ApplyPending
               || op == Unknown
      modifies this, identity, transmitter, uploader.bram.words, uploader`gains, uploader`rescaled
      ensures Valid()
      ensures old(applied) <= applied && old(s).nextId <= s.nextId
      ensures s.active != old(s).active ==>
        op == ApplyPending && e == Fine && s.active.configId == s.nextId == old(s).nextId + 1
      ensures op == ApplyPending && e == Fine ==> s.valid && !s.staged && !identity.prepared
      ensures op == ApplyPending && e == Fine ==>
        s.active == old(s).pending.(configId := s.nextId, durationUs := s.values.durationUs)
      ensures op == ApplyPending ==> (e == Fine <==> old(CanApply(session, p, io)))
      ensures op == SetGenerated ==> e == if |p| != 16 then BadRequest else if Stageable(p) then Fine else Range
      ensures op == SetGenerated && e == Fine ==>
        |p| == 16 && s == old(s).(pending := Generated(p), staged := true, owner := session)
      ensures op == SetGenerated ==> transmitter.tx == old(transmitter.tx)
      ensures playerAvailable == old(playerAvailable)
      ensures old(identity.bootId) != ZERO ==> identity.bootId == old(identity.bootId)
      ensures s.running == old(s).running
      ensures op == SetBootId ==>
        && e == BootAnswer(p, old(identity.bootId))
        && identity.bootId == (if e == Fine then Words(p, 0) else old(identity.bootId))
      ensures op == PrepareTest ==>
        && e == old(ArmAnswer(p))
        && (e == Fine ==> identity.prepared && identity.testId == Words(p, 16))
      ensures op == SelectWaveform ==>
        && e == old(SelectAnswer(p))
        && (e == Fine ==>
             s == old(s).(pending := Config(Wav, 0, 0, 0, Word(p, 4), Word(p, 0), 0), staged := true, owner := session))
      ensures op == Unknown ==> e == BadRequest && State() == old(State())
    {
      hide Calculate, Word, Words, WaveformUpload.Played, TxControl.Sound;
      hide IdsSound, WaveformUpload.Uploader.Valid, Loaded, Valid;
      hide CanApply, Programmable, Generated, Stageable, Accepts, Appends, Commits, Begun;
      if op == SetBootId {
        e := SetBootIdentity(p);
      } else if op == PrepareTest {
        e := Arm(p);
      } else if op == SetGenerated {
        e := StageGenerated(session, p);
      } else if op == SelectWaveform {
        e := StageWaveform(session, p);
      } else if op == ApplyPending {
        e := ApplyStaged(session, p, io);
      } else {
        e := BadRequest;
      }
    }

    /** What the sequencer does with the transmitter leaves its programming alone. */
    method Transmit(c: TxControl.Call)
      requires Valid() && !c.Applied? && !c.Startup?
      modifies transmitter
      ensures Valid() && transmitter.tx == TxControl.Step(old(transmitter.tx), c)
    {
      hide Calculate, WaveformUpload.Played, TxControl.Sound, IdsSound, WaveformUpload.Uploader.Valid, TxControl.Step;
      TxControl.StepKeeps(transmitter.tx, c);
      OtherCallsKeepProgramming(transmitter.tx, c);
      transmitter.tx := TxControl.Step(transmitter.tx, c);
    }

    /**
     A scan that may start transmits exactly the active configuration; with an armed test, the one it was armed for.
     */
    lemma StartIsProgrammed()
      requires Valid() && CanStart()
      ensures ActiveIsProgrammed() && 0 < s.active.configId <= MAX_CONFIG_ID
      ensures s.active.mode == Wav ==> InMemory(s.active, s.values) && s.registers.playback
      ensures s.active.mode == Generate ==>
        s.registers == Registers(s.values.startInc, s.values.step, s.values.samples, s.values.amplitude, false)
      ensures identity.prepared ==> armedFor == s.active.configId && identity.bootId != ZERO && identity.testId != ZERO
    {
      hide Calculate, WaveformUpload.Played, TxControl.Sound, WaveformUpload.Uploader.Valid;
    }

    /** A scan may start exactly with a valid configuration, nothing staged, no upload and no scan running. */
    lemma StartsExactly()
      requires Valid()
      ensures CanStart() <==> s.valid && !s.staged && !uploader.uploading && !s.running
    {
      if s.valid {
        ValidImpliesCurrentWaveform();
      }
    }

    /** While a configuration is valid its waveform is current, so the start condition need not look. */
    lemma ValidImpliesCurrentWaveform()
      requires Valid() && s.valid
      ensures s.active.mode == Wav ==> s.active.waveformId == uploader.currentId != 0 && !uploader.uploading
    {
      hide Calculate, WaveformUpload.Played, TxControl.Sound, IdsSound, Loaded;
    }
  }

  lemma LastId(s: Settings, applied: seq<nat>)
    requires IdsSound(s, applied)
    ensures s.active.configId <= s.nextId <= MAX_CONFIG_ID
  {
  }

  lemma LoadedAgrees(r: Registers, c: Config, d: Config, v: Values)
    requires Loaded(r, c, v) && c.mode == d.mode
    ensures Loaded(r, d, v)
  {
  }

  lemma OtherCallsKeepProgramming(t: TxControl.Tx, c: TxControl.Call)
    requires TxControl.Sound(t) && !c.Applied? && !c.Startup?
    ensures TxControl.Step(t, c).applied == t.applied && TxControl.Step(t, c).initialized == t.initialized
  {
    match c {
      case Polled(x) => TxControl.PollKeeps(t, x);
      case Prepared(x, _, _) => TxControl.PollKeeps(t, x);
      case Aborted(io) =>
        TxControl.DrainKeeps(TxControl.Poll(t.(prepared := false), io.first), io.later);
      case _ =>
    }
  }

  lemma ApplyKeepsInitialized(t: TxControl.Tx, x: TxControl.Sample, outcome: TxControl.Programming)
    ensures TxControl.Apply(t, x, outcome).initialized == t.initialized
  {
  }

  lemma WavValues(c: Config, n: nat)
    requires Calculate(c, n).Some? && c.mode == Wav
    ensures Calculate(c, n).value.samples == n && c.amplitudePct <= 100 && c.waveformId != 0
  {
  }

  lemma ConfigIdUnused(c: Config, id: uint32, n: nat)
    ensures Calculate(c.(configId := id), n) == Calculate(c, n)
  {
    hide Increment, StepOf, SampleCount, Duration, Amplitude;
  }

  lemma FreshId(s: Settings, t: Settings, applied: seq<nat>)
    requires IdsSound(s, applied) && s.nextId < MAX_CONFIG_ID
    requires t.nextId == s.nextId + 1 && t.active == s.active && !t.valid
    ensures IdsSound(t, applied) && forall i :: 0 <= i < |applied| ==> applied[i] < t.nextId
  {
  }

  lemma NewId(s: Settings, u: Settings, applied: seq<nat>)
    requires s.nextId == u.nextId <= MAX_CONFIG_ID && u.active.configId == u.nextId > 0
    requires IdsSound(s, applied) && forall i :: 0 <= i < |applied| ==> applied[i] < u.nextId
    ensures IdsSound(u, applied + [u.nextId])
  {
  }

  /** A generated chirp does not depend on the waveform in memory. */
  lemma WavSamplesUnused(c: Config, m: nat, n: nat)
    ensures c.mode == Generate ==> Calculate(c, m) == Calculate(c, n)
  {
    hide Increment, StepOf, SampleCount, Duration, Amplitude;
  }

  const QUIET_IO := CommandIo(TxControl.Sample(TxControl.Status(false, false, false), 0), false, true, true,
                              WaveformParser.Always())

  /** A chirp from 1000 Hz to 2000 Hz, 10000 microseconds long, at half amplitude. */
  const CHIRP: seq<uint8> := [0xE8, 0x03, 0, 0, 0xD0, 0x07, 0, 0, 0x10, 0x27, 0, 0, 50, 0, 0, 0]

  lemma ChirpIsStageable()
    ensures Stageable(CHIRP)
    ensures Generated(CHIRP) == Config(Generate, 1000, 2000, 10000, 50, 0, 0)
  {
    hide Little, Calculate, Pow2;
    assert CHIRP[0..4] == [0xE8, 0x03, 0, 0] && CHIRP[4..8] == [0xD0, 0x07, 0, 0];
    assert CHIRP[8..12] == [0x10, 0x27, 0, 0] && CHIRP[12..16] == [50, 0, 0, 0];
    FourBytes(0xE8, 0x03, 0, 0);
    FourBytes(0xD0, 0x07, 0, 0);
    FourBytes(0x10, 0x27, 0, 0);
    FourBytes(50, 0, 0, 0);
    AcceptedExactly(Generated(CHIRP), 0);
  }

  lemma FourBytes(a: uint8, b: uint8, c: uint8, d: uint8)
    ensures Little([a, b, c, d]) == a + 0x100 * b + 0x1_0000 * c + 0x100_0000 * d
  {
    var all := [a, b, c, d];
    assert all[1..] == [b, c, d] && [b, c, d][1..] == [c, d] && [c, d][1..] == [d] && [d][1..] == [];
    assert Little([]) == 0;
    assert Little([d]) == d;
    assert Little([c, d]) == c + 0x100 * d;
    assert Little([b, c, d]) == b + 0x100 * c + 0x1_0000 * d;
  }

  /** From reset: start up, stage a chirp, apply it. A scan may then start. */
  method StartableService() returns (service: Service)
    ensures fresh(service) && service.Valid() && service.CanStart()
    ensures var c := service.s.active;
      c == Config(Generate, 1000, 2000, c.durationUs, 50, 0, 1)
  {
    hide Calculate, Word, Loaded, IdsSound, TxControl.Sound, WaveformUpload.Played, WaveformUpload.Uploader.Valid;
    hide Service.ActiveIsProgrammed, Generated, Stageable;
    var bram := new TxBram.Bram(4096);
    var uploader := new WaveformUpload.Uploader(bram);
    service := new Service(uploader);
    var up := service.StartUp(TxControl.InitIo(true, false, true, true));
    ChirpIsStageable();
    var staged := service.Command(1, SetGenerated, CHIRP, true, QUIET_IO);
    assert staged == Fine;
    forall n {
      ChirpIsApplicable(n);
    }
    assert service.CanApply(1, [], QUIET_IO);
    var applied := service.Command(1, ApplyPending, [], true, QUIET_IO);
  }

  lemma ChirpIsApplicable(n: nat)
    ensures Calculate(Config(Generate, 1000, 2000, 10000, 50, 0, 1), n).Some?
  {
    AcceptedExactly(Config(Generate, 1000, 2000, 10000, 50, 0, 1), n);
  }
}
