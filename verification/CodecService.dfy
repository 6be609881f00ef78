/** Configuring the codec: ten register writes, each after the previous one is acknowledged. */
module CodecService {
  import opened MachineIntegers
  import opened CodecBus

  const WRITES := 10
  const TICKS := 0x1_0000_0000

  datatype Register = Register(reg: nat, value: nat)

  const TABLE: seq<Register> := [
    Register(0x0f, 0x000), Register(0x06, 0x077), Register(0x02, 0x17f), Register(0x03, 0x17f), Register(0x04, 0x010),
    Register(0x05, 0x000), Register(0x07, 0x002), Register(0x08, 0x01c), Register(0x09, 0x001), Register(0x06, 0x067)]

  /** When a write was acknowledged, and the reading of the bus that proved it. */
  datatype Acknowledgement = Acknowledgement(at: nat, reading: Reading)

  datatype State = Off | Configuring | Ready | Faulty
  datatype Phase = WaitPower | WaitAck | WaitVmid
  datatype Delays = Delays(powerup: uint32, vmid: uint32, write: uint32, volume: nat)

  datatype SpeakerFields = SpeakerFields(state: State, phase: Phase, phaseTick: uint32, token: uint32, index: nat,
                                         busOwned: bool,
                           outputEnabled: bool, muteConfirmed: bool)

  /** What the hardware answers to one call. */
  datatype Io = Io(idle: bool, reset: bool, muted: bool)

  /** The volume replaces the table's value in the two headphone registers. */
  function Setting(i: nat, volume: nat): Register
    requires i < WRITES
  {
    if i == 2 || i == 3 then Register(TABLE[i].reg, 0x100 + volume) else TABLE[i]
  }

  function Encode(r: Register): Bytes
    requires r.reg <= 127 && r.value <= 511
  {
    Bytes(2 * r.reg + r.value / 0x100, r.value % 0x100)
  }

  /** The table's registers are written in order; both headphone volumes are the configured one, with the update bit. */
  lemma VolumeIsSet(i: nat, volume: nat)
    requires i < WRITES
    ensures Setting(i, volume).reg == TABLE[i].reg
    ensures Setting(i, volume).value ==
            if TABLE[i].reg == 2 || TABLE[i].reg == 3 then 0x100 + volume else TABLE[i].value
  {
  }

  lemma SettingFits(i: nat, volume: nat)
    requires i < WRITES && volume <= 127
    ensures Setting(i, volume).reg <= 127 && Setting(i, volume).value <= 511
  {
  }

  function BytesOf(i: nat, volume: nat): Bytes
    requires i < WRITES && volume <= 127
  {
    SettingFits(i, volume);
    Encode(Setting(i, volume))
  }

  /** Register and value can be read back from the two bytes. */
  lemma EncodingRoundTrip(r: Register)
    requires r.reg <= 127 && r.value <= 511
    ensures var b := Encode(r); r == Register(b.first / 2, b.first % 2 * 0x100 + b.second)
  {
  }

  /** The FIFO words of the first `n` writes. */
  function Sequence(n: nat, volume: nat): seq<nat>
    requires n <= WRITES && volume <= 127
  {
    if n == 0 then [] else Sequence(n - 1, volume) + WordsOf(BytesOf(n - 1, volume))
  }

  lemma {:induction false} SequencePrefix(m: nat, n: nat, volume: nat)
    requires m <= n <= WRITES && volume <= 127
    ensures Sequence(m, volume) <= Sequence(n, volume)
    decreases n
  {
    if m < n {
      SequencePrefix(m, n - 1, volume);
    }
  }

  /** Unsigned difference of wrapping tick counts never exceeds the time that really passed. */
  lemma ElapsedIsHonest(now: nat, then_: nat, delay: nat)
    requires then_ <= now && (now % TICKS - then_ % TICKS) % TICKS >= delay
    ensures then_ + delay <= now
  {
    var d := now - then_;
    assert (now % TICKS - then_ % TICKS) % TICKS == d % TICKS;
  }

  function Ticks(now: uint32, since: uint32): uint32 {
    if now >= since then now - since else now - since + TICKS
  }

  /** Up to one whole turn of the counter the difference is the time that passed. */
  lemma TicksAreElapsed(now: nat, since: nat)
    requires since <= now < since + TICKS
    ensures Ticks(now % TICKS, since % TICKS) == now - since
  {
  }

  class Speaker {
    const bus: Bus
    const delays: Delays

    var s: SpeakerFields

    /** When each write was started and acknowledged, in unwrapped ticks; words of the current write already pushed. */
    ghost var began: nat
    ghost var starts: seq<nat>
    ghost var acks: seq<Acknowledgement>
    ghost var sent: nat
    ghost var clock: nat

    ghost predicate Settings() {
      delays.volume <= 127
    }

    /** The words pushed are the sequence so far: whole acknowledged writes, then part of the current one. */
    ghost predicate InSequence()
      requires Settings()
      reads this, bus
    {
      && s.index <= WRITES && sent <= 3 && (s.index == WRITES ==> sent == 0)
      && |acks| == s.index && |starts| == s.index + (if sent > 0 then 1 else 0)
      && bus.pushed == Sequence(s.index, delays.volume) +
                       (if s.index < WRITES then WordsOf(BytesOf(s.index, delays.volume))[..sent] else [])
    }

    /** Every write waits for the one before; the first for power-up, the ninth for the VMID delay. */
    ghost predicate OnTime()
      reads this
    {
      && (forall i :: 0 < i < |starts| ==> i - 1 < |acks| && acks[i - 1].at <= starts[i])
      && (|starts| > 0 ==> began + delays.powerup <= starts[0])
      && (|starts| > 8 ==> |acks| > 7 && acks[7].at + delays.vmid <= starts[8])
      && (forall i :: 0 <= i < |acks| ==> acks[i].at <= clock && Proves(acks[i].reading)) && began <= clock
    }

    /** What is under way on the bus is the current write. */
    ghost predicate Current()
      requires Settings()
      reads this, bus
    {
      bus.f.active ==>
        && s.index < WRITES && bus.f.bytes == BytesOf(s.index, delays.volume)
        && sent == (if bus.f.waitingForBusy then 1 else 3)
    }

    ghost predicate Machine()
      reads this, bus
    {
      match s.state
      case Off => s.index == 0 && sent == 0 && !bus.f.active && !s.outputEnabled
      case Configuring =>
        && s.index < WRITES && !s.outputEnabled
        && (s.phase == WaitAck ==> bus.f.active && !bus.f.terminal && bus.f.token == s.token)
        && (s.phase != WaitAck ==> !bus.f.active && sent == 0)
        && (s.phase == WaitPower ==> s.index == 0 && s.phaseTick == began % TICKS)
        && (s.phase == WaitVmid ==> s.index == 8 == |acks| && s.phaseTick == acks[7].at % TICKS)
      case Ready => s.index == WRITES && !bus.f.active
      case Faulty => s.outputEnabled ==> s.index == WRITES && !s.muteConfirmed
    }

    ghost predicate Valid()
      reads this, bus
    {
      Settings() && InSequence() && OnTime() && Current() && Machine()
    }

    constructor (bus: Bus, delays: Delays)
      requires bus.pushed == [] && !bus.f.active && delays.volume <= 127
      ensures Valid() && s.state == Off && this.bus == bus && this.delays == delays && clock == 0
    {
      this.bus, this.delays := bus, delays;
      s := SpeakerFields(Off, WaitPower, 0, 0, 0, false, false, false);
      began, starts, acks, sent, clock := 0, [], [], 0, 0;
    }

    /** At any moment the words pushed are a prefix of the ten writes; all of them, and acknowledged, when ready. */
    lemma PushedIsPrefix()
      requires Valid()
      ensures bus.pushed <= Sequence(WRITES, delays.volume)
      ensures s.state == Ready ==> bus.pushed == Sequence(WRITES, delays.volume) && |acks| == |starts| == WRITES
      ensures forall i :: 0 <= i < |acks| ==> Proves(acks[i].reading)
      ensures s.outputEnabled ==> |acks| == WRITES && (s.state == Ready || !s.muteConfirmed)
    {
      if s.index < WRITES {
        SequencePrefix(s.index + 1, WRITES, delays.volume);
      }
    }

    method Mute(muted: bool) returns (ok: bool)
      modifies this`s
      ensures s == old(s).(muteConfirmed := muted, outputEnabled := old(s).outputEnabled && !muted) && ok == muted
    {
      s := s.(muteConfirmed := muted);
      if muted {
        s := s.(outputEnabled := false);
      }
      return muted;
    }

    /** Faults mute the output and give up the bus; nothing about what was pushed changes. */
    method Fail(io: Io)
      requires Settings() && InSequence() && OnTime() && Current() && (s.outputEnabled ==> s.index == WRITES)
      modifies this`s, bus
      ensures Valid() && s.state == Faulty && bus.pushed == old(bus.pushed)
      ensures s.outputEnabled ==> !io.muted && old(s).outputEnabled
    {
      hide Sequence, BytesOf;
      s := s.(state := Faulty);
      var _ := Mute(io.muted);
      if s.busOwned {
        var aborted := bus.Abort(io.reset);
        if aborted {
          s := s.(busOwned := false);
        }
      }
    }

    method Begin(now: nat, muted: bool) returns (ok: bool)
      requires Valid() && clock <= now
      modifies this
      ensures Valid() && clock == now
      ensures ok == (old(s).state == Off && muted) && bus.pushed == old(bus.pushed)
      ensures ok ==> s.state == Configuring && began == now && s.phase == WaitPower && s.phaseTick == now % TICKS
      ensures ok ==> s.index == 0
    {
      hide Sequence, BytesOf;
      clock := now;
      if s.state != Off {
        return false;
      }
      ok := Mute(muted);
      if !ok {
        s := s.(state := Faulty);
        return;
      }
      began := now;
      s := s.(state := Configuring, phase := WaitPower, phaseTick := now % TICKS);
    }

    /** Starts the write that is due. */
    method IssueWrite(now: nat, io: Io)
      requires Settings() && InSequence() && OnTime() && s.index < WRITES && sent == 0 && !bus.f.active
      requires !s.outputEnabled && s.state == Configuring && clock == now
      requires s.index == 0 ==> began + delays.powerup <= now
      requires s.index == 8 ==> acks[7].at + delays.vmid <= now
      modifies this`s, this`starts, this`sent, bus
      ensures Valid() && acks == old(acks)
      ensures s.state == if io.idle && !old(bus.f).quarantined then Configuring else Faulty
      ensures s.state == Configuring ==> Issued(now) && starts == old(starts) + [now] && s.index == old(s).index
      ensures s.state == Faulty ==> starts == old(starts) && bus.pushed == old(bus.pushed)
    {
      hide Sequence, BytesOf;
      var token := if s.token == UINT32_MAX then 1 else s.token + 1;
      s := s.(token := token, phase := WaitAck, phaseTick := now % TICKS, busOwned := true);
      var bytes := BytesOf(s.index, delays.volume);
      var started := bus.Write(bytes, token, io.idle);
      if started {
        sent, starts := 1, starts + [now];
      } else {
        Fail(io);
      }
    }

    /** A write has just been started. */
    predicate Issued(now: nat)
      reads this`s, bus
    {
      && s.phase == WaitAck && s.phaseTick == now % TICKS && bus.f.active && bus.f.waitingForBusy && !bus.f.terminal
      && !bus.f.quarantined
    }

    /** The time since the present phase began, as the wrapping tick counter shows it. */
    function Waited(now: nat): uint32
      reads this`s
    {
      Ticks(now % TICKS, s.phaseTick)
    }

    /** Configuration waits for power or for VMID, and has waited long enough. */
    predicate WriteIsDue(now: nat)
      reads this`s
    {
      && s.state == Configuring && s.phase != WaitAck
      && Waited(now) >= if s.phase == WaitPower then delays.powerup else delays.vmid
    }

    predicate AwaitsAck()
      reads this`s
    {
      s.state == Configuring && s.phase == WaitAck
    }

    method Poll(now: nat, io: Io)
      requires Valid() && clock <= now
      modifies this`s, this`starts, this`sent, this`clock, bus
      ensures Valid() && clock == now && acks == old(acks)
      ensures s.state != Faulty ==> bus.f.quarantined == old(bus.f).quarantined
      ensures old(s).state != Configuring ==> s == old(s) && bus.pushed == old(bus.pushed) && bus.f == old(bus.f)
      ensures old(AwaitsAck()) && old(Waited(now)) < delays.write ==>
        s == old(s) && bus.f == old(bus.f) && bus.pushed == old(bus.pushed) && sent == old(sent)
      ensures old(AwaitsAck()) && old(Waited(now)) >= delays.write ==> s.state == Faulty
      ensures old(s).state == Configuring && !old(AwaitsAck()) && !old(WriteIsDue(now)) ==>
        s == old(s) && bus.f == old(bus.f) && bus.pushed == old(bus.pushed)
      ensures old(WriteIsDue(now)) ==>
        if io.idle && !old(bus.f).quarantined
        then s.state == Configuring && Issued(now) && |starts| == |old(starts)| + 1 && s.index == old(s).index
        else s.state == Faulty
    {
      hide Sequence, BytesOf;
      clock := now;
      if s.state != Configuring {
        return;
      }
      var elapsed := Ticks(now % TICKS, s.phaseTick);
      if s.phase == WaitAck {
        if elapsed >= delays.write {
          Fail(io);
        }
      } else {
        var delay := if s.phase == WaitPower then delays.powerup else delays.vmid;
        if elapsed >= delay {
          ElapsedIsHonest(now, if s.phase == WaitPower then began else acks[7].at, delay);
          IssueWrite(now, io);
        }
      }
    }

    /** Write `was` is acknowledged: after the last the codec is ready, the eighth waits for VMID, others go on. */
    predicate Advanced(was: nat, now: nat, able: bool)
      reads this`s, bus
    {
      if was + 1 < WRITES && was + 1 != 8 && !able then s.state == Faulty
      else
        && s.index == was + 1
        && if was + 1 == WRITES then s.state == Ready
           else if was + 1 == 8 then s.state == Configuring && s.phase == WaitVmid && s.phaseTick == now % TICKS
           else s.state == Configuring && Issued(now)
    }

    /** An acknowledgement of the current write moves on; a refusal is a fault; anything else is stale. */
    method OnEvent(token: uint32, acknowledged: bool, now: nat, io: Io, io2: Io, ghost r: Reading)
      requires Settings() && InSequence() && OnTime() && clock <= now
      requires s.state == Configuring && s.phase == WaitAck && s.index < WRITES && !s.outputEnabled
      requires acknowledged ==> !bus.f.active && sent == 3 && Proves(r)
      requires !acknowledged ==> Current()
      requires token == s.token
      modifies this`s, this`starts, this`acks, this`sent, this`clock, bus
      ensures Valid() && clock == now
      ensures !acknowledged || old(Waited(now)) >= delays.write ==> s.state == Faulty && |acks| == |old(acks)|
      ensures s.state != Faulty ==> bus.f.quarantined == old(bus.f).quarantined
      ensures acknowledged && old(Waited(now)) < delays.write ==>
        Advanced(old(s).index, now, io2.idle && !old(bus.f).quarantined)
    {
      hide Sequence, BytesOf, Proves;
      clock := now;
      if Ticks(now % TICKS, s.phaseTick) >= delays.write {
        Fail(io);
        return;
      }
      if !acknowledged {
        Fail(io);
        return;
      }
      Acknowledge(now, io2, r);
    }

    /** The current write is done; the next one follows, after the VMID delay where it is due. */
    method Acknowledge(now: nat, io2: Io, ghost r: Reading)
      requires Settings() && InSequence() && OnTime() && clock == now
      requires s.state == Configuring && s.phase == WaitAck && s.index < WRITES && !s.outputEnabled
      requires !bus.f.active && sent == 3 && Proves(r)
      modifies this`s, this`starts, this`acks, this`sent, bus
      ensures Valid()
      ensures s.state != Faulty ==> bus.f.quarantined == old(bus.f).quarantined
      ensures Advanced(old(s).index, now, io2.idle && !old(bus.f).quarantined)
    {
      hide Sequence, BytesOf, Proves;
      NextInSequence();
      acks, sent := acks + [Acknowledgement(now, r)], 0;
      s := s.(busOwned := false, index := s.index + 1);
      if s.index == WRITES {
        s := s.(state := Ready);
      } else if s.index == 8 {
        s := s.(phase := WaitVmid, phaseTick := now % TICKS);
      } else {
        IssueWrite(now, io2);
      }
    }

    lemma NextInSequence()
      requires Settings() && InSequence() && s.index < WRITES && sent == 3
      ensures bus.pushed == Sequence(s.index + 1, delays.volume)
    {
      var words := WordsOf(BytesOf(s.index, delays.volume));
      assert words[..3] == words;
    }

    /** One poll of the board: deadlines and delays first, then whatever the bus reports. */
    method BoardPoll(now: nat, r: Reading, io: Io, io2: Io, io3: Io)
      requires Valid() && clock <= now
      modifies this`s, this`starts, this`acks, this`sent, this`clock, bus
      ensures Valid() && clock == now
      ensures s.state != Faulty ==> bus.f.quarantined == old(bus.f).quarantined
      ensures old(AwaitsAck()) && (old(Waited(now)) >= delays.write || r.error) ==> s.state == Faulty
      ensures old(AwaitsAck()) && old(Waited(now)) < delays.write && !old(bus.f).waitingForBusy && Proves(r) ==>
        Advanced(old(s).index, now, io3.idle && !old(bus.f).quarantined)
      ensures old(AwaitsAck()) && old(Waited(now)) < delays.write && !r.error
              && !(!old(bus.f).waitingForBusy && Proves(r)) ==>
        s == old(s) && bus.f == old(bus.f).(waitingForBusy := old(bus.f).waitingForBusy && !r.busy)
      ensures old(WriteIsDue(now)) && io.idle && !old(bus.f).quarantined && !r.busy && !r.error ==>
        s.state == Configuring && Issued(now) && |starts| == |old(starts)| + 1 && s.index == old(s).index
      ensures old(WriteIsDue(now)) && !(io.idle && !old(bus.f).quarantined) ==> s.state == Faulty
      ensures old(s).state == Configuring && !old(AwaitsAck()) && !old(WriteIsDue(now)) ==> s == old(s)
    {
      hide Sequence, BytesOf;
      Poll(now, io);
      ghost var before := bus.f;
      var event := bus.Event(r);
      if event.Some? {
        if s.state == Configuring && s.phase == WaitAck {
          OnEvent(event.value.token, event.value.acknowledged, now, io2, io3, r);
        }
      } else if bus.f != before {
        sent := 3;
        MiddlePushed(before);
      }
    }

    lemma MiddlePushed(before: BusFields)
      requires Settings() && s.index < WRITES
      requires var words := WordsOf(BytesOf(s.index, delays.volume));
        bus.pushed == Sequence(s.index, delays.volume) + words[..1] + words[1..]
      ensures bus.pushed == Sequence(s.index, delays.volume) + WordsOf(BytesOf(s.index, delays.volume))[..3]
    {
    }

    /** The output is switched on only when all ten registers are written. */
    method Enable(enabled: bool, io: Io, done: bool) returns (ok: bool)
      requires Valid()
      modifies this`s, bus
      ensures Valid() && bus.pushed == old(bus.pushed)
      ensures ok == (old(s).state == Ready && (old(s).outputEnabled == enabled || done))
      ensures ok ==> s.state == Ready && s.outputEnabled == enabled && |acks| == WRITES
      ensures !ok && s.outputEnabled ==> old(s).outputEnabled
    {
      hide Sequence, BytesOf;
      if s.state != Ready {
        return false;
      }
      if s.outputEnabled == enabled {
        return true;
      }
      if !done {
        Fail(io);
        return false;
      }
      s := s.(outputEnabled := enabled, muteConfirmed := !enabled);
      return true;
    }

    method Cancel(io: Io)
      requires Valid()
      modifies this`s, bus
      ensures Valid() && bus.pushed == old(bus.pushed)
      ensures old(s).state == Configuring || old(s).state == Ready ==> s.state == Faulty
    {
      hide Sequence, BytesOf;
      if s.state == Configuring || s.state == Ready {
        Fail(io);
      }
    }
  }

  const GOOD := Io(true, true, true)
  const QUIET := Reading(false, false, false, false)
  const BUSY := Reading(false, false, true, false)
  const DONE := Reading(false, true, false, true)

  /** One write on a bus that behaves: seen busy, then proved. */
  method WriteOnce(speaker: Speaker, now: nat)
    requires speaker.Valid() && speaker.clock == now && speaker.delays.write > 0
    requires speaker.s.state == Configuring && speaker.Issued(now)
    modifies speaker, speaker.bus
    ensures speaker.Valid() && speaker.clock == now && !speaker.bus.f.quarantined
    ensures speaker.Advanced(old(speaker.s.index), now, true)
  {
    hide Sequence, BytesOf, Speaker.Valid, Ticks;
    TicksAreElapsed(now, now);
    speaker.BoardPoll(now, BUSY, GOOD, GOOD, GOOD);
    speaker.BoardPoll(now, DONE, GOOD, GOOD, GOOD);
  }

  /** With a bus that behaves, any delays and any volume, configuration ends ready. */
  method ReadySpeaker(delays: Delays) returns (speaker: Speaker)
    requires delays.volume <= 127 && delays.write > 0
    ensures fresh(speaker) && speaker.Valid() && speaker.s.state == Ready && speaker.delays == delays
  {
    hide Sequence, BytesOf, Speaker.Valid, Ticks;
    var bus := new Bus(true);
    speaker := new Speaker(bus, delays);
    var begun := speaker.Begin(0, true);
    var now: nat := delays.powerup;
    TicksAreElapsed(now, 0);
    speaker.BoardPoll(now, QUIET, GOOD, GOOD, GOOD);
    var i := 0;
    while i < WRITES
      invariant 0 <= i <= WRITES && speaker.Valid() && speaker.clock == now && !speaker.bus.f.quarantined
      invariant fresh(speaker) && fresh(speaker.bus) && speaker.delays == delays
      invariant i < WRITES ==> speaker.s.state == Configuring && speaker.s.index == i && speaker.Issued(now)
      invariant i == WRITES ==> speaker.s.state == Ready
    {
      WriteOnce(speaker, now);
      i := i + 1;
      if i == 8 {
        TicksAreElapsed(now + delays.vmid, now);
        now := now + delays.vmid;
        speaker.BoardPoll(now, QUIET, GOOD, GOOD, GOOD);
      }
    }
  }
}
