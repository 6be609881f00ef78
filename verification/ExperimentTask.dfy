/** The experiment task as it runs: one object whose fields every call updates in place. */
module ExperimentTask {
  import opened MachineIntegers
  import opened AudioLimits
  import opened Scan360
  import opened ScanSequencer
  import opened ScanSafety
  import FramePool
  import TxControl
  import Microphone

  lemma TxFaultIs(s: State, e: Inputs)
    ensures TxFault(s, e) == TxControl.Poll(s.tx, e.errorPoll).fault
  {
  }

  /** The history variables of the specification. */
  datatype History = History(run: Run, published: seq<Frame>, motion: Motion, pings: seq<Ping>, stops: seq<StopCall>,
                             starts: Starts)

  class Coordinator {
    const scanner: Scanner
    const transmitter: TxControl.Transmitter
    const microphone: Microphone.Capture
    const slots: array<FramePool.SlotState>

    var cycle: Cycle
    var filling: int
    var sequence: nat
    var requested: int32
    var prompt: Prompt
    var stopRequested: bool
    var inhibited: bool
    var faultReported: bool
    var armed: bool
    ghost var h: History

    /** Start-up; `io` is what the transmitter finds. */
    constructor (io: TxControl.InitIo)
      ensures Now().cycle == Cycle(Idle, 0, 0, 0, 0, 0, false, false, false, DEFAULT_TX_TIMEOUT_US, Idle)
      ensures Initial(Now()) && transmitter.tx == TxControl.Init(TxControl.CLEARED, io)
      ensures fresh(scanner) && fresh(transmitter) && fresh(microphone) && fresh(slots)
    {
      scanner := new Scanner();
      transmitter := new TxControl.Transmitter();
      microphone := new Microphone.Capture();
      slots := new FramePool.SlotState[FramePool.POOL_COUNT](_ => FramePool.Free);
      cycle := Cycle(Idle, 0, 0, 0, 0, 0, false, false, false, DEFAULT_TX_TIMEOUT_US, Idle);
      filling, sequence, requested, prompt := -1, 0, 0, NoPrompt;
      stopRequested, inhibited, faultReported, armed := false, false, false, false;
      h := History(Run(0, 0, 0, Still, 0, [], Nothing), [], Still, [], [], Starts(0, []));
      new;
      var _ := transmitter.InitTx(io);
    }

    ghost function Now(): State
      reads this, scanner, transmitter, microphone, slots
    {
      State(cycle, scanner.scan, transmitter.tx, microphone.mic, slots[..], filling, sequence, requested, prompt,
            stopRequested, inhibited, faultReported, armed, h.run, h.published, h.motion, h.pings, h.stops, h.starts)
    }

    method StopTheOutputs(io: StopIo) returns (ok: bool)
      modifies transmitter, this`h, this`armed
      ensures Now() == StopOutputs(old(Now()), io) && ok == Stops(old(Now()), io)
    {
      armed := false;
      var aborted := transmitter.AbortTx(io.abort);
      h := h.(stops := h.stops + [StopCall(io.muted, io.motorStopped, aborted)]);
      return io.muted && io.motorStopped && aborted;
    }

    method FailCycle(io: StopIo)
      modifies this`cycle, this`h, this`armed, transmitter
      ensures Now() == Fail(old(Now()), io)
    {
      cycle := cycle.(faultState := cycle.state);
      cycle := cycle.(state := Fault);
      var _ := StopTheOutputs(io);
    }

    method StopTheCycle(now: uint64, io: StopIo) returns (ok: bool)
      modifies this`cycle, this`h, this`armed, transmitter
      ensures Now() == StopCycle(old(Now()), now, io) && ok == Stops(old(Now()), io)
    {
      ok := StopTheOutputs(io);
      if !ok {
        if cycle.state != Fault {
          cycle := cycle.(faultState := cycle.state);
        }
        cycle := cycle.(state := Fault);
        return;
      }
      h := h.(motion := AfterHalt(h.motion, now));
      cycle := cycle.(stopping := true);
      if cycle.state != Acquire && cycle.state != Fault {
        cycle := cycle.(state := Stopped, since := now);
      }
    }

    method StartTheCycle(k: Key) returns (ok: bool)
      requires k.Start? && k.durationUs <= MAX_TX_US
      modifies this`cycle, this`h, this`armed, scanner
      ensures Now() == StartScan(old(Now()), k)
      ensures ok == (requested != 0 && IdleCycle(old(Now())))
    {
      cycle := cycle.(txTimeout := k.durationUs + START_MARGIN_US + TIMEOUT_MARGIN_US);
      scanner.Begin();
      if requested == 0 || (cycle.state != Idle && cycle.state != Stopped) {
        return false;
      }
      cycle := cycle.(steps := requested, stopping := false, received := false, transmitted := false);
      cycle := cycle.(state := WaitBuffer, since := k.now, lastPoll := k.now);
      var begin := Begin(k.canStart, armed, h.starts.tests, requested, scanner.scan.positions, scanner.scan.direction,
                         k.durationUs);
      h := h.(run := Run(scanner.scan.positions, scanner.scan.direction, cycle.count + 1, h.motion, k.now, [], Nothing),
              starts := h.starts.(scans := h.starts.scans + [begin]));
      armed := false;
      return true;
    }

    method AcquireSlot() returns (i: int)
      modifies slots
      ensures i == FirstFree(old(slots[..]))
      ensures slots[..] == if i < 0 then old(slots[..]) else old(slots[..])[i := FramePool.Filling]
    {
      i := 0;
      while i < slots.Length
        invariant 0 <= i <= slots.Length
        invariant slots[..] == old(slots[..])
        invariant FirstFree(slots[..]) == if FirstFree(slots[i..]) < 0 then -1 else FirstFree(slots[i..]) + i
      {
        assert slots[i..][1..] == slots[i + 1..];
        if slots[i] == FramePool.Free {
          slots[i] := FramePool.Filling;
          return;
        }
        i := i + 1;
      }
      i := -1;
    }

    /** The cycle's capture callback. */
    method StartCapture(io: CaptureIo) returns (result: int)
      modifies this`filling, this`sequence, this`stopRequested, this`inhibited, transmitter, microphone, slots
      ensures Capture(old(Now()), io) == Attempt(Now(), result)
    {
      hide Prepared;
      filling := AcquireSlot();
      if filling < 0 {
        return 0;
      }
      result := PrepareCapture(io);
    }

    /** With a slot reserved: prepares the transmitter, then launches unless it refuses. */
    method PrepareCapture(io: CaptureIo) returns (result: int)
      requires 0 <= filling < slots.Length
      modifies this`filling, this`sequence, this`stopRequested, this`inhibited, transmitter, microphone, slots
      ensures Prepared(old(Now()), io) == Attempt(Now(), result)
    {
      hide TxControl.Prepare, TxControl.Prepares, Launch;
      var ready := transmitter.PrepareTx(io.prepare, io.low, io.status);
      if !ready {
        return -1;
      }
      stopRequested, inhibited := stopRequested || io.stop || io.inhibit, inhibited || io.inhibit;
      result := LaunchCapture(io);
    }

    /** With slot and transmitter ready: a stop that arrived meanwhile still prevents the trigger. */
    method LaunchCapture(io: CaptureIo) returns (result: int)
      requires 0 <= filling < slots.Length
      modifies this`filling, this`sequence, transmitter, microphone, slots
      ensures Launch(old(Now()), io) == Attempt(Now(), result)
    {
      hide TxControl.Abort, TxControl.Aborts, TxControl.Triggered, Microphone.Start;
      if stopRequested || inhibited {
        var aborted := transmitter.AbortTx(io.cancel);
        slots[filling] := FramePool.Free;
        filling := -1;
        return if aborted then 0 else -1;
      }
      microphone.Init(filling, ACQ_BYTES, CAPTURE_TICKS);
      if !io.speaker {
        return -1;
      }
      sequence := cycle.count + 1;
      if io.prepared && io.armed && io.rise {
        transmitter.TriggerTx(io.trigger);
      }
      var started := microphone.StartCapture(io.tick,
                                             Microphone.StartIo(io.prepared, io.armed, io.rise && io.fell, io.reset));
      return if started then 1 else -1;
    }

    /** The cycle's move callback. */
    method MoveMotor(moved: bool) returns (delta: int)
      modifies scanner
      ensures delta == if CaptureIndex(old(scanner.scan)) == 0 || !moved then 0 else NextDelta(old(scanner.scan))
      ensures scanner.scan == if delta == 0 then old(scanner.scan) else MarkMoveStarted(old(scanner.scan))
    {
      delta := NextDelta(scanner.scan);
      if CaptureIndex(scanner.scan) == 0 || delta == 0 || !moved {
        return 0;
      }
      scanner.Mark();
    }

    method PollTheCycle(io: PollIo, captured: bool, transmitted: bool, fault: bool)
      modifies this, transmitter, microphone, scanner, slots
      ensures Now() == CyclePoll(old(Now()), io, captured, transmitted, fault)
    {
      if cycle.state == Fault {
        return;
      }
      if io.now < cycle.lastPoll {
        FailCycle(io.fail);
        return;
      }
      cycle := cycle.(lastPoll := io.now);
      if fault {
        FailCycle(io.fail);
        return;
      }
      match cycle.state {
        case WaitBuffer => PollWaiting(io);
        case Acquire => PollAcquiring(io, captured, transmitted);
        case PreMove => PollBeforeMove(io);
        case Moving => PollWhileMoving(io);
        case Settling =>
          if TxControl.Elapsed(io.now, cycle.since) >= SETTLE_US {
            cycle := cycle.(state := WaitBuffer, since := io.now);
          }
        case _ =>
      }
    }

    method PollWaiting(io: PollIo)
      modifies this, transmitter, microphone, slots
      ensures Now() == PollWait(old(Now()), io)
    {
      hide Capture, Fail;
      if cycle.count == UINT32_MAX {
        FailCycle(io.fail);
        return;
      }
      var result := StartCapture(io.capture);
      if result < 0 {
        FailCycle(io.fail);
      } else if result > 0 {
        h := h.(run := h.run.(current := Shot(Leg(cycle.count + 1, io.now, io.capture.trigger, 0, 0, 0, 0))),
                pings := h.pings + [Ping(cycle.count + 1, io.capture.trigger, |h.run.legs|, h.motion, h.run.begins,
                                         h.run.started)]);
        cycle := cycle.(count := cycle.count + 1);
        cycle := cycle.(trigger := io.capture.trigger, since := io.capture.trigger);
        cycle := cycle.(received := false, transmitted := false, state := Acquire);
      }
    }

    method PollAcquiring(io: PollIo, captured: bool, transmitted: bool)
      modifies this`cycle, this`h, this`armed, transmitter
      ensures Now() == PollAcquire(old(Now()), io, captured, transmitted)
    {
      hide Fail;
      if captured {
        cycle := cycle.(received := true);
      }
      if transmitted {
        cycle := cycle.(transmitted := true);
      }
      if !cycle.received && TxControl.Elapsed(io.now, cycle.trigger) >= CAPTURE_TIMEOUT_US {
        FailCycle(io.fail);
        return;
      }
      if !cycle.transmitted && TxControl.Elapsed(io.now, cycle.trigger) >= cycle.txTimeout {
        FailCycle(io.fail);
        return;
      }
      if cycle.received && cycle.transmitted {
        if !cycle.stopping && h.run.current.Shot? {
          h := h.(run := h.run.(current := Exposed(h.run.current.leg.(complete := io.now))));
        }
        cycle := cycle.(state := if cycle.stopping then Stopped else PreMove, since := io.now);
      }
    }

    method PollBeforeMove(io: PollIo)
      modifies this`cycle, this`h, this`armed, transmitter, scanner
      ensures Now() == PollPreMove(old(Now()), io)
    {
      hide Fail, NextDelta, CaptureIndex, TxControl.Elapsed, MarkMoveStarted;
      if TxControl.Elapsed(io.now, cycle.trigger) >= MOTOR_START_US {
        var delta := MoveMotor(io.moved);
        if delta == 0 {
          FailCycle(io.fail);
        } else {
          h := h.(run := if h.run.current.Exposed?
                         then h.run.(current := Travelling(h.run.current.leg.(delta := delta, moved := io.now)))
                         else h.run,
                  motion := Underway);
          cycle := cycle.(state := Moving, since := io.now);
        }
      }
    }

    method PollWhileMoving(io: PollIo)
      modifies this`cycle, this`h, this`armed, transmitter
      ensures Now() == PollMoving(old(Now()), io)
    {
      hide Fail;
      if TxControl.Elapsed(io.now, cycle.since) >= MOTION_TIMEOUT_US {
        FailCycle(io.fail);
      } else if io.motorDone {
        if h.run.current.Travelling? {
          h := h.(run := h.run.(legs := h.run.legs + [h.run.current.leg.(arrived := io.now)], current := Nothing));
        }
        h := h.(motion := Arrived(io.now));
        cycle := cycle.(state := Settling, since := io.now);
      }
    }
  
    /** Control commands: programming the transmitter when the sequencer is idle, and status replies. */
    method PollControl(e: Inputs, mutable: bool)
      modifies transmitter, this`armed, this`h
      ensures Now() == Control(old(Now()), e, mutable)
    {
      if mutable && e.apply.Some? {
        armed := false;
        transmitter.ApplyTx(e.apply.value.0, e.apply.value.1);
      } else if mutable && e.arm {
        armed := true;
        h := h.(starts := h.starts.(tests := h.starts.tests + 1));
      }
      PollReplies(e.replies);
    }

    method PollReplies(replies: seq<TxControl.Sample>)
      modifies transmitter
      ensures transmitter.tx == PollAll(old(transmitter.tx), replies)
    {
      hide TxControl.Poll;
      var i := 0;
      while i < |replies|
        invariant 0 <= i <= |replies|
        invariant PollAll(transmitter.tx, replies[i..]) == PollAll(old(transmitter.tx), replies)
      {
        assert replies[i..][1..] == replies[i + 1..];
        transmitter.PollTx(replies[i]);
        i := i + 1;
      }
    }

    method PressKey(k: Key, fatal: bool)
      requires k.Start? ==> k.durationUs <= MAX_TX_US
      modifies this, scanner
      ensures Now() == Press(old(Now()), k, fatal)
    {
      hide StartScan;
      var idle := cycle.state == Idle || cycle.state == Stopped;
      if prompt != NoPrompt {
        if k.Number? {
          if prompt == Positions && k.value.Some? {
            var accepted := scanner.Configure(k.value.value);
            if accepted {
              requested := k.value.value;
            }
          }
          prompt := NoPrompt;
        }
      } else if k.AskPositions? && idle {
        prompt := Positions;
      } else if k.AskDivisor? && idle {
        prompt := Divisor;
      } else if k.Start? && !fatal && requested != 0 && idle && k.canStart && armed {
        var _ := StartTheCycle(k);
      }
    }

    method ListenToMicrophone(io: MicIo)
      modifies microphone
      ensures Now() == Listen(old(Now()), io)
    {
      if filling >= 0 && microphone.mic.state == Microphone.Capturing {
        if io.event.Some? {
          microphone.HandleEvent(io.event.value, io.tick, io.finished, io.reset);
        }
        microphone.PollTimeout(io.tick, io.resetLate);
      }
    }

    /** Publishes or discards a complete capture; `failed` when the slot was not being filled. */
    method DeliverCapture() returns (captured: bool, failed: bool)
      requires filling < slots.Length
      modifies this`filling, this`h, microphone, slots
      ensures Now() == Deliver(old(Now())) && captured == Delivers(old(Now()))
      ensures failed == (captured && !old(Now()).cycle.stopping && !Publishes(old(Now())))
    {
      captured := filling >= 0 && microphone.mic.state == Microphone.Ready && TxControl.Done(transmitter.tx);
      failed := false;
      if captured {
        if cycle.stopping {
          slots[filling] := FramePool.Free;
        } else if slots[filling] == FramePool.Filling {
          slots[filling] := FramePool.Ready;
          h := h.(published := h.published + [Frame(sequence, transmitter.tx.aborted)]);
        } else {
          failed := true;
        }
        var _ := microphone.ReleaseBuffer();
        filling := -1;
      }
    }

    /** One iteration of the task's loop, after the sender has had its turn. */
    method Iterate(e: Inputs)
      requires Invariant(Now()) && Admissible(Now(), e) && e.sender == slots[..]
      modifies this, transmitter, microphone, scanner, slots
      ensures Now() == Next(old(Now()), e) && Invariant(Now())
    {
      hide Invariant, Body, Commands, Listen, TxFault, TxControl.Poll, TxControl.Done;
      ghost var s := Now();
      ObservedListens(s, e);
      PendingShape(Observed(s, e), false);
      BodyKeepsInvariant(s, e);
      var fatal := HandleCommands(e);
      ListenToMicrophone(e.mic);
      transmitter.PollTx(e.errorPoll);
      var txFault := transmitter.tx.fault;
      assert txFault == TxFault(Listen(Commands(s, e), e.mic), e) by {
        assert Listen(Commands(s, e), e.mic).tx == Commands(s, e).tx by {
          ListenKeepsCycle(Commands(s, e), e.mic);
        }
        TxFaultIs(Listen(Commands(s, e), e.mic), e);
      }
      transmitter.PollTx(e.donePoll);
      FinishIteration(s, e, fatal, txFault, TxControl.Done(transmitter.tx));
    }

    /** The first half of an iteration: a requested stop, control commands and keys. */
    method HandleCommands(e: Inputs) returns (fatal: bool)
      requires KeysFit(e.keys) && e.sender == slots[..]
      modifies this, transmitter, scanner
      ensures Now() == Commands(old(Now()), e) && fatal == Arrivals(old(Now()), e).inhibited
    {
      hide HandleStop, Control, PressAll, Arrivals;
      var stop;
      stop, fatal := HandleStopRequest(e);
      PollControl(e, !fatal && !stop && (cycle.state == Idle || cycle.state == Stopped) && filling < 0);
      PressKeys(e.keys, fatal);
    }

    method HandleStopRequest(e: Inputs) returns (stop: bool, fatal: bool)
      requires e.sender == slots[..]
      modifies this, transmitter
      ensures Now() == HandleStop(Arrivals(old(Now()), e), e) && slots[..] == old(slots[..])
      ensures stop == Arrivals(old(Now()), e).stopRequested && fatal == Arrivals(old(Now()), e).inhibited
    {
      hide StopCycle, Stops;
      stopRequested, inhibited := stopRequested || e.stop || e.inhibit, inhibited || e.inhibit;
      stop, fatal := stopRequested, inhibited;
      stopRequested := false;
      if stop {
        var _ := StopTheCycle(e.stopNow, e.stopIo);
        prompt := NoPrompt;
      }
    }

    method PressKeys(keys: seq<Key>, fatal: bool)
      requires KeysFit(keys)
      modifies this, scanner
      ensures Now() == PressAll(old(Now()), keys, fatal)
    {
      hide Press;
      var i := 0;
      assert keys[0..] == keys;
      while i < |keys|
        invariant 0 <= i <= |keys|
        invariant PressAll(Now(), keys[i..], fatal) == PressAll(old(Now()), keys, fatal)
      {
        assert keys[i..][1..] == keys[i + 1..];
        PressKey(keys[i], fatal);
        i := i + 1;
      }
    }

    /** The second half of an iteration: delivery, the cycle poll and what follows it. */
    method FinishIteration(ghost s: State, e: Inputs, inhibitedBefore: bool, txFault: bool, txDone: bool)
      requires KeysFit(e.keys) && Now() == Observed(s, e) && filling < slots.Length
      requires inhibitedBefore == Arrivals(s, e).inhibited && txDone == TxControl.Done(transmitter.tx)
      requires txFault == TxFault(Listen(Commands(s, e), e.mic), e)
      modifies this, transmitter, microphone, scanner, slots
      ensures Now() == Body(s, e)
    {
      hide Observed, CyclePoll, Deliver, StopCycle, Publishes, TxFault, Listen, Commands, Arrivals, TxControl.Done;
      var captured, failed := DeliverCapture();
      var fatal := inhibitedBefore || failed;
      var before := cycle.state;
      PollTheCycle(e.poll, captured, txDone,
                   fatal || txFault || e.motorFault || microphone.mic.state == Microphone.Fault);
      assert Now() == Polled(s, e);
      FollowUp(before, e);
    }

    /** What follows a cycle poll: muting, the end of a scan, and the first report of a fault. */
    method FollowUp(before: CycleState, e: Inputs)
      modifies this, transmitter, microphone
      ensures Now() == ReportFault(AfterPoll(before, old(Now()), e), e.cancelReset)
    {
      hide StopCycle, Microphone.Cancel;
      if before == Acquire && cycle.state != Acquire && !e.muted {
        inhibited, stopRequested := true, true;
      }
      if before == Settling && cycle.state == WaitBuffer && Complete(scanner.scan) {
        var _ := StopTheCycle(e.endNow, e.endIo);
      }
      if cycle.state == Fault && !faultReported {
        microphone.CancelCapture(e.cancelReset);
        faultReported := true;
      }
    }
  }
}
