/** What every iteration of the experiment task keeps, and what that says about whole runs. */
module ScanSafety {
  import opened MachineIntegers
  import opened Scan360
  import opened ScanSequencer
  import FramePool
  import TxControl
  import Microphone

  // The scan follows its plan

  function DeltaAt(r: Run, k: nat): int {
    NextDelta(Scan(r.positions, r.direction, k))
  }

  /** Capture `k` is triggered only after the motor has settled from move `k - 1`. */
  predicate ShotSound(r: Run, k: nat, l: Leg)
    requires k <= |r.legs|
  {
    && l.sequence == r.first + k
    && l.polled <= l.trigger
    && (k > 0 ==> r.legs[k - 1].arrived + SETTLE_US <= l.polled)
  }

  predicate ExposedSound(r: Run, k: nat, l: Leg)
    requires k <= |r.legs|
  {
    ShotSound(r, k, l) && l.trigger <= l.complete
  }

  /** Move `k` is the planned one, after the exposure is complete and the offset from the trigger has passed. */
  predicate TravelSound(r: Run, k: nat, l: Leg)
    requires k <= |r.legs|
  {
    && ExposedSound(r, k, l)
    && l.complete <= l.moved && l.trigger + MOTOR_START_US <= l.moved
    && l.delta == DeltaAt(r, k)
  }

  predicate LegSound(r: Run, k: nat)
    requires k < |r.legs|
  {
    TravelSound(r, k, r.legs[k]) && r.legs[k].moved <= r.legs[k].arrived
  }

  predicate CurrentSound(r: Run) {
    && (r.current != Nothing ==> |r.legs| < r.positions)
    && match r.current
       case Nothing => true
       case Shot(l) => ShotSound(r, |r.legs|, l)
       case Exposed(l) => ExposedSound(r, |r.legs|, l)
       case Travelling(l) => TravelSound(r, |r.legs|, l)
  }

  ghost predicate Planned(r: Run) {
    |r.legs| <= r.positions && CurrentSound(r) && forall k :: 0 <= k < |r.legs| ==> LegSound(r, k)
  }

  lemma CurrentChanged(r: Run, t: Run)
    requires Planned(r) && t == r.(current := t.current) && CurrentSound(t)
    ensures Planned(t)
  {
    forall k | 0 <= k < |t.legs| ensures LegSound(t, k) {
      assert LegSound(r, k);
    }
  }

  lemma PlannedCurrent(r: Run)
    requires Planned(r)
    ensures CurrentSound(r)
  {
  }

  /** The scan in flight is the configured one and the counters agree with its history. */
  predicate Follows(s: State) {
    && Configured(s.scan) && s.prompt == NoPrompt
    && s.run.positions == s.scan.positions && s.run.direction == s.scan.direction
    && s.cycle.count + 1 == s.run.first + |s.run.legs| + (if s.run.current == Nothing then 0 else 1)
    && s.scan.started == |s.run.legs| + (if s.run.current.Travelling? then 1 else 0)
    && (s.cycle.stopping ==> s.cycle.state == Acquire)
  }

  predicate Stage(s: State) {
    var r, c := s.run, s.cycle;
    match c.state
    case WaitBuffer =>
      && r.current == Nothing && |r.legs| < r.positions
      && (|r.legs| > 0 ==> r.legs[|r.legs| - 1].arrived + SETTLE_US <= c.lastPoll)
    case Acquire => r.current.Shot? && r.current.leg.trigger == c.trigger && !c.received
    case PreMove =>
      && r.current.Exposed? && r.current.leg.trigger == c.trigger && r.current.leg.complete <= c.lastPoll
      && c.received && c.transmitted
    case Moving => r.current.Travelling? && r.current.leg.moved == c.since <= c.lastPoll
    case Settling => r.current == Nothing && |r.legs| > 0 && r.legs[|r.legs| - 1].arrived == c.since <= c.lastPoll
    case _ => true
  }

  ghost predicate ScanPart(s: State) {
    && Planned(s.run) && Stage(s)
    && (Flying(s) ==> Follows(s))
    && (s.requested != 0 ==> Entered(s.scan, s.requested))
  }

  /** The stored number says how many positions and, by its sign, in which direction. */
  predicate Entered(scan: Scan, requested: int) {
    && Configured(scan) && scan.positions == Abs(requested)
    && scan.direction == (if requested < 0 then -1 else 1)
  }

  // Slots, capture object and transmitter

  predicate LiveMic(s: State) {
    s.mic.state == Microphone.Capturing || s.mic.state == Microphone.Ready
  }

  /** `filling` names the only slot being filled, and only that slot is ever open to the DMA engine. */
  ghost predicate SlotPart(s: State) {
    && |s.slots| == FramePool.POOL_COUNT && -1 <= s.filling < |s.slots|
    && (forall i :: 0 <= i < |s.slots| ==> (s.slots[i] == FramePool.Filling <==> i == s.filling))
    && Microphone.Sound(s.mic)
    && (LiveMic(s) || s.mic.dmaOwned ==> s.filling >= 0 && s.mic.buffer == s.filling)
    && (LiveMic(s) ==> s.sequence == s.cycle.count)
    && (s.filling >= 0 ==> s.cycle.state == Acquire || s.cycle.state == Fault)
    && (s.cycle.state == Acquire ==> s.filling >= 0 && LiveMic(s))
    && (s.mic.state == Microphone.Fault ==> s.cycle.state == Fault)
  }

  /** Outputs were told to stop: nothing is prepared and the transmission was aborted, unless it is faulty. */
  predicate Quiet(t: TxControl.Tx) {
    !t.prepared && (t.initialized ==> t.aborted || t.fault)
  }

  ghost predicate TxPart(s: State) {
    && TxControl.Sound(s.tx) && !s.tx.prepared
    && (LiveMic(s) ==> s.tx.initialized && (s.tx.running || s.tx.ending.Some? || s.tx.fault))
    && (s.cycle.state == Acquire && !s.cycle.stopping ==> !s.tx.aborted)
    && (s.cycle.state == Acquire && s.cycle.stopping ==> s.tx.aborted)
    && (s.cycle.state == Fault ==> Quiet(s.tx))
  }

  /** Published sequence numbers ascend, and the capture in progress is newer than all of them. */
  ghost predicate PublishedPart(s: State) {
    && (forall i, j :: 0 <= i < j < |s.published| ==> s.published[i].sequence < s.published[j].sequence)
    && (forall i :: 0 <= i < |s.published| ==> s.published[i].sequence <= s.cycle.count)
    && (LiveMic(s) ==> forall i :: 0 <= i < |s.published| ==> s.published[i].sequence < s.cycle.count)
  }

  // Motion and stops

  /** The motor has been at rest for the settling time. */
  predicate Rested(m: Motion, at: nat) {
    match m
    case Still => true
    case Underway => false
    case Arrived(when) => when + SETTLE_US <= at
    case Halted(when) => when + SETTLE_US <= at
  }

  /** A later capture of a scan is settled; the first one has the motor as the start of the scan found it. */
  predicate PingSound(p: Ping) {
    && p.begins != Underway
    && if p.index > 0 then Rested(p.motion, p.trigger) else p.motion == p.begins && p.started <= p.trigger
  }

  /** Every capture since reset is on record, numbered without a gap. */
  ghost predicate PingsSound(s: State) {
    && |s.pings| == s.cycle.count
    && forall i :: 0 <= i < |s.pings| ==> s.pings[i].sequence == i + 1 && PingSound(s.pings[i])
  }

  /** In flight, the motor's last move is the scan's; no scan begins, and none waits or stops, with a move under way. */
  ghost predicate MotionPart(s: State) {
    && PingsSound(s) && s.run.begins != Underway
    && (Flying(s) ==> MotionFollows(s))
    && (s.motion == Underway ==> s.cycle.state == Moving || s.cycle.state == Fault)
  }

  predicate MotionFollows(s: State) {
    && s.run.started <= s.cycle.lastPoll
    && s.motion == (if s.cycle.state == Moving then Underway
                    else if s.run.legs == [] then s.run.begins
                    else Arrived(s.run.legs[|s.run.legs| - 1].arrived))
  }

  predicate Succeeded(c: StopCall) {
    c.muted && c.motorStopped && c.txStopped
  }

  /**
   A cycle that is stopping or stopped had all outputs stopped last; in FAULT stopping them was attempted. A test is
   armed only while the cycle is idle.
   */
  predicate StopPart(s: State) {
    && (s.cycle.state == Stopped || (s.cycle.stopping && s.cycle.state != Fault) ==>
          |s.stops| > 0 && Succeeded(s.stops[|s.stops| - 1]))
    && (s.cycle.state == Fault ==> |s.stops| > 0)
    && (Flying(s) || s.cycle.state == Fault ==> !s.armed)
  }

  /** A start came from a key that found the service ready, with a test armed, and did what the stored number says. */
  predicate BeginSound(b: Begin, tests: nat) {
    && b.canStart && b.armed && 0 < b.test <= tests
    && b.requested != 0 && b.positions == Abs(b.requested) <= MAX_POSITIONS
    && b.direction == (if b.requested < 0 then -1 else 1)
  }

  /** No two scans were started with the same test, and a test armed now has not been used. */
  ghost predicate StartsSound(h: Starts, armed: bool) {
    && (forall i :: 0 <= i < |h.scans| ==> BeginSound(h.scans[i], h.tests))
    && (forall i, j :: 0 <= i < j < |h.scans| ==> h.scans[i].test < h.scans[j].test)
    && (armed ==> 0 < h.tests && forall i :: 0 <= i < |h.scans| ==> h.scans[i].test < h.tests)
  }

  /** The scan in flight, and its deadline, are those of the last start. */
  predicate FollowsStart(s: State) {
    && s.starts.scans != []
    && var b := s.starts.scans[|s.starts.scans| - 1];
       && s.run.positions == b.positions && s.run.direction == b.direction
       && s.cycle.txTimeout == b.durationUs + 11000
  }

  ghost predicate StartPart(s: State) {
    StartsSound(s.starts, s.armed) && (Flying(s) ==> FollowsStart(s))
  }

  ghost predicate Invariant(s: State) {
    ScanPart(s) && SlotPart(s) && TxPart(s) && PublishedPart(s) && MotionPart(s) && StopPart(s) && StartPart(s)
  }

  /** After initialization: idle, or in FAULT with the outputs stopped. */
  ghost predicate Initial(s: State) {
    && (s.cycle.state == Idle || (s.cycle.state == Fault && Quiet(s.tx) && |s.stops| > 0))
    && s.cycle.count == 0 && !s.cycle.stopping && !s.cycle.received
    && s.scan == Scan(0, 0, 0) && s.requested == 0 && s.prompt == NoPrompt
    && s.starts == Starts(0, []) && TxControl.Sound(s.tx) && !s.tx.prepared
    && s.mic.state == Microphone.Idle && !s.mic.dmaOwned && !s.armed
    && |s.slots| == FramePool.POOL_COUNT && s.filling == -1
    && (forall i :: 0 <= i < |s.slots| ==> s.slots[i] == FramePool.Free)
    && s.run == Run(0, 0, 0, Still, 0, [], Nothing) && s.published == [] && s.motion == Still && s.pings == []
  }

  lemma InitialInvariant(s: State)
    requires Initial(s)
    ensures Invariant(s)
  {
  }

  /** The sender only moves frames between ready and sending, or frees them. */
  ghost predicate SenderMay(a: seq<FramePool.SlotState>, b: seq<FramePool.SlotState>) {
    && |a| == |b|
    && forall i :: 0 <= i < |a| ==>
         if a[i] == FramePool.Free || a[i] == FramePool.Filling then b[i] == a[i] else b[i] != FramePool.Filling
  }

  /** The clock is monotone: polls come after the trigger, and the trigger after the poll that asked for it. */
  ghost predicate Admissible(s: State, e: Inputs) {
    && SenderMay(s.slots, e.sender)
    && KeysFit(e.keys)
    && s.cycle.trigger <= e.poll.now <= e.poll.capture.trigger
  }

  // Frames: what each phase leaves alone

  /** Only the transmitter's status may differ, and it stays as far as it was. */
  ghost predicate TxOnly(s: State, t: State) {
    && t == s.(tx := t.tx, stops := t.stops, armed := t.armed, starts := t.starts)
    && StartsSound(t.starts, t.armed) && t.starts.scans == s.starts.scans
    && TxControl.Sound(t.tx) && (!s.tx.prepared ==> !t.tx.prepared)
    && t.tx.initialized == s.tx.initialized
    && (s.tx.running || s.tx.ending.Some? || s.tx.fault ==> t.tx.running || t.tx.ending.Some? || t.tx.fault)
  }

  lemma TxOnlyKeeps(s: State, t: State)
    requires Invariant(s) && TxOnly(s, t)
    requires t.cycle.state == Acquire ==> t.tx.aborted == s.tx.aborted
    requires t.cycle.state == Fault ==> Quiet(t.tx)
    requires StopPart(t)
    ensures Invariant(t)
  {
    hide Planned, TxControl.Sound, Microphone.Sound, PingSound, StopPart;
  }

  lemma StopOutputsQuiets(s: State, io: StopIo)
    requires TxControl.Sound(s.tx) && StartsSound(s.starts, s.armed)
    ensures TxOnly(s, StopOutputs(s, io)) && (Quiet(StopOutputs(s, io).tx) || (!s.tx.initialized && s.tx.prepared))
    ensures Stops(s, io) && s.tx.initialized ==> StopOutputs(s, io).tx.aborted && !StopOutputs(s, io).tx.fault
    ensures StopOutputs(s, io).stops == s.stops + [StopOutputs(s, io).stops[|s.stops|]]
    ensures Stops(s, io) <==> Succeeded(StopOutputs(s, io).stops[|s.stops|])
    ensures !s.tx.initialized ==> StopOutputs(s, io).tx == s.tx
  {
    hide TxControl.Drained;
    TxControl.AbortDrains(s.tx, io.abort);
  }

  /** Entering FAULT is safe from any state whose scan history is sound. */
  lemma FailKeeps(s: State, io: StopIo)
    requires Planned(s.run) && (s.requested != 0 ==> Entered(s.scan, s.requested)) && StartsSound(s.starts, s.armed)
    requires |s.slots| == FramePool.POOL_COUNT && -1 <= s.filling < |s.slots|
    requires forall i :: 0 <= i < |s.slots| ==> (s.slots[i] == FramePool.Filling <==> i == s.filling)
    requires Microphone.Sound(s.mic) && (LiveMic(s) || s.mic.dmaOwned ==> s.filling >= 0 && s.mic.buffer == s.filling)
    requires LiveMic(s) ==> s.sequence == s.cycle.count
    requires TxControl.Sound(s.tx)
    requires LiveMic(s) ==> s.tx.initialized && (s.tx.running || s.tx.ending.Some? || s.tx.fault)
    requires PublishedPart(s) && PingsSound(s) && s.run.begins != Underway
    ensures Invariant(Fail(s, io)) && Fail(s, io).cycle.state == Fault
    ensures |Fail(s, io).stops| == |s.stops| + 1 && Fail(s, io).stops[..|s.stops|] == s.stops
    ensures Fail(s, io).run == s.run && Fail(s, io).published == s.published
  {
    hide Planned, TxControl.Abort, Microphone.Sound;
    StopOutputsQuiets(s.(cycle := s.cycle.(faultState := s.cycle.state, state := Fault)), io);
  }

  lemma StopCycleKeeps(s: State, now: uint64, io: StopIo)
    requires Invariant(s)
    ensures Invariant(StopCycle(s, now, io))
    ensures StopCycle(s, now, io).run == s.run && StopCycle(s, now, io).published == s.published
    ensures StopCycle(s, now, io).cycle.trigger == s.cycle.trigger
    ensures StopCycle(s, now, io).cycle.state == Fault || StopCycle(s, now, io).cycle.stopping
    ensures s.cycle.state == Fault ==> StopCycle(s, now, io).cycle.state == Fault
  {
    hide Planned, TxControl.Abort, TxControl.Sound, Microphone.Sound, Invariant, Stops;
    if Stops(s, io) {
      StopSucceeds(s, now, io);
    } else {
      FaultAfterStop(s, io, StopCycle(s, now, io).cycle.faultState);
    }
  }

  lemma FaultAfterStop(s: State, io: StopIo, was: CycleState)
    requires Invariant(s)
    ensures Invariant(StopOutputs(s, io).(cycle := s.cycle.(faultState := was, state := Fault)))
    ensures StopOutputs(s, io).cycle == s.cycle
  {
    hide Planned, TxControl.Abort, Microphone.Sound;
    StopOutputsQuiets(s, io);
  }

  lemma StopSucceeds(s: State, now: uint64, io: StopIo)
    requires Invariant(s) && Stops(s, io)
    ensures Invariant(StopCycle(s, now, io))
  {
    hide Planned, TxControl.Abort, TxControl.Sound, Microphone.Sound, Stops, PingSound, PublishedPart;
    StopOutputsQuiets(s, io);
    if s.cycle.state == Acquire || s.cycle.state == Fault {
      StopDrains(s, StopCycle(s, now, io));
    } else {
      StopRests(s, StopCycle(s, now, io));
    }
  }

  /** A capture under way goes on, to be drained. */
  lemma StopDrains(s: State, t: State)
    requires Invariant(s) && (s.cycle.state == Acquire || s.cycle.state == Fault)
    requires t == s.(cycle := s.cycle.(stopping := true), motion := t.motion, tx := t.tx, stops := t.stops,
                     armed := t.armed)
    requires StopPart(t) && (s.cycle.state == Acquire ==> t.motion == s.motion)
    requires TxOnly(s, s.(tx := t.tx, stops := t.stops, armed := t.armed))
    requires Quiet(t.tx) && (s.tx.initialized ==> t.tx.aborted)
    ensures Invariant(t)
  {
    hide Planned, TxControl.Sound, Microphone.Sound, PingSound, StopPart;
    assert ScanPart(t);
    assert SlotPart(t);
    assert TxPart(t);
  }

  /** Any other cycle is stopped. */
  lemma StopRests(s: State, t: State)
    requires Invariant(s) && s.cycle.state != Acquire && s.cycle.state != Fault
    requires t == s.(cycle := t.cycle, motion := t.motion, tx := t.tx, stops := t.stops, armed := t.armed)
    requires t.cycle.state == Stopped && StopPart(t) && t.motion != Underway
    requires t.cycle.count == s.cycle.count && TxOnly(s, s.(tx := t.tx, stops := t.stops, armed := t.armed))
    ensures Invariant(t)
  {
    hide Planned, TxControl.Sound, Microphone.Sound, PingSound, StopPart;
    assert ScanPart(t);
    assert SlotPart(t);
    assert TxPart(t);
  }

  lemma ArrivalsKeep(s: State, e: Inputs)
    requires Invariant(s) && Admissible(s, e)
    ensures Invariant(Arrivals(s, e))
  {
    hide Planned, TxControl.Sound, Microphone.Sound;
  }

  lemma HandleStopKeeps(s: State, e: Inputs)
    requires Invariant(s)
    ensures Invariant(HandleStop(s, e))
    ensures HandleStop(s, e).run == s.run && HandleStop(s, e).published == s.published
    ensures HandleStop(s, e).cycle.trigger == s.cycle.trigger
    ensures s.stopRequested || s.cycle.stopping ==>
      HandleStop(s, e).cycle.state == Fault || HandleStop(s, e).cycle.stopping
    ensures s.cycle.state == Fault ==> HandleStop(s, e).cycle.state == Fault
  {
    hide Planned, TxControl.Sound, Microphone.Sound, StopCycle;
    if s.stopRequested {
      var t := s.(stopRequested := false);
      assert Invariant(t);
      StopCycleKeeps(t, e.stopNow, e.stopIo);
      PromptCloses(StopCycle(t, e.stopNow, e.stopIo));
    }
  }

  lemma PromptCloses(s: State)
    requires Invariant(s)
    ensures Invariant(s.(prompt := NoPrompt))
  {
    hide Planned, TxControl.Sound, Microphone.Sound;
  }

  lemma PollOnly(s: State, x: TxControl.Sample)
    requires Invariant(s)
    ensures Invariant(s.(tx := TxControl.Poll(s.tx, x)))
  {
    hide Planned, Microphone.Sound;
    TxControl.PollKeeps(s.tx, x);
    TxOnlyKeeps(s, s.(tx := TxControl.Poll(s.tx, x)));
  }

  lemma {:induction false} PollAllKeeps(s: State, polls: seq<TxControl.Sample>)
    requires Invariant(s)
    ensures Invariant(s.(tx := PollAll(s.tx, polls)))
    decreases |polls|
  {
    hide Invariant, TxControl.Poll;
    if polls == [] {
      assert s.(tx := PollAll(s.tx, polls)) == s;
    } else {
      PollOnly(s, polls[0]);
      PollAllKeeps(s.(tx := TxControl.Poll(s.tx, polls[0])), polls[1..]);
    }
  }

  lemma ControlKeeps(s: State, e: Inputs, mutable: bool)
    requires Invariant(s) && (mutable ==> IdleCycle(s))
    ensures Invariant(Control(s, e, mutable))
  {
    hide Planned, Microphone.Sound, PollAll;
    if mutable && e.apply.Some? {
      var t := s.(tx := TxControl.Apply(s.tx, e.apply.value.0, e.apply.value.1), armed := false);
      TxControl.StepKeeps(s.tx, TxControl.Applied(e.apply.value.0, e.apply.value.1));
      assert !LiveMic(s) && !s.tx.prepared;
      ApplyKeepsFlags(s.tx, e.apply.value.0, e.apply.value.1);
      TxOnlyKeeps(s, t);
      PollAllKeeps(t, e.replies);
    } else if mutable && e.arm {
      var t := s.(armed := true, starts := s.starts.(tests := s.starts.tests + 1));
      TxOnlyKeeps(s, t);
      PollAllKeeps(t, e.replies);
    } else {
      PollAllKeeps(s, e.replies);
    }
  }

  lemma ApplyKeepsFlags(t: TxControl.Tx, x: TxControl.Sample, outcome: TxControl.Programming)
    requires TxControl.Sound(t)
    ensures var u := TxControl.Apply(t, x, outcome);
      && u.prepared == t.prepared && u.initialized == t.initialized
      && (t.running || t.ending.Some? || t.fault ==> u.running || u.ending.Some? || u.fault)
  {
  }

  lemma StartKeeps(s: State, k: Key)
    requires Invariant(s) && k.Start? && k.durationUs <= MAX_TX_US && k.canStart && s.armed
    requires IdleCycle(s) && s.prompt == NoPrompt && s.requested != 0
    ensures Invariant(StartScan(s, k))
    ensures StartScan(s, k).published == s.published && StartScan(s, k).cycle.trigger == s.cycle.trigger
  {
    hide TxControl.Sound, Microphone.Sound;
    assert !LiveMic(s);
  }

  lemma PressKeeps(s: State, k: Key, fatal: bool)
    requires Invariant(s) && (k.Start? ==> k.durationUs <= MAX_TX_US)
    ensures Invariant(Press(s, k, fatal))
    ensures Press(s, k, fatal).published == s.published && Press(s, k, fatal).cycle.trigger == s.cycle.trigger
    ensures !k.Start? || s.cycle.state == Fault ==>
      Press(s, k, fatal).run == s.run && Press(s, k, fatal).cycle == s.cycle
  {
    hide Planned, TxControl.Sound, Microphone.Sound, StartScan, SlotPart, TxPart, PublishedPart;
    if k.Start? && k.canStart && s.armed && s.requested != 0 && IdleCycle(s) && s.prompt == NoPrompt {
      StartKeeps(s, k);
    }
    var t := Press(s, k, fatal);
    if !k.Start? {
      SettingsAlone(s, t);
      assert ScanPart(t);
    }
  }

  /** Keys that only change settings leave slots, transmitter and publications alone. */
  lemma SettingsAlone(s: State, t: State)
    requires t == s.(prompt := t.prompt, requested := t.requested, scan := t.scan)
    ensures SlotPart(s) ==> SlotPart(t)
    ensures TxPart(s) ==> TxPart(t)
    ensures PublishedPart(s) ==> PublishedPart(t)
  {
    hide TxControl.Sound, Microphone.Sound;
  }

  lemma {:induction false} PressAllKeeps(s: State, keys: seq<Key>, fatal: bool)
    requires Invariant(s) && KeysFit(keys)
    ensures Invariant(PressAll(s, keys, fatal))
    ensures PressAll(s, keys, fatal).published == s.published
    ensures PressAll(s, keys, fatal).cycle.trigger == s.cycle.trigger
    ensures (forall k :: 0 <= k < |keys| ==> !keys[k].Start?) || s.cycle.state == Fault ==>
              PressAll(s, keys, fatal).run == s.run && PressAll(s, keys, fatal).cycle == s.cycle
    decreases |keys|
  {
    hide Invariant, Press;
    if keys != [] {
      PressKeeps(s, keys[0], fatal);
      PressAllKeeps(Press(s, keys[0], fatal), keys[1..], fatal);
    }
  }

  /** A call to the capture object keeps its buffer, and settles a capture under way at most. */
  predicate MicMoves(m: Microphone.Mic, n: Microphone.Mic) {
    && n.buffer == m.buffer && Microphone.Sound(n) && (n.dmaOwned ==> m.dmaOwned)
    && (n == m || (m.state == Microphone.Capturing && (n.state == Microphone.Ready || n.state == Microphone.Fault)))
  }

  lemma CallMoves(m: Microphone.Mic, c: Microphone.Call)
    requires Microphone.Sound(m)
    ensures MicMoves(m, Microphone.Step(m, c))
  {
    hide Microphone.OnEvent, Microphone.Poll, Microphone.Cancel, Microphone.Completes;
    if m.state == Microphone.Capturing {
      Microphone.StepOutcome(m, c);
      Microphone.BufferStays(m, c);
    } else {
      SettledIgnores(m, c);
    }
  }

  lemma SettledIgnores(m: Microphone.Mic, c: Microphone.Call)
    requires m.state != Microphone.Capturing
    ensures Microphone.Step(m, c) == m
  {
  }

  lemma ListenKeeps(s: State, io: MicIo)
    requires Microphone.Sound(s.mic)
    ensures Listen(s, io) == s.(mic := Listen(s, io).mic) && MicMoves(s.mic, Listen(s, io).mic)
  {
    hide Microphone.OnEvent, Microphone.Poll, Microphone.Sound;
    var m :=
      if io.event.Some? then Microphone.OnEvent(s.mic, io.event.value, io.tick, io.finished, io.reset) else s.mic;
    if io.event.Some? {
      CallMoves(s.mic, Microphone.Delivered(io.event.value, io.tick, io.finished, io.reset));
    }
    CallMoves(m, Microphone.Polled(io.tick, io.resetLate));
  }

  lemma ListenKeepsCycle(s: State, io: MicIo)
    ensures Listen(s, io) == s.(mic := Listen(s, io).mic)
  {
    hide Microphone.OnEvent, Microphone.Poll;
  }

  /** Between listening and the cycle poll, a delivery or a capture fault may not have reached the cycle yet. */
  ghost predicate Pending(s: State, captured: bool) {
    && ScanPart(s) && TxPart(s) && PublishedPart(s) && MotionPart(s) && StopPart(s) && StartPart(s)
    && |s.slots| == FramePool.POOL_COUNT && -1 <= s.filling < |s.slots|
    && (forall i :: 0 <= i < |s.slots| ==> (s.slots[i] == FramePool.Filling <==> i == s.filling))
    && Microphone.Sound(s.mic)
    && (LiveMic(s) || s.mic.dmaOwned ==> s.filling >= 0 && s.mic.buffer == s.filling)
    && (LiveMic(s) ==> s.sequence == s.cycle.count)
    && (s.filling >= 0 || captured ==> s.cycle.state == Acquire || s.cycle.state == Fault)
    && (s.mic.state == Microphone.Fault ==> s.cycle.state == Fault || s.cycle.state == Acquire)
    && (s.cycle.state == Acquire && !captured ==> s.filling >= 0 && s.mic.state != Microphone.Idle)
    && (captured ==> s.filling == -1 && s.mic.state == Microphone.Idle)
  }

  lemma ListenReaches(s: State, io: MicIo)
    requires Invariant(s)
    ensures Pending(Listen(s, io), false)
  {
    hide Planned, TxControl.Sound, Microphone.Sound, Listen;
    ListenKeeps(s, io);
  }

  lemma PollOnlyPending(s: State, x: TxControl.Sample)
    requires Pending(s, false)
    ensures Pending(s.(tx := TxControl.Poll(s.tx, x)), false)
  {
    hide Planned, Microphone.Sound;
    TxControl.PollKeeps(s.tx, x);
  }

  lemma ObservedListens(s: State, e: Inputs)
    requires Invariant(s) && Admissible(s, e)
    ensures Invariant(Commands(s, e)) && Pending(Observed(s, e), false)
    ensures Commands(s, e).published == s.published && Commands(s, e).cycle.trigger == s.cycle.trigger
  {
    hide Invariant, Pending, Arrivals, HandleStop, Control, Press, PressAll, Listen, TxControl.Poll;
    CommandsKeep(s, e);
    var c := Commands(s, e);
    hide Commands;
    ListenReaches(c, e.mic);
    PollOnlyPending(Listen(c, e.mic), e.errorPoll);
    var p := Listen(c, e.mic).(tx := TxControl.Poll(Listen(c, e.mic).tx, e.errorPoll));
    PollOnlyPending(p, e.donePoll);
  }

  lemma CommandsKeep(s: State, e: Inputs)
    requires Invariant(s) && Admissible(s, e)
    ensures Invariant(Commands(s, e))
    ensures Commands(s, e).published == s.published && Commands(s, e).cycle.trigger == s.cycle.trigger
    ensures (forall k :: 0 <= k < |e.keys| ==> !e.keys[k].Start?) ==> Commands(s, e).run == s.run
    ensures (forall k :: 0 <= k < |e.keys| ==> !e.keys[k].Start?) && (s.cycle.stopping || s.stopRequested || e.stop) ==>
              Commands(s, e).cycle.stopping || Commands(s, e).cycle.state == Fault
    ensures s.cycle.state == Fault ==> Commands(s, e).cycle.state == Fault
  {
    hide Invariant, HandleStop, PressAll, KeysFit, PollAll;
    var a := Arrivals(s, e);
    ArrivalsKeep(s, e);
    HandleStopKeeps(a, e);
    var b := HandleStop(a, e);
    var mutable := !a.inhibited && !a.stopRequested && IdleCycle(b) && b.filling < 0;
    ControlKeeps(b, e, mutable);
    var c := Control(b, e, mutable);
    assert Admissible(s, e) && KeysFit(e.keys);
    PressAllKeeps(c, e.keys, a.inhibited);
  }

  lemma DeliverReaches(s: State)
    requires Pending(s, false)
    ensures Pending(Deliver(s), Delivers(s))
    ensures Delivers(s) && !s.cycle.stopping ==> Publishes(s)
  {
    hide Planned, TxControl.Sound;
    if Delivers(s) && !s.cycle.stopping {
      assert Publishes(s);
      PublishAscends(s, Deliver(s));
    }
  }

  lemma PublishAscends(s: State, t: State)
    requires PublishedPart(s) && LiveMic(s) && s.sequence == s.cycle.count
    requires t.cycle == s.cycle && !LiveMic(t)
    requires t.published == s.published + [Frame(s.sequence, s.tx.aborted)]
    ensures PublishedPart(t)
  {
  }

  // The cycle poll

  lemma FailPending(s: State, io: StopIo, captured: bool)
    requires Pending(s, captured)
    ensures Invariant(Fail(s, io)) && Fail(s, io).cycle.state == Fault
    ensures Fail(s, io).run == s.run && Fail(s, io).published == s.published
  {
    hide Planned, TxControl.Sound, Microphone.Sound, Fail;
    FailKeeps(s, io);
  }

  lemma Tick(s: State, now: uint64, captured: bool)
    requires Pending(s, captured) && s.cycle.lastPoll <= now
    ensures Pending(s.(cycle := s.cycle.(lastPoll := now)), captured)
  {
    hide Planned, TxControl.Sound, Microphone.Sound;
  }

  lemma PollSettlingKeeps(s: State, io: PollIo)
    requires Invariant(s) && s.cycle.state == Settling && s.cycle.lastPoll == io.now
    requires PollSettling(s, io).cycle.state == Settling || !Complete(s.scan)
    ensures Invariant(PollSettling(s, io))
  {
    hide Planned, TxControl.Sound, Microphone.Sound, SlotPart, TxPart, PublishedPart, PingSound;
    var t := PollSettling(s, io);
    if t != s {
      RestingMic(s);
      CycleAlone(s, t);
      SettledWaits(s, t);
    }
  }

  lemma SettledWaits(s: State, t: State)
    requires ScanPart(s) && MotionPart(s) && StopPart(s) && s.cycle.state == Settling && !Complete(s.scan)
    requires t == s.(cycle := s.cycle.(state := WaitBuffer, since := t.cycle.since))
    requires s.cycle.lastPoll - s.cycle.since >= SETTLE_US
    ensures ScanPart(t) && MotionPart(t) && StopPart(t)
  {
    hide Planned, PingSound;
  }

  /** Moving between states that hold no buffer disturbs neither slots nor transmitter. */
  lemma CycleAlone(s: State, t: State)
    requires t == s.(cycle := t.cycle, run := t.run, scan := t.scan, motion := t.motion)
    requires t.cycle.count == s.cycle.count && !LiveMic(s) && !s.mic.dmaOwned
    requires s.cycle.state != Acquire && s.cycle.state != Fault && t.cycle.state != Acquire && t.cycle.state != Fault
    ensures SlotPart(s) ==> SlotPart(t)
    ensures TxPart(s) ==> TxPart(t)
    ensures PublishedPart(s) ==> PublishedPart(t)
  {
    hide TxControl.Sound, Microphone.Sound;
  }

  lemma RestingMic(s: State)
    requires SlotPart(s) && s.cycle.state != Acquire && s.cycle.state != Fault
    ensures !LiveMic(s) && !s.mic.dmaOwned && s.filling == -1
  {
  }

  lemma PollMovingKeeps(s: State, io: PollIo)
    requires Invariant(s) && s.cycle.state == Moving && s.cycle.lastPoll == io.now
    ensures Invariant(PollMoving(s, io))
  {
    hide TxControl.Sound, Microphone.Sound, SlotPart, TxPart, PublishedPart, Fail;
    var t := PollMoving(s, io);
    FailInvariant(s, io.fail);
    if t.cycle.state == Settling {
      RestingMic(s);
      CycleAlone(s, t);
      LegAdded(s.run, t.run, io.now);
      assert ScanPart(t);
    }
  }

  lemma LegAdded(r: Run, t: Run, now: nat)
    requires Planned(r) && r.current.Travelling? && r.current.leg.moved <= now
    requires t == r.(legs := r.legs + [r.current.leg.(arrived := now)], current := Nothing)
    ensures Planned(t)
  {
    forall k | 0 <= k < |t.legs| ensures LegSound(t, k) {
      if k < |r.legs| {
        assert LegSound(r, k);
      }
    }
  }

  lemma FailInvariant(s: State, io: StopIo)
    requires Invariant(s)
    ensures Invariant(Fail(s, io)) && Fail(s, io).cycle.state == Fault
    ensures Fail(s, io).run == s.run && Fail(s, io).published == s.published
  {
    hide Planned, TxControl.Sound, Microphone.Sound, Fail;
    FailKeeps(s, io);
  }

  lemma PollPreMoveKeeps(s: State, io: PollIo)
    requires Invariant(s) && s.cycle.state == PreMove && s.cycle.lastPoll == io.now && s.cycle.trigger <= io.now
    ensures Invariant(PollPreMove(s, io))
    ensures PollPreMove(s, io).cycle.state == Moving || PollPreMove(s, io).run == s.run
  {
    hide TxControl.Sound, Microphone.Sound, SlotPart, TxPart, PublishedPart, Fail, NextDelta, Planned;
    var t := PollPreMove(s, io);
    FailInvariant(s, io.fail);
    if t.cycle.state == Moving {
      RestingMic(s);
      CycleAlone(s, t);
      assert s.scan == Scan(s.run.positions, s.run.direction, |s.run.legs|);
      PlannedCurrent(s.run);
      CurrentChanged(s.run, t.run);
      assert ScanPart(t);
    }
  }

  lemma PollAcquireKeeps(s: State, io: PollIo, captured: bool, transmitted: bool)
    requires Pending(s, captured) && s.cycle.state == Acquire && s.mic.state != Microphone.Fault
    requires s.cycle.lastPoll == io.now && s.cycle.trigger <= io.now && (captured ==> transmitted)
    ensures Invariant(PollAcquire(s, io, captured, transmitted))
    ensures var t := PollAcquire(s, io, captured, transmitted);
      t.cycle.state == Acquire ==> !captured && io.now - s.cycle.trigger < CAPTURE_TIMEOUT_US
  {
    hide TxControl.Sound, Microphone.Sound, Fail, Planned, SlotPart, TxPart, PublishedPart, Invariant;
    var c := s.cycle.(received := captured, transmitted := s.cycle.transmitted || transmitted);
    var t := PollAcquire(s, io, captured, transmitted);
    StagedFail(s, s.(cycle := c), io.fail, captured);
    if captured {
      ExposureEnds(s, t);
    } else if t.cycle.state == Acquire {
      StillAcquiring(s, t);
    }
  }

  lemma StillAcquiring(s: State, t: State)
    requires Pending(s, false) && s.cycle.state == Acquire && s.mic.state != Microphone.Fault
    requires t == s.(cycle := s.cycle.(transmitted := t.cycle.transmitted))
    ensures Invariant(t)
  {
    hide TxControl.Sound, Microphone.Sound, Planned;
  }

  lemma ExposureEnds(s: State, t: State)
    requires Pending(s, true) && s.cycle.state == Acquire && s.cycle.trigger <= s.cycle.lastPoll && s.run.current.Shot?
    requires if s.cycle.stopping
             then t == s.(cycle := t.cycle) && t.cycle.state == Stopped
             else t == s.(cycle := t.cycle,
                          run := s.run.(current := Exposed(s.run.current.leg.(complete := s.cycle.lastPoll))))
                  && t.cycle.state == PreMove && t.cycle.received && t.cycle.transmitted
    requires t.cycle == s.cycle.(state := t.cycle.state, since := t.cycle.since, received := t.cycle.received,
                                 transmitted := t.cycle.transmitted)
    ensures Invariant(t)
  {
    hide TxControl.Sound, Microphone.Sound, Planned;
    PlannedCurrent(s.run);
    if !s.cycle.stopping {
      CurrentChanged(s.run, t.run);
    }
    assert ScanPart(t);
    assert SlotPart(t);
    assert TxPart(t);
  }

  lemma StagedFail(s: State, u: State, io: StopIo, captured: bool)
    requires Pending(s, captured) && s.cycle.state == Acquire
    requires u == s.(cycle := s.cycle.(received := u.cycle.received, transmitted := u.cycle.transmitted))
    ensures Invariant(Fail(u, io)) && Fail(u, io).cycle.state == Fault
  {
    hide TxControl.Sound, Microphone.Sound, Fail, Planned;
    FailKeeps(u, io);
  }

  // Capturing

  /** A state in which `slot` has just been reserved and the transmitter prepared, all else as in `s`. */
  ghost predicate Reserved(s: State, a: State, slot: nat) {
    && slot < |s.slots| && s.slots[slot] == FramePool.Free
    && a == s.(filling := slot, slots := s.slots[slot := FramePool.Filling], tx := a.tx,
               stopRequested := a.stopRequested, inhibited := a.inhibited)
    && TxControl.Sound(a.tx)
  }

  /** What a capture attempt may leave behind when it fails. */
  ghost predicate Attempted(s: State, a: State) {
    && a.cycle == s.cycle && a.run == s.run && a.scan == s.scan && a.requested == s.requested && a.prompt == s.prompt
    && a.published == s.published && a.motion == s.motion && a.pings == s.pings && a.stops == s.stops
    && a.armed == s.armed && a.starts == s.starts
    && |a.slots| == FramePool.POOL_COUNT && -1 <= a.filling < |a.slots|
    && (forall i :: 0 <= i < |a.slots| ==> (a.slots[i] == FramePool.Filling <==> i == a.filling))
    && Microphone.Sound(a.mic) && !LiveMic(a) && (a.mic.dmaOwned ==> a.filling >= 0 && a.mic.buffer == a.filling)
    && TxControl.Sound(a.tx)
  }

  /** What an attempt without a buffer, or cancelled before the trigger, leaves behind. */
  ghost predicate Abandoned(s: State, a: State) {
    Invariant(a) && a.cycle == s.cycle && a.run == s.run && a.published == s.published && a.scan == s.scan
  }

  /** What a triggered capture leaves behind. */
  ghost predicate Launched(s: State, a: State) {
    && a.cycle == s.cycle && a.run == s.run && a.scan == s.scan && a.requested == s.requested && a.prompt == s.prompt
    && a.published == s.published && a.motion == s.motion && a.pings == s.pings && a.stops == s.stops
    && a.armed == s.armed && a.starts == s.starts
    && |a.slots| == FramePool.POOL_COUNT && 0 <= a.filling < |a.slots|
    && (forall i :: 0 <= i < |a.slots| ==> (a.slots[i] == FramePool.Filling <==> i == a.filling))
    && a.mic.state == Microphone.Capturing && a.mic.dmaOwned && a.mic.buffer == a.filling
    && a.sequence == a.cycle.count + 1
    && TxControl.Sound(a.tx) && a.tx.running
  }

  lemma ReservedSlots(s: State, a: State, slot: nat)
    requires SlotPart(s) && !LiveMic(s) && s.filling == -1 && Reserved(s, a, slot)
    ensures |a.slots| == FramePool.POOL_COUNT
    ensures forall i :: 0 <= i < |a.slots| ==> (a.slots[i] == FramePool.Filling <==> i == slot)
    ensures a.slots[slot := FramePool.Free] == s.slots
  {
  }

  lemma PrepareKeeps(t: TxControl.Tx, x: TxControl.Sample, low: bool, status: TxControl.Status)
    requires TxControl.Sound(t) && !t.prepared
    ensures var u := TxControl.Prepare(t, x, low, status);
      && TxControl.Sound(u)
      && (TxControl.Prepares(t, x, low, status) ==> u.prepared && u.initialized && !u.fault)
  {
    TxControl.PollKeeps(t, x);
  }

  lemma LaunchReaches(s: State, a: State, io: CaptureIo, slot: nat)
    requires Invariant(s) && s.cycle.state == WaitBuffer && Reserved(s, a, slot)
    requires a.tx.prepared && a.tx.initialized && !a.tx.fault
    ensures 0 <= a.filling < |a.slots|
    ensures var r := Launch(a, io);
      && (r.result < 0 ==> Attempted(s, r.state))
      && (r.result > 0 ==> Launched(s, r.state))
      && (r.result == 0 ==> Abandoned(s, r.state))
  {
    hide Planned, TxControl.Aborts, TxControl.Sound, TxControl.Abort, Invariant;
    hide Attempted, Launched, Reserved, Microphone.Start;
    if a.stopRequested || a.inhibited {
      LaunchCancelled(s, a, io, slot);
    } else {
      LaunchStarts(s, a, io, slot);
    }
  }

  lemma LaunchCancelled(s: State, a: State, io: CaptureIo, slot: nat)
    requires Invariant(s) && s.cycle.state == WaitBuffer && Reserved(s, a, slot) && a.tx.initialized
    requires a.stopRequested || a.inhibited
    ensures 0 <= a.filling < |a.slots|
    ensures var r := Launch(a, io); r.result <= 0 && Attempted(s, r.state) && Abandoned(s, r.state)
  {
    hide Planned, TxControl.Aborts, TxControl.Sound, TxControl.Abort, PingSound;
    RestingMic(s);
    ReservedSlots(s, a, slot);
    AbortPrepared(a.tx, io.cancel);
  }

  lemma LaunchStarts(s: State, a: State, io: CaptureIo, slot: nat)
    requires Invariant(s) && s.cycle.state == WaitBuffer && Reserved(s, a, slot)
    requires a.tx.prepared && a.tx.initialized && !a.tx.fault && !a.stopRequested && !a.inhibited
    ensures 0 <= a.filling < |a.slots|
    ensures var r := Launch(a, io);
      r.result != 0 && (r.result < 0 ==> Attempted(s, r.state)) && (r.result > 0 ==> Launched(s, r.state))
  {
    hide Planned, TxControl.Sound, PingSound, ScanPart, MotionPart, StopPart, PublishedPart;
    RestingMic(s);
    ReservedSlots(s, a, slot);
    TriggeredRuns(a.tx, io.trigger);
  }

  lemma AbortPrepared(t: TxControl.Tx, io: TxControl.AbortIo)
    requires TxControl.Sound(t) && t.initialized
    ensures TxControl.Sound(TxControl.Abort(t, io)) && !TxControl.Abort(t, io).prepared
  {
    TxControl.AbortDrains(t, io);
  }

  lemma TriggeredRuns(t: TxControl.Tx, clock: uint64)
    requires TxControl.Sound(t) && t.initialized && t.prepared && !t.fault
    ensures TxControl.Sound(TxControl.Triggered(t, clock)) && TxControl.Triggered(t, clock).running
  {
  }

  lemma CaptureReaches(s: State, io: CaptureIo)
    requires Invariant(s) && s.cycle.state == WaitBuffer
    ensures var r := Capture(s, io);
      && (r.result < 0 ==> Attempted(s, r.state))
      && (r.result > 0 ==> Launched(s, r.state))
      && (r.result == 0 ==> Abandoned(s, r.state))
  {
    hide Planned, TxControl.Prepare, TxControl.Prepares, Launch, TxControl.Sound;
    hide Attempted, Launched, ScanPart, PublishedPart;
    RestingMic(s);
    var slot := FirstFree(s.slots);
    if slot >= 0 {
      PrepareKeeps(s.tx, io.prepare, io.low, io.status);
      var a := s.(filling := slot, slots := s.slots[slot := FramePool.Filling],
                  tx := TxControl.Prepare(s.tx, io.prepare, io.low, io.status));
      assert Reserved(s, a, slot);
      if TxControl.Prepares(s.tx, io.prepare, io.low, io.status) {
        var b := a.(stopRequested := a.stopRequested || io.stop || io.inhibit, inhibited := a.inhibited || io.inhibit);
        LaunchReaches(s, b, io, slot);
      } else {
        ReservedAttempted(s, a, slot);
      }
    } else {
      assert s.(filling := -1) == s;
    }
  }

  lemma ReservedAttempted(s: State, a: State, slot: nat)
    requires SlotPart(s) && !LiveMic(s) && !s.mic.dmaOwned && s.filling == -1 && Reserved(s, a, slot)
    ensures Attempted(s, a)
  {
    hide TxControl.Sound;
    ReservedSlots(s, a, slot);
  }

  lemma FailAttempted(s: State, a: State, io: StopIo)
    requires Invariant(s) && Attempted(s, a)
    ensures Invariant(Fail(a, io)) && Fail(a, io).cycle.state == Fault
    ensures Fail(a, io).run == s.run && Fail(a, io).published == s.published
  {
    hide Planned, TxControl.Sound, Microphone.Sound, Fail;
    FailKeeps(a, io);
  }

  lemma BegunKeeps(s: State, a: State, now: uint64, trigger: uint64)
    requires Invariant(s) && s.cycle.state == WaitBuffer && s.cycle.count < UINT32_MAX && Launched(s, a)
    requires s.cycle.lastPoll == now <= trigger
    ensures Invariant(Begun(a, now, trigger))
  {
    hide Planned, TxControl.Sound;
    var t := Begun(a, now, trigger);
    PlannedCurrent(s.run);
    CurrentChanged(s.run, t.run);
    assert ScanPart(t);
    assert SlotPart(t);
    assert TxPart(t) by {
      RunningNotAborted(a.tx);
    }
    assert PublishedPart(t);
  }

  lemma RunningNotAborted(t: TxControl.Tx)
    requires TxControl.Sound(t) && t.running
    ensures !t.aborted && !t.prepared && t.initialized
  {
  }

  lemma PollWaitKeeps(s: State, io: PollIo)
    requires Invariant(s) && s.cycle.state == WaitBuffer && s.cycle.lastPoll == io.now <= io.capture.trigger
    ensures Invariant(PollWait(s, io))
  {
    hide Invariant, Fail, Capture, Attempted, Launched;
    FailInvariant(s, io.fail);
    CaptureReaches(s, io.capture);
    var r := Capture(s, io.capture);
    if s.cycle.count < UINT32_MAX {
      if r.result < 0 {
        FailAttempted(s, r.state, io.fail);
      } else if r.result > 0 {
        assert r.state.cycle.count < UINT32_MAX by {
          LaunchedCycle(s, r.state);
        }
        BegunKeeps(s, r.state, io.now, io.capture.trigger);
      }
    }
  }

  lemma LaunchedCycle(s: State, a: State)
    requires Launched(s, a)
    ensures a.cycle == s.cycle
  {
  }

  /** After the last move has settled, a poll leaves the end of the scan to the coordinator. */
  predicate JustSettled(s: State, t: State, now: nat) {
    && s.cycle.state == Settling && Complete(s.scan)
    && t == s.(cycle := t.cycle)
    && t.cycle == s.cycle.(state := WaitBuffer, since := t.cycle.since, lastPoll := t.cycle.lastPoll)
  }

  lemma CyclePollKeeps(s: State, io: PollIo, captured: bool, transmitted: bool, fault: bool)
    requires Pending(s, captured) && (captured ==> transmitted) && (s.mic.state == Microphone.Fault ==> fault)
    requires s.cycle.trigger <= io.now <= io.capture.trigger
    ensures var t := CyclePoll(s, io, captured, transmitted, fault);
      if JustSettled(s, t, io.now) then Invariant(s) else Invariant(t)
  {
    hide Invariant, Pending, Fail, JustSettled;
    if s.cycle.state == Fault {
      SettledFault(s, captured);
      FaultIgnoresPoll(s, io, captured, transmitted, fault);
      NotSettling(s, io);
    } else if fault || io.now < s.cycle.lastPoll {
      FailingPoll(s, io, captured, transmitted, fault);
    } else {
      var t := s.(cycle := s.cycle.(lastPoll := io.now));
      Tick(s, io.now, captured);
      if s.cycle.state == Acquire {
        PollAcquireKeeps(t, io, captured, transmitted);
        AcquiringPoll(s, io, captured, transmitted);
        NotSettling(s, io);
      } else {
        RestingPending(s, captured);
        RestingPending(t, captured);
        PollResting(t, io);
        RestingPoll(s, io, captured, transmitted);
      }
    }
  }

  lemma NotSettling(s: State, io: PollIo)
    ensures s.cycle.state != Settling ==> forall t :: !JustSettled(s, t, io.now)
  {
  }

  lemma FaultIgnoresPoll(s: State, io: PollIo, captured: bool, transmitted: bool, fault: bool)
    requires s.cycle.state == Fault
    ensures CyclePoll(s, io, captured, transmitted, fault) == s
  {
  }

  lemma FailingPoll(s: State, io: PollIo, captured: bool, transmitted: bool, fault: bool)
    requires Pending(s, captured) && s.cycle.state != Fault && (fault || io.now < s.cycle.lastPoll)
    ensures var t := CyclePoll(s, io, captured, transmitted, fault); Invariant(t) && !JustSettled(s, t, io.now)
  {
    hide Invariant, Pending, Fail;
    FailPending(s, io.fail, captured);
    if s.cycle.lastPoll <= io.now {
      Tick(s, io.now, captured);
      FailPending(s.(cycle := s.cycle.(lastPoll := io.now)), io.fail, captured);
    }
  }

  lemma AcquiringPoll(s: State, io: PollIo, captured: bool, transmitted: bool)
    requires s.cycle.state == Acquire && s.cycle.lastPoll <= io.now
    ensures CyclePoll(s, io, captured, transmitted, false)
         == PollAcquire(s.(cycle := s.cycle.(lastPoll := io.now)), io, captured, transmitted)
  {
    hide PollAcquire;
  }

  lemma RestingPoll(s: State, io: PollIo, captured: bool, transmitted: bool)
    requires Invariant(s) && s.cycle.state != Acquire && s.cycle.state != Fault && s.cycle.lastPoll <= io.now
    requires var t := s.(cycle := s.cycle.(lastPoll := io.now)); Invariant(t) && RestingKept(t, io)
    ensures var t := CyclePoll(s, io, captured, transmitted, false);
      if JustSettled(s, t, io.now) then Invariant(s) else Invariant(t)
  {
    hide Invariant, PollWait, PollPreMove, PollMoving, Complete;
  }

  ghost predicate RestingKept(s: State, io: PollIo) {
    && (s.cycle.state == WaitBuffer ==> Invariant(PollWait(s, io)))
    && (s.cycle.state == PreMove ==> Invariant(PollPreMove(s, io)))
    && (s.cycle.state == Moving ==> Invariant(PollMoving(s, io)))
    && (s.cycle.state == Settling ==>
         Invariant(PollSettling(s, io)) || (PollSettling(s, io).cycle.state == WaitBuffer && Complete(s.scan)))
  }

  lemma RestingPending(s: State, captured: bool)
    requires Pending(s, captured) && s.cycle.state != Acquire && s.cycle.state != Fault
    ensures Invariant(s)
  {
    hide Planned, TxControl.Sound, Microphone.Sound;
  }

  lemma SettledFault(s: State, captured: bool)
    requires Pending(s, captured) && s.cycle.state == Fault
    ensures Invariant(s)
  {
    hide Planned, TxControl.Sound, Microphone.Sound;
  }

  /** One poll in a state that holds no buffer. */
  lemma PollResting(s: State, io: PollIo)
    requires Invariant(s) && s.cycle.state != Acquire && s.cycle.state != Fault
    requires s.cycle.trigger <= s.cycle.lastPoll == io.now <= io.capture.trigger
    ensures RestingKept(s, io)
  {
    hide Invariant, PollWait, PollPreMove, PollMoving;
    match s.cycle.state {
      case WaitBuffer => PollWaitKeeps(s, io);
      case PreMove => PollPreMoveKeeps(s, io);
      case Moving => PollMovingKeeps(s, io);
      case Settling =>
        if PollSettling(s, io).cycle.state == Settling || !Complete(s.scan) {
          PollSettlingKeeps(s, io);
        }
      case _ =>
    }
  }

  /** When the last move has settled the coordinator stops the cycle before another capture can start. */
  lemma EndKeeps(s: State, t: State, now: uint64, io: StopIo)
    requires Invariant(s) && s.cycle.state == Settling
    requires t == s.(cycle := s.cycle.(state := WaitBuffer, since := t.cycle.since, lastPoll := t.cycle.lastPoll))
    ensures Invariant(StopCycle(t, now, io))
    ensures var u := StopCycle(t, now, io);
      u.run == s.run && u.published == s.published && (u.cycle.state == Stopped || u.cycle.state == Fault)
  {
    hide Planned, TxControl.Abort, TxControl.Sound, Microphone.Sound, Stops, PingSound, Invariant, StopPart;
    hide StartsSound, Quiet, TxOnly, StopOutputs;
    NothingPrepared(s);
    StopOutputsQuiets(t, io);
    var u := StopCycle(t, now, io);
    StopLeaves(t, now, io);
    assert StopPart(u) by {
      StopOutcome(t, now, io);
    }
    OtherCycle(t, s, StopOutputs(t, io));
    EndRests(s, u);
  }

  /** What a stop of a cycle that is neither acquiring nor faulty, with its motor at rest, changes. */
  lemma StopLeaves(s: State, now: uint64, io: StopIo)
    requires s.cycle.state != Acquire && s.cycle.state != Fault && s.motion != Underway
    ensures var o, u := StopOutputs(s, io), StopCycle(s, now, io);
      && u == s.(cycle := u.cycle, tx := o.tx, stops := o.stops, armed := o.armed) && u.cycle.count == s.cycle.count
      && (u.cycle.state == Stopped || u.cycle.state == Fault) && o == s.(tx := o.tx, stops := o.stops, armed := o.armed)
      && (u.cycle.state == Stopped <==> Stops(s, io))
  {
    hide TxControl.Abort, Stops;
  }

  lemma OtherCycle(t: State, s: State, o: State)
    requires TxOnly(t, o) && t == s.(cycle := t.cycle) && o == t.(tx := o.tx, stops := o.stops, armed := o.armed)
    ensures TxOnly(s, s.(tx := o.tx, stops := o.stops, armed := o.armed))
  {
    hide TxControl.Sound, StartsSound;
  }

  lemma NothingPrepared(s: State)
    requires Invariant(s)
    ensures TxControl.Sound(s.tx) && !s.tx.prepared && StartsSound(s.starts, s.armed)
    ensures s.cycle.state == Settling ==> s.motion != Underway
  {
  }

  lemma StopOutcome(s: State, now: uint64, io: StopIo)
    requires s.cycle.state != Acquire && s.cycle.state != Fault && TxControl.Sound(s.tx)
    requires StartsSound(s.starts, s.armed)
    ensures StopPart(StopCycle(s, now, io))
  {
    hide TxControl.Abort, Stops, TxControl.Sound;
    StopOutputsQuiets(s, io);
  }

  lemma EndRests(s: State, t: State)
    requires Invariant(s) && s.cycle.state == Settling && StopPart(t) && t.cycle.count == s.cycle.count
    requires t == s.(cycle := t.cycle, tx := t.tx, stops := t.stops, armed := t.armed)
    requires t.cycle.state == Stopped || t.cycle.state == Fault
    requires TxOnly(s, s.(tx := t.tx, stops := t.stops, armed := t.armed)) && (t.cycle.state == Fault ==> Quiet(t.tx))
    ensures Invariant(t)
  {
    hide Planned, TxControl.Sound, Microphone.Sound, PingSound, StopPart;
    RestingMic(s);
    assert ScanPart(t);
    assert SlotPart(t);
    assert TxPart(t);
  }

  lemma AfterPollKeeps(before: CycleState, s: State, e: Inputs)
    requires Invariant(s)
    ensures Invariant(s.(inhibited := true, stopRequested := true))
  {
    hide Planned, TxControl.Sound, Microphone.Sound;
  }

  lemma ReportKeeps(s: State, reset: bool)
    requires Invariant(s)
    ensures Invariant(ReportFault(s, reset))
  {
    hide Planned, TxControl.Sound;
  }

  /** One iteration of the experiment task keeps the invariant, whatever the environment does. */
  lemma BodyKeepsInvariant(s: State, e: Inputs)
    requires Invariant(s) && Admissible(s, e)
    ensures KeysFit(e.keys) && Observed(s, e).filling < |Observed(s, e).slots|
    ensures Invariant(Body(s, e))
  {
    hide Invariant, Pending, Observed, Deliver, Polled, ReportFault, AfterPoll;
    ObservedListens(s, e);
    var c := Observed(s, e);
    PendingShape(c, false);
    DeliverTrigger(c);
    PolledKeeps(s, e);
    AfterKeeps(Deliver(c), Polled(s, e), e);
    ReportKeeps(AfterPoll(c.cycle.state, Polled(s, e), e), e.cancelReset);
  }

  lemma PolledKeeps(s: State, e: Inputs)
    requires Invariant(s) && Admissible(s, e)
    ensures KeysFit(e.keys) && Observed(s, e).filling < |Observed(s, e).slots|
    ensures var d, f := Deliver(Observed(s, e)), Polled(s, e);
      if JustSettled(d, f, e.poll.now) then Invariant(d) else Invariant(f)
  {
    hide Invariant, Pending, Observed, Deliver, CyclePoll, Listen, Commands, TxFault, Delivers, Publishes, Arrivals;
    ObservedListens(s, e);
    ObservedTrigger(s, e);
    var c := Observed(s, e);
    PendingShape(c, false);
    DeliverReaches(c);
    DeliverTrigger(c);
    var d := Deliver(c);
    var fatal := Arrivals(s, e).inhibited || (Delivers(c) && !c.cycle.stopping && !Publishes(c));
    var fault := fatal || TxFault(Listen(Commands(s, e), e.mic), e) || e.motorFault || d.mic.state == Microphone.Fault;
    CyclePollKeeps(d, e.poll, Delivers(c), TxControl.Done(c.tx), fault);
  }

  lemma AfterKeeps(d: State, f: State, e: Inputs)
    requires if JustSettled(d, f, e.poll.now) then Invariant(d) else Invariant(f)
    ensures Invariant(AfterPoll(d.cycle.state, f, e))
  {
    hide Invariant, StopCycle;
    if JustSettled(d, f, e.poll.now) {
      EndKeeps(d, f, e.endNow, e.endIo);
    } else {
      AfterPollKeeps(d.cycle.state, f, e);
      var g := if d.cycle.state == Acquire && f.cycle.state != Acquire && !e.muted
               then f.(inhibited := true, stopRequested := true) else f;
      StopCycleKeeps(g, e.endNow, e.endIo);
    }
  }

  lemma PendingShape(s: State, captured: bool)
    requires Pending(s, captured)
    ensures -1 <= s.filling < |s.slots|
    ensures Delivers(s) ==> TxControl.Done(s.tx) && s.filling >= 0
  {
  }

  lemma ObservedTrigger(s: State, e: Inputs)
    requires Invariant(s) && Admissible(s, e)
    ensures KeysFit(e.keys) && Observed(s, e).cycle.trigger == s.cycle.trigger
  {
    hide Invariant, Commands;
    CommandsKeep(s, e);
  }

  lemma DeliverTrigger(s: State)
    requires s.filling < |s.slots|
    ensures Deliver(s).cycle == s.cycle && Deliver(s).run == s.run && Deliver(s).scan == s.scan
  {
  }

  /** The state after one iteration. */
  ghost function Next(s: State, e: Inputs): (t: State)
    requires Invariant(s) && Admissible(s, e)
    ensures Invariant(t)
  {
    BodyKeepsInvariant(s, e);
    Body(s, e)
  }
}
