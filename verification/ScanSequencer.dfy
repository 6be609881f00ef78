/**
 The experiment task: measurement cycle, scan, transmitter, capture object and frame slots, joined by one
 loop body. Everything the hardware, the sender task, the console or the clock contributes to an
 iteration is an input of that iteration.
 */
module ScanSequencer {
  import opened MachineIntegers
  import opened Options
  import opened Scan360
  import opened AudioLimits
  import FramePool
  import TxControl
  import Microphone

  const MOTOR_START_US := 2000000
  const SETTLE_US := 2000000
  const CAPTURE_TIMEOUT_US := 500000

  /** The scheduler's rate: whole milliseconds a tick, and a capture timeout of at least one tick. */
  type TickRate = r: nat | 2 <= r <= 1000 && 1000 % r == 0 witness 1000
  const TICK_HZ: TickRate
  const CAPTURE_TICKS: uint32 := (CAPTURE_TIMEOUT_US + 999) / 1000 * TICK_HZ / 1000
  const MOTION_TIMEOUT_US := 300000000
  const MAX_TX_US := CAPTURE_US - START_MARGIN_US
  const DEFAULT_TX_TIMEOUT_US := CAPTURE_US + TIMEOUT_MARGIN_US

  datatype CycleState = Idle | WaitBuffer | Acquire | PreMove | Moving | Settling | Stopped | Fault
  datatype Cycle = Cycle(state: CycleState, since: uint64, trigger: uint64, lastPoll: uint64, count: uint32,
                         steps: int32,
                         stopping: bool, received: bool, transmitted: bool, txTimeout: uint64, faultState: CycleState)

  /** One position of a scan; the fields after `trigger` have a meaning once that stage is reached. */
  datatype Leg = Leg(sequence: nat, polled: nat, trigger: nat, complete: nat, delta: int, moved: nat, arrived: nat)
  datatype Progress = Nothing | Shot(leg: Leg) | Exposed(leg: Leg) | Travelling(leg: Leg)

  /**
   The motor's last commanded move: none yet, not seen to end, seen to end at a time, or ended at a time by a stop.
   A stop succeeds only when the motor was read de-energized and at zero velocity.
   */
  datatype Motion = Still | Underway | Arrived(at: nat) | Halted(at: nat)

  /** What the scan started last has done so far; `begins` and `started` describe the moment it was started. */
  datatype Run = Run(positions: nat, direction: int, first: nat, begins: Motion, started: nat, legs: seq<Leg>,
                     current: Progress)

  /** A capture of any scan since reset: the `index`-th of its scan, with the motor's last move before it. */
  datatype Ping = Ping(sequence: nat, trigger: nat, index: nat, motion: Motion, begins: Motion, started: nat)

  /** The start of a scan: the key's answers, whether a test was armed and which, and what was to be done. */
  datatype Begin = Begin(canStart: bool, armed: bool, test: nat, requested: int32, positions: nat, direction: int,
                         durationUs: nat)

  /** The tests armed since reset, counted, and the scans started. */
  datatype Starts = Starts(tests: nat, scans: seq<Begin>)

  /** One call to stop all outputs, with the result of muting, of stopping the motor and of aborting transmission. */
  datatype StopCall = StopCall(muted: bool, motorStopped: bool, txStopped: bool)

  /** A published capture; interrupted when its transmission was muted and aborted. */
  datatype Frame = Frame(sequence: nat, interrupted: bool)
  datatype Prompt = NoPrompt | Positions | Divisor

  /** `run`, `published`, `motion`, `pings`, `stops` and `starts` are history variables. */
  datatype State = State(
    cycle: Cycle, scan: Scan, tx: TxControl.Tx, mic: Microphone.Mic,
    slots: seq<FramePool.SlotState>, filling: int, sequence: nat,
    requested: int32, prompt: Prompt, stopRequested: bool, inhibited: bool, faultReported: bool, armed: bool,
    run: Run, published: seq<Frame>, motion: Motion, pings: seq<Ping>, stops: seq<StopCall>, starts: Starts)

  datatype StopIo = StopIo(muted: bool, motorStopped: bool, abort: TxControl.AbortIo)
  datatype CaptureIo = CaptureIo(
    prepare: TxControl.Sample, low: bool, status: TxControl.Status, stop: bool, inhibit: bool,
    cancel: TxControl.AbortIo,
    speaker: bool, prepared: bool, armed: bool, rise: bool, fell: bool, reset: bool, tick: uint32, trigger: uint64)
  datatype PollIo = PollIo(now: uint64, motorDone: bool, moved: bool, capture: CaptureIo, fail: StopIo)
  datatype Key =
    | AskPositions
    | AskDivisor
    | Number(value: Option<int32>)
    | Start(now: uint64, canStart: bool, durationUs: nat)
    | OtherKey
  datatype MicIo = MicIo(event: Option<Microphone.Event>, tick: uint32, finished: bool, reset: bool, resetLate: bool)
  datatype Inputs = Inputs(
    stop: bool, inhibit: bool, sender: seq<FramePool.SlotState>, stopNow: uint64, stopIo: StopIo,
    replies: seq<TxControl.Sample>, apply: Option<(TxControl.Sample, TxControl.Programming)>, arm: bool,
    keys: seq<Key>,
    mic: MicIo, errorPoll: TxControl.Sample, donePoll: TxControl.Sample, motorFault: bool, poll: PollIo,
    muted: bool, endNow: uint64, endIo: StopIo, cancelReset: bool)

  predicate Flying(s: State) {
    s.cycle.state != Idle && s.cycle.state != Stopped && s.cycle.state != Fault
  }

  predicate IdleCycle(s: State) {
    s.cycle.state == Idle || s.cycle.state == Stopped
  }

  // Measurement cycle and its callbacks

  predicate Stops(s: State, io: StopIo) {
    io.muted && io.motorStopped && TxControl.Aborts(s.tx, io.abort)
  }

  function StopOutputs(s: State, io: StopIo): State {
    s.(tx := TxControl.Abort(s.tx, io.abort), armed := false,
       stops := s.stops + [StopCall(io.muted, io.motorStopped, TxControl.Aborts(s.tx, io.abort))])
  }

  function Fail(s: State, io: StopIo): State {
    StopOutputs(s.(cycle := s.cycle.(faultState := s.cycle.state, state := Fault)), io)
  }

  /** What a successful stop makes of the last move. */
  function AfterHalt(m: Motion, now: uint64): Motion {
    if m == Underway then Halted(now) else m
  }

  function StopCycle(s: State, now: uint64, io: StopIo): State {
    var t := StopOutputs(s, io);
    if !Stops(s, io) then
      t.(cycle := if t.cycle.state == Fault then t.cycle else t.cycle.(faultState := t.cycle.state, state := Fault))
    else if t.cycle.state != Acquire && t.cycle.state != Fault then
      t.(cycle := t.cycle.(stopping := true, state := Stopped, since := now), motion := AfterHalt(t.motion, now))
    else t.(cycle := t.cycle.(stopping := true), motion := AfterHalt(t.motion, now))
  }

  function StartScan(s: State, k: Key): State
    requires k.Start? && k.durationUs <= MAX_TX_US
  {
    var scan := s.scan.(started := 0);
    var c := s.cycle.(txTimeout := k.durationUs + START_MARGIN_US + TIMEOUT_MARGIN_US);
    if s.requested == 0 || !IdleCycle(s) then s.(scan := scan, cycle := c)
    else s.(scan := scan, armed := false,
            cycle := c.(steps := s.requested, stopping := false, received := false, transmitted := false,
                        state := WaitBuffer, since := k.now, lastPoll := k.now),
            run := Run(scan.positions, scan.direction, s.cycle.count + 1, s.motion, k.now, [], Nothing),
            starts := s.starts.(scans := s.starts.scans + [BeginOf(s, k)]))
  }

  /** What is recorded of a start. */
  function BeginOf(s: State, k: Key): Begin
    requires k.Start?
  {
    Begin(k.canStart, s.armed, s.starts.tests, s.requested, s.scan.positions, s.scan.direction, k.durationUs)
  }

  /** The lowest free slot, or -1. */
  function FirstFree(slots: seq<FramePool.SlotState>): (i: int)
    ensures -1 <= i < |slots|
    ensures i >= 0 ==> slots[i] == FramePool.Free
    ensures i < 0 ==> FramePool.Free !in slots
  {
    if slots == [] then -1
    else if slots[0] == FramePool.Free then 0
    else
      var rest := FirstFree(slots[1..]);
      if rest < 0 then -1 else rest + 1
  }

  datatype Attempt = Attempt(state: State, result: int)

  /** Prepares and triggers one capture: 0 when there is no buffer or a stop came first, -1 on failure. */
  function Capture(s: State, io: CaptureIo): Attempt {
    var slot := FirstFree(s.slots);
    if slot < 0 then Attempt(s.(filling := -1), 0)
    else
      Prepared(s.(filling := slot, slots := s.slots[slot := FramePool.Filling]), io)
  }

  /** With a slot reserved: prepares the transmitter, then launches unless it refuses. */
  function Prepared(s: State, io: CaptureIo): Attempt
    requires 0 <= s.filling < |s.slots|
  {
    var a := s.(tx := TxControl.Prepare(s.tx, io.prepare, io.low, io.status));
    if !TxControl.Prepares(s.tx, io.prepare, io.low, io.status) then Attempt(a, -1)
    else Launch(a.(stopRequested := a.stopRequested || io.stop || io.inhibit,
                   inhibited := a.inhibited || io.inhibit), io)
  }

  function Launch(s: State, io: CaptureIo): Attempt
    requires 0 <= s.filling < |s.slots|
  {
    if s.stopRequested || s.inhibited then
      Attempt(s.(tx := TxControl.Abort(s.tx, io.cancel), slots := s.slots[s.filling := FramePool.Free], filling := -1),
              if TxControl.Aborts(s.tx, io.cancel) then 0 else -1)
    else
      var m := Microphone.Configure(s.filling, ACQ_BYTES, CAPTURE_TICKS);
      if !io.speaker then Attempt(s.(mic := m), -1)
      else
        var results := Microphone.StartIo(io.prepared, io.armed, io.rise && io.fell, io.reset);
        Attempt(s.(mic := Microphone.Start(m, io.tick, results),
                   tx := if io.prepared && io.armed && io.rise then TxControl.Triggered(s.tx, io.trigger) else s.tx,
                   sequence := s.cycle.count + 1),
                if Microphone.Starts(m, results) then 1 else -1)
  }

  function Begun(s: State, now: uint64, trigger: uint64): State
    requires s.cycle.count < UINT32_MAX
  {
    s.(cycle := s.cycle.(count := s.cycle.count + 1, trigger := trigger, since := trigger, received := false,
                         transmitted := false, state := Acquire),
       run := s.run.(current := Shot(Leg(s.cycle.count + 1, now, trigger, 0, 0, 0, 0))),
       pings := s.pings + [Ping(s.cycle.count + 1, trigger, |s.run.legs|, s.motion, s.run.begins, s.run.started)])
  }

  function PollWait(s: State, io: PollIo): State {
    if s.cycle.count == UINT32_MAX then Fail(s, io.fail)
    else
      var a := Capture(s, io.capture);
      if a.result < 0 then Fail(a.state, io.fail)
      else if a.result > 0 then Begun(a.state, io.now, io.capture.trigger)
      else a.state
  }

  function PollAcquire(s: State, io: PollIo, captured: bool, transmitted: bool): State {
    var c := s.cycle.(received := s.cycle.received || captured, transmitted := s.cycle.transmitted || transmitted);
    var t := s.(cycle := c);
    if !c.received && TxControl.Elapsed(io.now, c.trigger) >= CAPTURE_TIMEOUT_US then Fail(t, io.fail)
    else if !c.transmitted && TxControl.Elapsed(io.now, c.trigger) >= c.txTimeout then Fail(t, io.fail)
    else if c.received && c.transmitted then
      if c.stopping then t.(cycle := c.(state := Stopped, since := io.now))
      else t.(cycle := c.(state := PreMove, since := io.now),
              run := if t.run.current.Shot? then t.run.(current := Exposed(t.run.current.leg.(complete := io.now)))
                     else t.run)
    else t
  }

  /** Issues the next relative move of the scan, unless it has none or the motor refuses. */
  function PollPreMove(s: State, io: PollIo): State {
    if TxControl.Elapsed(io.now, s.cycle.trigger) < MOTOR_START_US then s
    else
      var delta := NextDelta(s.scan);
      if CaptureIndex(s.scan) == 0 || delta == 0 || !io.moved then Fail(s, io.fail)
      else s.(scan := MarkMoveStarted(s.scan), cycle := s.cycle.(state := Moving, since := io.now), motion := Underway,
              run := if s.run.current.Exposed?
                     then s.run.(current := Travelling(s.run.current.leg.(delta := delta, moved := io.now))) else s.run)
  }

  function PollMoving(s: State, io: PollIo): State {
    if TxControl.Elapsed(io.now, s.cycle.since) >= MOTION_TIMEOUT_US then Fail(s, io.fail)
    else if io.motorDone then
      s.(cycle := s.cycle.(state := Settling, since := io.now), motion := Arrived(io.now),
         run := if s.run.current.Travelling?
                then s.run.(legs := s.run.legs + [s.run.current.leg.(arrived := io.now)], current := Nothing)
                else s.run)
    else s
  }

  function PollSettling(s: State, io: PollIo): State {
    if TxControl.Elapsed(io.now, s.cycle.since) >= SETTLE_US then
      s.(cycle := s.cycle.(state := WaitBuffer, since := io.now))
    else s
  }

  function CyclePoll(s: State, io: PollIo, captured: bool, transmitted: bool, fault: bool): State {
    if s.cycle.state == Fault then s
    else if io.now < s.cycle.lastPoll then Fail(s, io.fail)
    else
      var t := s.(cycle := s.cycle.(lastPoll := io.now));
      if fault then Fail(t, io.fail)
      else match t.cycle.state
        case WaitBuffer => PollWait(t, io)
        case Acquire => PollAcquire(t, io, captured, transmitted)
        case PreMove => PollPreMove(t, io)
        case Moving => PollMoving(t, io)
        case Settling => PollSettling(t, io)
        case _ => t
  }

  // Loop body

  function Arrivals(s: State, e: Inputs): State {
    s.(slots := e.sender, stopRequested := s.stopRequested || e.stop || e.inhibit,
       inhibited := s.inhibited || e.inhibit)
  }

  function HandleStop(s: State, e: Inputs): State {
    if s.stopRequested then StopCycle(s.(stopRequested := false), e.stopNow, e.stopIo).(prompt := NoPrompt) else s
  }

  function PollAll(t: TxControl.Tx, polls: seq<TxControl.Sample>): TxControl.Tx
    decreases |polls|
  {
    if polls == [] then t else PollAll(TxControl.Poll(t, polls[0]), polls[1..])
  }

  /** A control command; only an idle sequencer lets it program the transmitter, which disarms, or arm a test. */
  function Control(s: State, e: Inputs, mutable: bool): State {
    var t :=
      if mutable && e.apply.Some? then
        s.(tx := TxControl.Apply(s.tx, e.apply.value.0, e.apply.value.1), armed := false)
      else if mutable && e.arm then s.(armed := true, starts := s.starts.(tests := s.starts.tests + 1))
      else s;
    t.(tx := PollAll(t.tx, e.replies))
  }

  function Press(s: State, k: Key, fatal: bool): State
    requires k.Start? ==> k.durationUs <= MAX_TX_US
  {
    if s.prompt != NoPrompt then
      match k
      case Number(value) =>
        var t := s.(prompt := NoPrompt);
        if s.prompt == Positions && value.Some? && 0 < Abs(value.value) <= MAX_POSITIONS then
          t.(requested := value.value,
             scan := Scan(Abs(value.value), if value.value < 0 then -1 else 1, 0))
        else t
      case _ => s
    else match k
      case AskPositions => if IdleCycle(s) then s.(prompt := Positions) else s
      case AskDivisor => if IdleCycle(s) then s.(prompt := Divisor) else s
      case Start(_, canStart, _) =>
        if !fatal && s.requested != 0 && IdleCycle(s) && canStart && s.armed then StartScan(s, k) else s
      case _ => s
  }

  predicate KeysFit(keys: seq<Key>) {
    forall k :: 0 <= k < |keys| && keys[k].Start? ==> keys[k].durationUs <= MAX_TX_US
  }

  function PressAll(s: State, keys: seq<Key>, fatal: bool): State
    requires KeysFit(keys)
    decreases |keys|
  {
    if keys == [] then s else PressAll(Press(s, keys[0], fatal), keys[1..], fatal)
  }

  function Listen(s: State, io: MicIo): State {
    if s.filling >= 0 && s.mic.state == Microphone.Capturing then
      var m :=
        if io.event.Some? then Microphone.OnEvent(s.mic, io.event.value, io.tick, io.finished, io.reset) else s.mic;
      s.(mic := Microphone.Poll(m, io.tick, io.resetLate))
    else s
  }

  predicate Delivers(s: State) {
    s.filling >= 0 && s.mic.state == Microphone.Ready && TxControl.Done(s.tx)
  }

  predicate Publishes(s: State)
    requires 0 <= s.filling < |s.slots|
  {
    Delivers(s) && !s.cycle.stopping && s.slots[s.filling] == FramePool.Filling
  }

  /** Publishes the finished capture, or discards it when the scan is being stopped. */
  function Deliver(s: State): State
    requires s.filling < |s.slots|
  {
    if !Delivers(s) then s
    else
      var t := s.(mic := Microphone.Release(s.mic), filling := -1);
      if s.cycle.stopping then t.(slots := s.slots[s.filling := FramePool.Free])
      else if Publishes(s) then
        t.(slots := s.slots[s.filling := FramePool.Ready],
           published := s.published + [Frame(s.sequence, s.tx.aborted)])
      else t
  }

  function AfterPoll(before: CycleState, s: State, e: Inputs): State {
    var t := if before == Acquire && s.cycle.state != Acquire && !e.muted
             then s.(inhibited := true, stopRequested := true) else s;
    if before == Settling && t.cycle.state == WaitBuffer && Complete(t.scan) then StopCycle(t, e.endNow, e.endIo) else t
  }

  function ReportFault(s: State, reset: bool): State {
    if s.cycle.state == Fault && !s.faultReported then
      s.(mic := Microphone.Cancel(s.mic, reset), faultReported := true)
    else s
  }

  /** The part of the body before the capture and the cycle are looked at. */
  function Commands(s: State, e: Inputs): State
    requires KeysFit(e.keys)
  {
    var a := Arrivals(s, e);
    var stop, fatal := a.stopRequested, a.inhibited;
    var b := HandleStop(a, e);
    PressAll(Control(b, e, !fatal && !stop && IdleCycle(b) && b.filling < 0), e.keys, fatal)
  }

  function PollTransmitter(s: State, e: Inputs): State {
    s.(tx := TxControl.Poll(TxControl.Poll(s.tx, e.errorPoll), e.donePoll))
  }

  function Observed(s: State, e: Inputs): State
    requires KeysFit(e.keys)
  {
    PollTransmitter(Listen(Commands(s, e), e.mic), e)
  }

  predicate TxFault(s: State, e: Inputs) {
    TxControl.Poll(s.tx, e.errorPoll).fault
  }

  /** Deliver what is complete, then poll the cycle with what was observed. */
  function Polled(s: State, e: Inputs): State
    requires KeysFit(e.keys)
    requires Observed(s, e).filling < |Observed(s, e).slots|
  {
    var c := Observed(s, e);
    var captured := Delivers(c);
    var d := Deliver(c);
    var fatal := Arrivals(s, e).inhibited || (captured && !c.cycle.stopping && !Publishes(c));
    var txFault := TxFault(Listen(Commands(s, e), e.mic), e);
    CyclePoll(d, e.poll, captured, TxControl.Done(c.tx),
              fatal || txFault || e.motorFault || d.mic.state == Microphone.Fault)
  }

  function Body(s: State, e: Inputs): State
    requires KeysFit(e.keys)
    requires Observed(s, e).filling < |Observed(s, e).slots|
  {
    ReportFault(AfterPoll(Observed(s, e).cycle.state, Polled(s, e), e), e.cancelReset)
  }
}
