/** Concrete runs that show what the code allows although it may look excluded. */
module ScanExamples {
  import opened MachineIntegers
  import opened Options
  import opened AudioLimits
  import opened Scan360
  import opened ScanSequencer
  import opened ScanSafety
  import opened ScanRuns
  import FramePool
  import TxControl
  import Microphone

  /** The clock as an iteration reads it: for a stop, for starts, for the poll and its trigger, and at the end. */
  predicate Ordered(e: Inputs) {
    && (forall k :: 0 <= k < |e.keys| && e.keys[k].Start? ==> e.stopNow <= e.keys[k].now <= e.poll.now)
    && e.stopNow <= e.errorPoll.clock <= e.donePoll.clock <= e.poll.now <= e.poll.capture.trigger <= e.endNow
  }

  /** The clock never goes back, within an iteration or from one to the next. */
  predicate ClockRuns(es: seq<Inputs>) {
    && (forall i :: 0 <= i < |es| ==> Ordered(es[i]))
    && forall i :: 0 < i < |es| ==> es[i - 1].endNow <= es[i].stopNow
  }

  // When things happen, in microseconds after the first trigger

  const EXPOSURE_END := 50000
  const MOVE_AT := 2000000
  const HALT_AT := 2500000
  const ARRIVAL := 3000000
  const PASS := 1000
  const LAST := ARRIVAL + PASS

  const QUIET := TxControl.Status(false, false, false)
  const ENDED := TxControl.Status(true, true, false)

  function Read(status: TxControl.Status, now: nat): TxControl.Sample
    requires now <= LAST
  {
    TxControl.Sample(status, now)
  }

  /** An abort that succeeds; a transmission under way ends when `status` says so. */
  function AbortAt(status: TxControl.Status, now: nat): TxControl.AbortIo
    requires now <= LAST
  {
    TxControl.AbortIo(true, true, Read(status, now), [], status)
  }

  /** A capture whose every step succeeds. */
  function CaptureAt(now: nat): CaptureIo
    requires now <= LAST
  {
    CaptureIo(Read(QUIET, now), true, QUIET, false, false, AbortAt(QUIET, now), true, true, true, true, true, true,
              0, now)
  }

  function Iteration(
    now: nat, slots: seq<FramePool.SlotState>, keys: seq<Key>, event: Option<Microphone.Event>, motorFault: bool)
    : Inputs
    requires now <= LAST
  {
    Inputs(false, false, slots, now, StopIo(true, true, AbortAt(QUIET, now)), [], None, keys != [], keys,
           MicIo(event, 0, true, true, true), Read(QUIET, now), Read(QUIET, now), motorFault,
           PollIo(now, false, true, CaptureAt(now), StopIo(true, true, AbortAt(ENDED, now))),
           true, now, StopIo(true, true, AbortAt(QUIET, now)), true)
  }

  function Slots(n: nat, first: FramePool.SlotState): seq<FramePool.SlotState> {
    seq(n, i => if i == 0 then first else FramePool.Free)
  }

  const TX_TIMEOUT := 60000

  const READY_BOARD := State(
    Cycle(Idle, 0, 0, 0, 0, 0, false, false, false, DEFAULT_TX_TIMEOUT_US, Idle), Scan(0, 0, 0),
    TxControl.Tx(true, true, false, false, false, false, false, TX_TIMEOUT, false, 0, None),
    Microphone.Mic(Microphone.Idle, Microphone.Fine, 0, 0, 0, 0, 0, false),
    Slots(FramePool.POOL_COUNT, FramePool.Free), -1, 0, 0, NoPrompt, false, false, false, false,
    Run(0, 0, 0, Still, 0, [], Nothing), [],
    Still, [], [], Starts(0, []))

  const DONE_EVENT := Some(Microphone.Event(1, false, false, true, ACQ_BYTES, 0))
  const START_KEYS := [AskPositions, Number(Some(1)), Start(0, true, MAX_TX_US)]

  const POOL_FREE := Slots(FramePool.POOL_COUNT, FramePool.Free)
  const POOL_FILLING := Slots(FramePool.POOL_COUNT, FramePool.Filling)
  const POOL_READY := Slots(FramePool.POOL_COUNT, FramePool.Ready)

  const ACQUIRING := READY_BOARD.(
    cycle := Cycle(Acquire, 0, 0, 0, 1, 1, false, false, false, TX_TIMEOUT, Idle), scan := Scan(1, 1, 0),
    tx := READY_BOARD.tx.(running := true),
    mic := Microphone.Mic(Microphone.Capturing, Microphone.Fine, 0, ACQ_BYTES, CAPTURE_TICKS, 1, 0, true),
    slots := POOL_FILLING, filling := 0, sequence := 1, requested := 1,
    run := Run(1, 1, 1, Still, 0, [], Shot(Leg(1, 0, 0, 0, 0, 0, 0))), pings := [Ping(1, 0, 0, Still, Still, 0)],
    starts := Starts(1, [BeginWith(1)]))

  /** A start for one position with test number `test`. */
  function BeginWith(test: nat): Begin {
    Begin(true, true, test, 1, 1, 1, MAX_TX_US)
  }

  /** The operator enters one position and starts a scan. */
  function StartIteration(): Inputs {
    Iteration(0, POOL_FREE, START_KEYS, None, false)
  }

  lemma NothingPressed(s: State)
    ensures PressAll(s, [], false) == s
  {
  }

  lemma NothingPolled(t: TxControl.Tx)
    ensures PollAll(t, []) == t
  {
  }

  /** Without stop, commands and keys only the sender has had its turn. */
  lemma NoCommands(s: State, e: Inputs)
    requires !s.stopRequested && !s.inhibited && !e.stop && !e.inhibit
    requires e.replies == [] && e.apply.None? && !e.arm && e.keys == []
    ensures KeysFit(e.keys) && Commands(s, e) == s.(slots := e.sender)
  {
    hide PollAll, PressAll;
    NothingPolled(s.tx);
    NothingPressed(s.(slots := e.sender));
  }

  /** With nothing to listen to, nothing to deliver and nothing wrong, an iteration is its commands and a poll. */
  lemma QuietPoll(r: State, e: Inputs, c: State)
    requires KeysFit(e.keys) && c == Commands(r, e) && c.filling == -1 && !c.tx.running && !c.tx.fault
    requires c.mic.state == Microphone.Idle && !Arrivals(r, e).inhibited && !e.motorFault
    ensures Observed(r, e) == c && c.filling < |c.slots|
    ensures Polled(r, e) == CyclePoll(c, e.poll, false, TxControl.Done(c.tx), false)
  {
    hide Commands, CyclePoll, Arrivals;
  }

  lemma ThreeKeys(s: State, keys: seq<Key>, fatal: bool)
    requires |keys| == 3 && KeysFit(keys)
    ensures PressAll(s, keys, fatal) == Press(Press(Press(s, keys[0], fatal), keys[1], fatal), keys[2], fatal)
  {
    hide Press;
    var t := Press(Press(s, keys[0], fatal), keys[1], fatal);
    assert keys[1..][1..] == [keys[2]] && [keys[2]][1..] == [];
    assert PressAll(t, [keys[2]], fatal) == Press(t, keys[2], fatal);
  }

  lemma PositionIsEntered(e: Inputs)
    requires e == StartIteration()
    ensures KeysFit(e.keys)
    ensures Commands(READY_BOARD, e) ==
            READY_BOARD.(requested := 1, starts := Starts(1, [BeginWith(1)]), scan := Scan(1, 1, 0),
                         run := Run(1, 1, 1, Still, 0, [], Nothing),
                         cycle := Cycle(WaitBuffer, 0, 0, 0, 0, 1, false, false, false, TX_TIMEOUT, Idle))
  {
    hide Slots, PressAll;
    ThreeKeys(READY_BOARD.(armed := true, starts := Starts(1, [])), e.keys, false);
  }

  lemma CaptureStarts(e: Inputs)
    requires Invariant(READY_BOARD) && Admissible(READY_BOARD, e) && e == StartIteration()
    ensures Next(READY_BOARD, e) == ACQUIRING
  {
    hide Invariant, Admissible, Commands, Observed, Polled, Slots, PollAcquire, PollPreMove, PollMoving;
    hide Fail, StopCycle;
    PositionIsEntered(e);
    QuietPoll(READY_BOARD, e, Commands(READY_BOARD, e));
    FirstSlot();
  }

  lemma FirstSlot()
    ensures |POOL_FREE| == FramePool.POOL_COUNT && FirstFree(POOL_FREE) == 0
    ensures POOL_FREE[0 := FramePool.Filling] == POOL_FILLING && |POOL_FILLING| == FramePool.POOL_COUNT
  {
  }

  // A fault publishes the capture it interrupted

  /** The capture completes; the motor fails before the transmission ends; one iteration more. */
  function FaultingRun(): seq<Inputs> {
    [StartIteration(),
     Iteration(EXPOSURE_END, POOL_FILLING, [], DONE_EVENT, true),
     Iteration(EXPOSURE_END + PASS, POOL_FILLING, [], None, false)]
  }

  const FAULTED := ACQUIRING.(
    cycle := ACQUIRING.cycle.(state := Fault, lastPoll := EXPOSURE_END, faultState := Acquire),
    tx := ACQUIRING.tx.(running := false, aborted := true, ending := Some(ENDED)),
    mic := ACQUIRING.mic.(state := Microphone.Ready, dmaOwned := false), faultReported := true,
    stops := [StopCall(true, true, true)])

  lemma MotorFails(e: Inputs)
    requires Invariant(ACQUIRING) && Admissible(ACQUIRING, e) && e == FaultingRun()[1]
    ensures Next(ACQUIRING, e) == FAULTED
  {
    hide Invariant, Admissible, Commands, Slots, PollWait, PollAcquire, PollPreMove, PollMoving;
    NoCommands(ACQUIRING, e);
  }

  lemma InterruptedIsPublished(e: Inputs)
    requires Invariant(FAULTED) && Admissible(FAULTED, e) && e == FaultingRun()[2]
    ensures Next(FAULTED, e).published == [Frame(1, true)]
  {
    hide Invariant, Admissible, Commands, PollWait, PollAcquire, PollPreMove, PollMoving;
    NoCommands(FAULTED, e);
  }

  lemma FaultingRunIsTimed()
    ensures |FaultingRun()| == 3 && ClockRuns(FaultingRun())
  {
    hide Slots;
  }

  /** So the rule that interrupted captures are discarded has an exception: the third iteration publishes one. */
  lemma FaultPublishesInterruptedCapture() returns (t: State)
    ensures Initial(READY_BOARD) && Invariant(READY_BOARD) && RunsTo(READY_BOARD, FaultingRun(), t)
    ensures ClockRuns(FaultingRun()) && t.published == [Frame(1, true)]
  {
    hide Next;
    InitialInvariant(READY_BOARD);
    FaultingRunIsTimed();
    var es := FaultingRun();
    hide ClockRuns;
    CaptureStarts(es[0]);
    MotorFails(es[1]);
    t := Next(FAULTED, es[2]);
    InterruptedIsPublished(es[2]);
    assert es[1..] == [es[1], es[2]] && es[1..][1..] == [es[2]] && es[1..][1..][1..] == [];
    assert RunsTo(t, [], t);
    assert RunsTo(FAULTED, es[1..][1..], t);
    assert RunsTo(ACQUIRING, es[1..], t);
  }

  // A scan started right after a stop captures without settling

  const EXPOSED := ACQUIRING.(
    cycle := Cycle(PreMove, EXPOSURE_END, 0, EXPOSURE_END, 1, 1, false, true, true, TX_TIMEOUT, Idle),
    tx := ACQUIRING.tx.(running := false, completed := true, ending := Some(ENDED)),
    mic := ACQUIRING.mic.(state := Microphone.Idle, dmaOwned := false),
    slots := POOL_READY, filling := -1,
    run := ACQUIRING.run.(current := Exposed(Leg(1, 0, 0, EXPOSURE_END, 0, 0, 0))),
    published := [Frame(1, false)])

  const UNDER_WAY := EXPOSED.(
    cycle := EXPOSED.cycle.(state := Moving, since := MOVE_AT, lastPoll := MOVE_AT), scan := Scan(1, 1, 1),
    slots := POOL_FREE,
    run := EXPOSED.run.(current := Travelling(Leg(1, 0, 0, EXPOSURE_END, 88000, MOVE_AT, 0))),
    motion := Underway)

  const ARRIVED := UNDER_WAY.(
    cycle := UNDER_WAY.cycle.(state := Settling, since := ARRIVAL, lastPoll := ARRIVAL),
    run := UNDER_WAY.run.(legs := [Leg(1, 0, 0, EXPOSURE_END, 88000, MOVE_AT, ARRIVAL)], current := Nothing),
    motion := Arrived(ARRIVAL))

  /** The operator stops the scan. */
  function Halt(now: nat): Inputs
    requires now <= LAST
  {
    Iteration(now, POOL_FREE, [], None, false).(stop := true)
  }

  /** In the next iteration a new test is armed and started. */
  function Restart(now: nat): Inputs
    requires now <= LAST
  {
    Iteration(now, POOL_FREE, [Start(now, true, MAX_TX_US)], None, false)
  }

  /** What a successful stop at `now` leaves of a scan that is moving or settling. */
  function StoppedAt(s: State, now: nat): State
    requires now <= LAST
  {
    s.(cycle := s.cycle.(state := Stopped, stopping := true, since := now), motion := AfterHalt(s.motion, now),
       stops := s.stops + [StopCall(true, true, true)], tx := s.tx.(completed := false, aborted := true))
  }

  /** The same after the poll of that iteration. */
  function HaltedAt(s: State, now: nat): State
    requires now <= LAST
  {
    var t := StoppedAt(s, now);
    t.(cycle := t.cycle.(lastPoll := now))
  }

  function Approach(): seq<Inputs> {
    [StartIteration(),
     Iteration(EXPOSURE_END, POOL_FILLING, [], DONE_EVENT, false).(donePoll := Read(ENDED, EXPOSURE_END)),
     Iteration(MOVE_AT, POOL_FREE, [], None, false)]
  }

  function Arrival(): Inputs {
    var e := Iteration(ARRIVAL, POOL_FREE, [], None, false);
    e.(poll := e.poll.(motorDone := true))
  }

  lemma ExposureCompletes(e: Inputs)
    requires Invariant(ACQUIRING) && Admissible(ACQUIRING, e) && e == Approach()[1]
    ensures Next(ACQUIRING, e) == EXPOSED
  {
    hide Invariant, Admissible, Commands, PollWait, PollPreMove, PollMoving, Fail, StopCycle;
    NoCommands(ACQUIRING, e);
    assert POOL_FILLING[0 := FramePool.Ready] == POOL_READY;
  }

  lemma MoveStarts(e: Inputs)
    requires Invariant(EXPOSED) && Admissible(EXPOSED, e) && e == Approach()[2]
    ensures Next(EXPOSED, e) == UNDER_WAY
  {
    hide Invariant, Admissible, Commands, Observed, Polled, Slots, PollWait, PollAcquire, PollMoving, Fail, StopCycle;
    NoCommands(EXPOSED, e);
    QuietPoll(EXPOSED, e, EXPOSED.(slots := e.sender));
  }

  lemma MotorArrives(e: Inputs)
    requires Invariant(UNDER_WAY) && Admissible(UNDER_WAY, e) && e == Arrival()
    ensures Next(UNDER_WAY, e) == ARRIVED
  {
    hide Invariant, Admissible, Commands, Observed, Polled, Slots, PollWait, PollAcquire, PollPreMove, Fail, StopCycle;
    NoCommands(UNDER_WAY, e);
    QuietPoll(UNDER_WAY, e, UNDER_WAY.(slots := e.sender));
  }

  /** In mid-move, or when the move has been seen to end. */
  predicate Stoppable(s: State, now: nat) {
    (s == UNDER_WAY && now == HALT_AT) || (s == ARRIVED && now == ARRIVAL)
  }

  lemma ScanHalts(s: State, e: Inputs, now: nat)
    requires Stoppable(s, now) && Invariant(s) && Admissible(s, e) && e == Halt(now)
    ensures Next(s, e) == HaltedAt(s, now)
  {
    hide Invariant, Admissible, Slots, Commands, Observed, Polled, PollWait, PollAcquire;
    hide PollPreMove, PollMoving, PollSettling, Fail, StopCycle;
    HaltIsEntered(s, e, now);
    QuietPoll(s, e, StoppedAt(s, now));
  }

  lemma HaltIsEntered(s: State, e: Inputs, now: nat)
    requires Stoppable(s, now) && e == Halt(now)
    ensures KeysFit(e.keys) && Commands(s, e) == StoppedAt(s, now)
  {
    hide Slots, StopCycle, PollAll, PressAll;
    NothingToDrain(s, now);
    var a := Arrivals(s, e).(stopRequested := false);
    assert a == s;
    StopsAtRest(s, now);
    var t := StoppedAt(s, now);
    assert PressAll(t, [], false) == t by {
      NothingPressed(t);
    }
    assert PollAll(t.tx, []) == t.tx by {
      NothingPolled(t.tx);
    }
  }

  lemma NothingToDrain(s: State, now: nat)
    requires s.tx == UNDER_WAY.tx && now <= LAST
    ensures Stops(s, StopIo(true, true, AbortAt(QUIET, now)))
    ensures TxControl.Abort(s.tx, AbortAt(QUIET, now)) == s.tx.(completed := false, aborted := true)
  {
  }

  lemma StopsAtRest(s: State, now: nat)
    requires now <= LAST && (s.cycle.state == Moving || s.cycle.state == Settling) && !s.armed
    requires Stops(s, StopIo(true, true, AbortAt(QUIET, now)))
    requires TxControl.Abort(s.tx, AbortAt(QUIET, now)) == s.tx.(completed := false, aborted := true)
    ensures StopCycle(s, now, StopIo(true, true, AbortAt(QUIET, now))) == StoppedAt(s, now)
  {
    hide TxControl.Abort, TxControl.Aborts;
  }

  /** From a stopped scan a start captures at once. */
  lemma RestartCaptures(s: State, r: State, e: Inputs, now: nat)
    requires Stoppable(s, now) && r == HaltedAt(s, now)
    requires Invariant(r) && Admissible(r, e) && e == Restart(now + PASS)
    ensures Next(r, e).pings == s.pings + [Ping(2, now + PASS, 0, r.motion, r.motion, now + PASS)]
  {
    hide Invariant, Admissible, Slots, Commands, Observed, Polled, PollWait;
    hide PollAcquire, PollPreMove, PollMoving, PollSettling, StopCycle, Fail;
    RestartIsEntered(s, r, e, now);
    var c := Commands(r, e);
    QuietPoll(r, e, c);
    TriggersAtOnce(c.(cycle := c.cycle.(lastPoll := now + PASS)), now + PASS);
  }

  /** With a free slot and an idle transmitter, a scan that waits for a buffer captures. */
  lemma TriggersAtOnce(p: State, now: nat)
    requires now <= LAST && p.slots == POOL_FREE && p.cycle.state == WaitBuffer && p.cycle.count == 1
    requires TxControl.CanPrepare(p.tx) && !p.stopRequested && !p.inhibited
    ensures var t := PollWait(p, Restart(now).poll);
      && t.cycle.state == Acquire
      && t.pings == p.pings + [Ping(2, now, |p.run.legs|, p.motion, p.run.begins, p.run.started)]
  {
    hide Slots, Fail;
    FirstSlot();
  }

  lemma OneKey(s: State, keys: seq<Key>, fatal: bool)
    requires |keys| == 1 && KeysFit(keys)
    ensures PressAll(s, keys, fatal) == Press(s, keys[0], fatal)
  {
    hide Press;
    assert keys[1..] == [];
  }

  lemma RestartIsEntered(s: State, r: State, e: Inputs, now: nat)
    requires Stoppable(s, now) && r == HaltedAt(s, now) && e == Restart(now + PASS)
    ensures KeysFit(e.keys)
    ensures var start := now + PASS;
      Commands(r, e) ==
            r.(scan := Scan(1, 1, 0), run := Run(1, 1, 2, r.motion, start, [], Nothing),
               cycle := r.cycle.(state := WaitBuffer, since := start, lastPoll := start, stopping := false,
                                 received := false, transmitted := false),
               starts := Starts(2, [BeginWith(1), BeginWith(2)]))
  {
    hide Slots, PollAll, PressAll;
    NothingPolled(r.tx);
    OneKey(r.(armed := true, starts := Starts(2, [BeginWith(1)])), e.keys, false);
  }

  lemma RestartRuns(s: State, now: nat) returns (t: State)
    requires Stoppable(s, now) && Invariant(s)
    ensures RunsTo(s, [Halt(now), Restart(now + PASS)], t)
    ensures var m := AfterHalt(s.motion, now); t.pings == s.pings + [Ping(2, now + PASS, 0, m, m, now + PASS)]
  {
    hide Next, Invariant;
    var es := [Halt(now), Restart(now + PASS)];
    var r := HaltedAt(s, now);
    ScanHalts(s, es[0], now);
    t := Next(r, es[1]);
    RestartCaptures(s, r, es[1], now);
    assert es[1..] == [es[1]] && es[1..][1..] == [];
    assert RunsTo(t, [], t);
    assert RunsTo(r, es[1..], t);
  }

  /** A scan stopped in mid-move and started again: its first capture comes one pass after the motor was halted. */
  function HaltedRun(): seq<Inputs> {
    Approach() + [Halt(HALT_AT), Restart(HALT_AT + PASS)]
  }

  lemma HaltedRunIsTimed()
    ensures |HaltedRun()| == 5 && HaltedRun()[..3] == Approach() && HaltedRun()[3].sender == POOL_FREE
    ensures HaltedRun()[3..] == [Halt(HALT_AT), Restart(HALT_AT + PASS)]
    ensures ClockRuns(HaltedRun())
  {
    hide Slots;
  }

  lemma CaptureRightAfterHalt() returns (t: State)
    ensures Initial(READY_BOARD) && Invariant(READY_BOARD)
    ensures RunsTo(READY_BOARD, HaltedRun(), t) && ClockRuns(HaltedRun())
    ensures |t.pings| == 2 && t.pings[1].motion == Halted(HALT_AT) && t.pings[1].trigger == HALT_AT + PASS
    ensures !Settled(t.pings[1])
  {
    hide Next, Invariant;
    InitialInvariant(READY_BOARD);
    HaltedRunIsTimed();
    var es := HaltedRun();
    hide HaltedRun, ClockRuns, Approach, Iteration;
    ApproachMoves(es);
    t := RestartRuns(UNDER_WAY, HALT_AT);
    FromApproach(es, t);
  }

  /** A scan stopped when its move has just ended, and started again. */
  function UnsettledRun(): seq<Inputs> {
    Approach() + [Arrival(), Halt(ARRIVAL), Restart(ARRIVAL + PASS)]
  }

  lemma UnsettledRunIsTimed()
    ensures ClockRuns(UnsettledRun())
  {
    hide Slots;
  }

  lemma UnsettledRunParts()
    ensures |UnsettledRun()| == 6 && UnsettledRun()[..3] == Approach() && UnsettledRun()[3] == Arrival()
    ensures UnsettledRun()[3].sender == POOL_FREE
    ensures UnsettledRun()[3..][1..] == [Halt(ARRIVAL), Restart(ARRIVAL + PASS)]
  {
    hide Slots;
  }

  /** Its first capture comes one pass after the arrival. */
  lemma CaptureWithoutSettling() returns (t: State)
    ensures Initial(READY_BOARD) && Invariant(READY_BOARD)
    ensures RunsTo(READY_BOARD, UnsettledRun(), t) && ClockRuns(UnsettledRun())
    ensures |t.pings| == 2 && t.pings[1].motion == Arrived(ARRIVAL) && t.pings[1].trigger == ARRIVAL + PASS
    ensures !Settled(t.pings[1])
  {
    hide Next, Invariant;
    InitialInvariant(READY_BOARD);
    UnsettledRunIsTimed();
    UnsettledRunParts();
    var es := UnsettledRun();
    ApproachMoves(es);
    MotorArrives(es[3]);
    hide UnsettledRun, ClockRuns, Approach, Iteration;
    t := RestartRuns(ARRIVED, ARRIVAL);
    assert es[3..][0] == es[3];
    assert RunsTo(UNDER_WAY, es[3..], t);
    FromApproach(es, t);
  }

  lemma ApproachMoves(es: seq<Inputs>)
    requires Invariant(READY_BOARD) && |es| > 3 && es[..3] == Approach() && es[3].sender == POOL_FREE
    ensures Invariant(ACQUIRING) && Invariant(EXPOSED) && Invariant(UNDER_WAY)
    ensures Admissible(READY_BOARD, es[0]) && Next(READY_BOARD, es[0]) == ACQUIRING
    ensures Admissible(ACQUIRING, es[1]) && Next(ACQUIRING, es[1]) == EXPOSED
    ensures Admissible(EXPOSED, es[2]) && Next(EXPOSED, es[2]) == UNDER_WAY
  {
    hide Next, Invariant;
    assert es[0] == Approach()[0] && es[1] == Approach()[1] && es[2] == Approach()[2];
    CaptureStarts(es[0]);
    ExposureCompletes(es[1]);
    MoveStarts(es[2]);
  }

  lemma FromApproach(es: seq<Inputs>, t: State)
    requires Invariant(READY_BOARD) && |es| > 3 && es[..3] == Approach() && es[3].sender == POOL_FREE
    requires Invariant(UNDER_WAY) && RunsTo(UNDER_WAY, es[3..], t)
    ensures RunsTo(READY_BOARD, es, t)
  {
    hide Next, Invariant;
    ApproachMoves(es);
    assert es[1..][1..] == es[2..] && es[2..][1..] == es[3..];
    assert RunsTo(EXPOSED, es[2..], t);
    assert RunsTo(ACQUIRING, es[1..], t);
  }
}
