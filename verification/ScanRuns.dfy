/** Whole runs of the experiment task: what a scan, a stop and a fault guarantee. */
module ScanRuns {
  import opened MachineIntegers
  import opened Scan360
  import opened ScanSequencer
  import opened ScanSafety
  import FramePool
  import TxControl
  import Microphone

  ghost predicate RunsTo(s: State, es: seq<Inputs>, t: State)
    requires Invariant(s)
    decreases |es|
  {
    if es == [] then s == t else Admissible(s, es[0]) && RunsTo(Next(s, es[0]), es[1..], t)
  }

  lemma {:induction false} RunKeepsInvariant(s: State, es: seq<Inputs>, t: State)
    requires Invariant(s) && RunsTo(s, es, t)
    ensures Invariant(t)
    decreases |es|
  {
    hide Invariant, Next;
    if es != [] {
      RunKeepsInvariant(Next(s, es[0]), es[1..], t);
    }
  }

  // Captures and moves

  function Captures(r: Run): nat {
    |r.legs| + if r.current == Nothing then 0 else 1
  }

  function Moves(r: Run): nat {
    |r.legs| + if r.current.Travelling? then 1 else 0
  }

  /** The sum of the first `k` finished moves. */
  function MoveSum(legs: seq<Leg>, k: nat): int
    requires k <= |legs|
  {
    if k == 0 then 0 else MoveSum(legs, k - 1) + legs[k - 1].delta
  }

  lemma {:induction false} MovesAreTravelled(r: Run, k: nat)
    requires Planned(r) && k <= |r.legs|
    ensures MoveSum(r.legs, k) == Travelled(Scan(r.positions, r.direction, 0), k)
  {
    hide NextDelta;
    if k > 0 {
      MovesAreTravelled(r, k - 1);
      assert LegSound(r, k - 1);
    }
  }

  /**
   Over every run: captures and moves alternate, neither exceeds the configured number, sequence numbers
   count captures, every move is the planned one and waits for its exposure and the trigger offset, and
   every later capture waits for the motor to settle; the position under way included, whether or not it will
   ever be finished.
   */
  lemma EveryScanFollowsItsPlan(s: State, es: seq<Inputs>, t: State)
    requires Initial(s) && Invariant(s) && RunsTo(s, es, t)
    ensures Moves(t.run) <= Captures(t.run) <= Moves(t.run) + 1
    ensures Captures(t.run) <= t.run.positions
    ensures forall k :: 0 <= k < |t.run.legs| ==> OnTime(t.run, k)
    ensures CurrentSound(t.run)
    ensures MoveSum(t.run.legs, |t.run.legs|) == Travelled(Scan(t.run.positions, t.run.direction, 0), |t.run.legs|)
  {
    hide Next, NextDelta, Travelled;
    RunKeepsInvariant(s, es, t);
    MovesAreTravelled(t.run, |t.run.legs|);
    forall k | 0 <= k < |t.run.legs| ensures OnTime(t.run, k) {
      LegOnTime(t.run, k);
    }
  }

  /** What a reader of a finished position may rely on. */
  predicate OnTime(r: Run, k: nat)
    requires k < |r.legs|
  {
    && r.legs[k].sequence == r.first + k
    && r.legs[k].delta == DeltaAt(r, k)
    && r.legs[k].trigger <= r.legs[k].complete <= r.legs[k].moved <= r.legs[k].arrived
    && r.legs[k].trigger + MOTOR_START_US <= r.legs[k].moved
    && (k > 0 ==> r.legs[k - 1].arrived + SETTLE_US <= r.legs[k].trigger)
  }

  lemma LegOnTime(r: Run, k: nat)
    requires Planned(r) && k < |r.legs|
    ensures OnTime(r, k)
  {
    hide NextDelta;
    assert LegSound(r, k);
  }

  /** The iteration in which an undisturbed scan stops: all captures and moves are done and make one revolution. */
  lemma FinishedScanIsOneRevolution(s: State, e: Inputs)
    requires Invariant(s) && Admissible(s, e)
    requires Flying(s) && !s.cycle.stopping && !s.stopRequested && !e.stop && !e.inhibit
    requires Next(s, e).cycle.state == Stopped
    ensures var r := Next(s, e).run;
      && Captures(r) == Moves(r) == |r.legs| == s.scan.positions
      && MoveSum(r.legs, |r.legs|) == s.scan.direction * REVOLUTION_STEPS
    ensures Rested(Next(s, e).motion, e.poll.now)
  {
    hide Invariant, Deliver, Observed, Pending, Polled, StopCycle, ReportFault, NextDelta, Travelled;
    FlyingFollows(s);
    ObservedListens(s, e);
    UndisturbedCommands(s, e);
    var c := Observed(s, e);
    PendingShape(c, false);
    PolledStopsOnly(s, e);
    AfterKeepsRun(c.cycle.state, Polled(s, e), e);
    assert c.cycle.state == Settling && Complete(c.scan) && Next(s, e).run == c.run;
    CompleteRun(c);
  }

  /** What follows a poll stops the cycle, if at all, only at the end of a scan, and leaves its history. */
  lemma AfterKeepsRun(before: CycleState, s: State, e: Inputs)
    ensures var t := ReportFault(AfterPoll(before, s, e), e.cancelReset);
      && t.run == s.run && (s.motion != Underway ==> t.motion == s.motion)
      && (t.cycle.state == Stopped && s.cycle.state != Stopped ==>
           before == Settling && s.cycle.state == WaitBuffer && Complete(s.scan))
  {
    hide StopCycle, Microphone.Cancel;
    StopKeepsRun(s, e.endNow, e.endIo);
    StopKeepsRun(s.(inhibited := true, stopRequested := true), e.endNow, e.endIo);
  }

  lemma StopKeepsRun(s: State, now: uint64, io: StopIo)
    ensures StopCycle(s, now, io).run == s.run
    ensures s.motion != Underway ==> StopCycle(s, now, io).motion == s.motion
  {
    hide TxControl.Abort, TxControl.Aborts;
  }

  lemma FlyingFollows(s: State)
    requires Invariant(s) && Flying(s)
    ensures Follows(s)
  {
  }

  /** What neither a capture attempt nor a poll of the cycle touches. */
  predicate SameHistory(s: State, t: State) {
    t.published == s.published && t.faultReported == s.faultReported
  }

  /** What a capture attempt leaves to its caller. */
  predicate CaptureFrame(s: State, t: State) {
    && SameHistory(s, t) && t.cycle == s.cycle && t.run == s.run && t.scan == s.scan
    && t.stops == s.stops && t.motion == s.motion && t.starts == s.starts
    && t.requested == s.requested && t.prompt == s.prompt
  }

  lemma LaunchKeepsCycle(s: State, io: CaptureIo)
    requires 0 <= s.filling < |s.slots|
    ensures CaptureFrame(s, Launch(s, io).state)
  {
    hide TxControl.Abort, TxControl.Aborts, TxControl.Triggered, Microphone.Start, Microphone.Starts;
  }

  lemma CaptureKeepsCycle(s: State, io: CaptureIo)
    ensures CaptureFrame(s, Capture(s, io).state)
  {
    hide TxControl.Prepare, TxControl.Prepares, Launch;
    var slot := FirstFree(s.slots);
    if slot >= 0 {
      var a := s.(filling := slot, slots := s.slots[slot := FramePool.Filling],
                  tx := TxControl.Prepare(s.tx, io.prepare, io.low, io.status),
                  stopRequested := s.stopRequested || io.stop || io.inhibit, inhibited := s.inhibited || io.inhibit);
      LaunchKeepsCycle(a, io);
    }
  }

  /** A poll alone stops the cycle only by draining a capture whose scan is being stopped. */
  lemma PollStopsOnly(s: State, io: PollIo, captured: bool, transmitted: bool, fault: bool)
    ensures var t := CyclePoll(s, io, captured, transmitted, fault);
      t.cycle.state == Stopped ==> s.cycle.state == Stopped || (s.cycle.state == Acquire && s.cycle.stopping)
  {
    hide PollWait, PollAcquire, PollPreMove, PollMoving, TxControl.Elapsed;
    FailFaults(s, io.fail);
    var u := s.(cycle := s.cycle.(lastPoll := io.now));
    FailFaults(u, io.fail);
    hide Fail;
    match s.cycle.state {
      case WaitBuffer => WaitStops(u, io);
      case Acquire => AcquireStops(u, io, captured, transmitted);
      case PreMove => MoveStops(u, io);
      case Moving => MotionStops(u, io);
      case _ =>
    }
  }

  /** A poll leaves SETTLING for the next capture only when the settling time has passed, and changes nothing else. */
  lemma PollSettlesOnly(s: State, io: PollIo, captured: bool, transmitted: bool, fault: bool)
    requires s.cycle.state == Settling
    ensures var t := CyclePoll(s, io, captured, transmitted, fault);
      t.cycle.state == WaitBuffer ==>
        && t.run == s.run && t.scan == s.scan && t.motion == s.motion
        && s.cycle.lastPoll <= io.now && TxControl.Elapsed(io.now, s.cycle.since) >= SETTLE_US
  {
    hide TxControl.Elapsed;
    FailFaults(s, io.fail);
    FailFaults(s.(cycle := s.cycle.(lastPoll := io.now)), io.fail);
    hide Fail;
  }

  lemma FailFaults(s: State, io: StopIo)
    ensures Fail(s, io).cycle.state == Fault
  {
    hide TxControl.Abort;
  }

  lemma AcquireStops(s: State, io: PollIo, captured: bool, transmitted: bool)
    requires s.cycle.state == Acquire
    ensures PollAcquire(s, io, captured, transmitted).cycle.state == Stopped ==> s.cycle.stopping
  {
    hide TxControl.Abort, TxControl.Elapsed;
  }

  lemma MoveStops(s: State, io: PollIo)
    requires s.cycle.state == PreMove
    ensures PollPreMove(s, io).cycle.state == Moving || PollPreMove(s, io).cycle.state == PreMove
            || PollPreMove(s, io).cycle.state == Fault
  {
    hide TxControl.Abort, TxControl.Elapsed, NextDelta;
  }

  lemma MotionStops(s: State, io: PollIo)
    requires s.cycle.state == Moving
    ensures PollMoving(s, io).cycle.state == Moving || PollMoving(s, io).cycle.state == Settling
            || PollMoving(s, io).cycle.state == Fault
  {
    hide TxControl.Abort, TxControl.Elapsed;
  }

  lemma DeliverKeepsMotion(s: State)
    requires s.filling < |s.slots|
    ensures Deliver(s).motion == s.motion && Deliver(s).stops == s.stops
  {
  }

  lemma PolledStopsOnly(s: State, e: Inputs)
    requires KeysFit(e.keys) && Observed(s, e).filling < |Observed(s, e).slots|
    ensures var c, t := Observed(s, e), Polled(s, e);
      && (t.cycle.state == Stopped ==> c.cycle.state == Stopped || (c.cycle.state == Acquire && c.cycle.stopping))
      && (c.cycle.state == Settling && t.cycle.state == WaitBuffer ==>
           && t.run == c.run && t.scan == c.scan && t.motion == c.motion
           && c.cycle.lastPoll <= e.poll.now && TxControl.Elapsed(e.poll.now, c.cycle.since) >= SETTLE_US)
  {
    hide Observed, Deliver, CyclePoll, Listen, Commands, TxFault, Publishes, Arrivals, TxControl.Done;
    var c := Observed(s, e);
    DeliverTrigger(c);
    DeliverKeepsMotion(c);
    var d := Deliver(c);
    var fatal := Arrivals(s, e).inhibited || (Delivers(c) && !c.cycle.stopping && !Publishes(c));
    var fault := fatal || TxFault(Listen(Commands(s, e), e.mic), e) || e.motorFault || d.mic.state == Microphone.Fault;
    PollStopsOnly(d, e.poll, Delivers(c), TxControl.Done(c.tx), fault);
    if c.cycle.state == Settling {
      PollSettlesOnly(d, e.poll, Delivers(c), TxControl.Done(c.tx), fault);
    }
  }

  lemma WaitStops(s: State, io: PollIo)
    ensures var t := PollWait(s, io);
      t.cycle.state == Fault || t.cycle.state == Acquire || t.cycle.state == s.cycle.state
  {
    hide TxControl.Abort, Capture;
    CaptureKeepsCycle(s, io.capture);
  }

  lemma CompleteRun(c: State)
    requires Pending(c, false) && c.cycle.state == Settling && Complete(c.scan)
    ensures c.run.current == Nothing && |c.run.legs| == c.scan.positions
    ensures MoveSum(c.run.legs, |c.run.legs|) == c.scan.direction * REVOLUTION_STEPS
    ensures c.motion == Arrived(c.cycle.since) && c.cycle.since <= c.cycle.lastPoll
  {
    hide NextDelta, Travelled, TxControl.Sound, Microphone.Sound;
    MovesAreTravelled(c.run, |c.run.legs|);
    ScanIsOneRevolution(c.scan.(started := 0), c.scan.positions);
  }

  /** In flight, with no stop pending, commands and keys change nothing about the scan. */
  lemma UndisturbedCommands(s: State, e: Inputs)
    requires Flying(s) && KeysFit(e.keys) && !s.stopRequested && !e.stop && !e.inhibit && s.prompt == NoPrompt
    ensures Observed(s, e).cycle == s.cycle && Observed(s, e).scan == s.scan && Observed(s, e).run == s.run
  {
    hide TxControl.Poll, PollAll, Press;
    var a := Arrivals(s, e);
    FlyingIgnoresKeys(Control(a, e, false), e.keys, a.inhibited);
  }

  lemma {:induction false} FlyingIgnoresKeys(s: State, keys: seq<Key>, fatal: bool)
    requires Flying(s) && KeysFit(keys) && s.prompt == NoPrompt
    ensures PressAll(s, keys, fatal) == s
    decreases |keys|
  {
    if keys != [] {
      FlyingIgnoresKeys(s, keys[1..], fatal);
    }
  }

  // Stop and fault

  predicate Ended(s: State) {
    s.cycle.stopping || s.cycle.state == Fault
  }

  predicate NoStart(e: Inputs) {
    forall k :: 0 <= k < |e.keys| ==> !e.keys[k].Start?
  }

  lemma PollKeepsEnded(s: State, io: PollIo, captured: bool, transmitted: bool, fault: bool)
    requires Ended(s) && (Flying(s) && s.cycle.stopping ==> s.cycle.state == Acquire)
    ensures var t := CyclePoll(s, io, captured, transmitted, fault);
      Ended(t) && t.run == s.run && t.scan == s.scan && (s.cycle.state == Fault ==> t == s)
  {
    hide TxControl.Elapsed, Fail, PollWait, PollAcquire, PollPreMove, PollMoving, PollSettling;
    var u := s.(cycle := s.cycle.(lastPoll := io.now));
    FailEnds(s, io.fail);
    FailEnds(u, io.fail);
    if s.cycle.state == Acquire {
      StoppingAcquireEnds(u, io, captured, transmitted);
    }
  }

  lemma FailEnds(s: State, io: StopIo)
    ensures Fail(s, io).cycle.state == Fault && Fail(s, io).run == s.run && Fail(s, io).scan == s.scan
  {
    hide TxControl.Abort, TxControl.Aborts;
  }

  lemma StoppingAcquireEnds(s: State, io: PollIo, captured: bool, transmitted: bool)
    requires s.cycle.stopping
    ensures var t := PollAcquire(s, io, captured, transmitted); Ended(t) && t.run == s.run && t.scan == s.scan
  {
    hide Fail, TxControl.Elapsed;
    var c := s.cycle.(received := s.cycle.received || captured, transmitted := s.cycle.transmitted || transmitted);
    FailEnds(s.(cycle := c), io.fail);
  }

  /** Once a stop has been handled, or after a fault, an iteration without a new start captures and moves nothing. */
  lemma EndedStaysEnded(s: State, e: Inputs)
    requires Invariant(s) && Admissible(s, e)
    requires (NoStart(e) && (Ended(s) || s.stopRequested || e.stop)) || s.cycle.state == Fault
    ensures Ended(Next(s, e)) && Next(s, e).run == s.run
    ensures s.cycle.state == Fault ==> Next(s, e).cycle.state == Fault
  {
    hide Invariant, Body, Commands;
    CommandsKeep(s, e);
    CommandsFollow(s, e);
    BodyKeepsEnded(s, e);
  }

  lemma BodyKeepsEnded(s: State, e: Inputs)
    requires Invariant(s) && Admissible(s, e) && Ended(Commands(s, e))
    requires Flying(Commands(s, e)) ==> Follows(Commands(s, e))
    ensures Ended(Next(s, e)) && Next(s, e).run == Commands(s, e).run
    ensures Commands(s, e).cycle.state == Fault ==> Next(s, e).cycle.state == Fault
  {
    hide Invariant, Commands, Polled, StopCycle, TxControl.Poll, Listen;
    PolledKeepsEnded(s, e);
    ListenKeepsCycle(Commands(s, e), e.mic);
  }

  lemma PolledKeepsEnded(s: State, e: Inputs)
    requires Invariant(s) && Admissible(s, e) && Ended(Commands(s, e))
    requires Flying(Commands(s, e)) ==> Follows(Commands(s, e))
    ensures Observed(s, e).filling < |Observed(s, e).slots|
    ensures Ended(Polled(s, e)) && Polled(s, e).run == Commands(s, e).run
    ensures Commands(s, e).cycle.state == Fault ==> Polled(s, e).cycle.state == Fault
  {
    hide Invariant, Pending, Deliver, CyclePoll, Listen, Commands, TxFault;
    hide Delivers, Publishes, Arrivals, TxControl.Done, TxControl.Poll;
    ObservedListens(s, e);
    ListenKeepsCycle(Commands(s, e), e.mic);
    var c := Observed(s, e);
    PendingShape(c, false);
    DeliverTrigger(c);
    var d := Deliver(c);
    var fatal := Arrivals(s, e).inhibited || (Delivers(c) && !c.cycle.stopping && !Publishes(c));
    var fault := fatal || TxFault(Listen(Commands(s, e), e.mic), e) || e.motorFault || d.mic.state == Microphone.Fault;
    PollKeepsEnded(d, e.poll, Delivers(c), TxControl.Done(c.tx), fault);
  }

  lemma CommandsFollow(s: State, e: Inputs)
    requires Invariant(s) && Admissible(s, e)
    ensures KeysFit(e.keys)
    ensures Flying(Commands(s, e)) ==> Follows(Commands(s, e))
    ensures s.cycle.state == Fault ==> Commands(s, e).run == s.run
  {
    hide Planned, Stage, TxControl.Sound, Microphone.Sound, Commands;
    CommandsKeep(s, e);
    if s.cycle.state == Fault {
      FaultIgnoresCommands(s, e);
    }
  }

  lemma FaultIgnoresCommands(s: State, e: Inputs)
    requires s.cycle.state == Fault && KeysFit(e.keys)
    ensures Commands(s, e).run == s.run && Commands(s, e).cycle.state == Fault
  {
    hide Press, PollAll, TxControl.Abort, TxControl.Aborts;
    var b := HandleStop(Arrivals(s, e), e);
    FaultIgnoresKeys(Control(b, e, false), e.keys, Arrivals(s, e).inhibited);
  }

  lemma {:induction false} FaultIgnoresKeys(s: State, keys: seq<Key>, fatal: bool)
    requires s.cycle.state == Fault && KeysFit(keys)
    ensures PressAll(s, keys, fatal).run == s.run && PressAll(s, keys, fatal).cycle == s.cycle
    decreases |keys|
  {
    if keys != [] {
      FaultIgnoresKeys(Press(s, keys[0], fatal), keys[1..], fatal);
    }
  }

  /** After a stop there is no capture and no move until the next start, however long the run. */
  lemma {:induction false} NothingMovesAfterStop(s: State, es: seq<Inputs>, t: State)
    requires Invariant(s) && RunsTo(s, es, t) && Ended(s)
    requires forall i :: 0 <= i < |es| ==> NoStart(es[i])
    ensures Ended(t) && t.run == s.run
    decreases |es|
  {
    hide Invariant, Next, NoStart, Ended;
    if es != [] {
      assert NoStart(es[0]);
      EndedStaysEnded(s, es[0]);
      NothingMovesAfterStop(Next(s, es[0]), es[1..], t);
    }
  }

  /**
   FAULT is never left, not by commands, keys or time: no capture and no move is added, the calls that stopped the
   outputs stay on record, and nothing is prepared for the speaker.
   */
  lemma {:induction false} FaultIsForEver(s: State, es: seq<Inputs>, t: State)
    requires Invariant(s) && RunsTo(s, es, t) && s.cycle.state == Fault
    ensures t.cycle.state == Fault && t.run == s.run && Quiet(t.tx)
    ensures 0 < |s.stops| <= |t.stops| && t.stops[..|s.stops|] == s.stops
    decreases |es|
  {
    hide Invariant, Next, Quiet;
    if es == [] {
      FaultIsQuiet(s);
    } else {
      var m := Next(s, es[0]);
      EndedStaysEnded(s, es[0]);
      FaultIsEnteredByStopping(s, es[0]);
      FaultIsForEver(m, es[1..], t);
      assert t.stops[..|s.stops|] == t.stops[..|m.stops|][..|s.stops|];
      FaultIsQuiet(s);
    }
  }

  lemma FaultIsQuiet(s: State)
    requires Invariant(s) && s.cycle.state == Fault
    ensures Quiet(s.tx) && |s.stops| > 0
  {
  }

  // Deadlines

  lemma PollMeetsDeadlines(s: State, io: PollIo, captured: bool, transmitted: bool, fault: bool)
    requires (captured ==> transmitted) && s.cycle.trigger <= io.now
    requires s.cycle.state == Acquire ==> !s.cycle.received
    requires s.cycle.state == Moving ==> s.cycle.since <= s.cycle.lastPoll
    ensures var t := CyclePoll(s, io, captured, transmitted, fault);
      && (s.cycle.state == t.cycle.state == Acquire ==>
           && io.now - s.cycle.trigger < CAPTURE_TIMEOUT_US
           && (t.cycle.transmitted || io.now - s.cycle.trigger < s.cycle.txTimeout))
      && (s.cycle.state == t.cycle.state == Moving ==> io.now - s.cycle.since < MOTION_TIMEOUT_US)
  {
    hide TxControl.Elapsed, Fail, PollWait, PollAcquire, PollPreMove, PollMoving, PollSettling;
    var u := s.(cycle := s.cycle.(lastPoll := io.now));
    FailFaults(s, io.fail);
    FailFaults(u, io.fail);
    if s.cycle.state == Acquire {
      AcquireMeetsDeadlines(u, io, captured, transmitted);
    } else if s.cycle.state == Moving && s.cycle.lastPoll <= io.now {
      MoveMeetsDeadline(u, io);
    }
  }

  lemma AcquireMeetsDeadlines(s: State, io: PollIo, captured: bool, transmitted: bool)
    requires s.cycle.state == Acquire && !s.cycle.received && (captured ==> transmitted) && s.cycle.trigger <= io.now
    ensures var t := PollAcquire(s, io, captured, transmitted);
      t.cycle.state == Acquire ==>
        && io.now - s.cycle.trigger < CAPTURE_TIMEOUT_US
        && (t.cycle.transmitted || io.now - s.cycle.trigger < s.cycle.txTimeout)
  {
    hide Fail;
    var c := s.cycle.(received := captured, transmitted := s.cycle.transmitted || transmitted);
    FailFaults(s.(cycle := c), io.fail);
  }

  lemma MoveMeetsDeadline(s: State, io: PollIo)
    requires s.cycle.state == Moving && s.cycle.since <= io.now
    ensures PollMoving(s, io).cycle.state == Moving ==> io.now - s.cycle.since < MOTION_TIMEOUT_US
  {
    hide Fail;
    FailFaults(s, io.fail);
  }

  lemma PendingClock(s: State, captured: bool)
    requires Pending(s, captured)
    ensures s.cycle.state == Acquire ==> !s.cycle.received
    ensures s.cycle.state == Moving ==> s.cycle.since <= s.cycle.lastPoll
  {
    hide Planned, TxControl.Sound, Microphone.Sound;
  }

  /** A poll at or after its deadline does not leave a capture, a transmission or a move waiting. */
  lemma NothingOutlivesItsDeadline(s: State, e: Inputs)
    requires Invariant(s) && Admissible(s, e)
    ensures var c, t := Observed(s, e).cycle, Next(s, e).cycle;
      && (c.state == t.state == Acquire ==>
           && e.poll.now - c.trigger < CAPTURE_TIMEOUT_US
           && (t.transmitted || e.poll.now - c.trigger < c.txTimeout))
      && (c.state == t.state == Moving ==> e.poll.now - c.since < MOTION_TIMEOUT_US)
  {
    hide Invariant, Pending, Observed, Polled, Deliver, StopCycle;
    ObservedListens(s, e);
    ObservedTrigger(s, e);
    var c := Observed(s, e);
    PendingShape(c, false);
    DeliverReaches(c);
    DeliverTrigger(c);
    PolledMeetsDeadlines(s, e);
    assert c.cycle.state == Acquire || c.cycle.state == Moving ==> Next(s, e).cycle == Polled(s, e).cycle;
  }

  lemma PolledMeetsDeadlines(s: State, e: Inputs)
    requires KeysFit(e.keys) && -1 <= Observed(s, e).filling < |Observed(s, e).slots|
    requires Pending(Deliver(Observed(s, e)), Delivers(Observed(s, e))) && Observed(s, e).cycle.trigger <= e.poll.now
    ensures var c, t := Observed(s, e).cycle, Polled(s, e).cycle;
      && (c.state == t.state == Acquire ==>
           && e.poll.now - c.trigger < CAPTURE_TIMEOUT_US
           && (t.transmitted || e.poll.now - c.trigger < c.txTimeout))
      && (c.state == t.state == Moving ==> e.poll.now - c.since < MOTION_TIMEOUT_US)
  {
    hide Observed, Pending, Deliver, CyclePoll, Listen, Commands, TxFault, Publishes, Arrivals, TxControl.Done;
    var c := Observed(s, e);
    DeliverTrigger(c);
    var d := Deliver(c);
    var fatal := Arrivals(s, e).inhibited || (Delivers(c) && !c.cycle.stopping && !Publishes(c));
    var fault := fatal || TxFault(Listen(Commands(s, e), e.mic), e) || e.motorFault || d.mic.state == Microphone.Fault;
    PendingClock(d, Delivers(c));
    PollMeetsDeadlines(d, e.poll, Delivers(c), TxControl.Done(c.tx), fault);
  }

  // Publication and buffer ownership

  /** At most one slot is being filled, the one `filling` names, and the DMA engine owns no other buffer. */
  lemma OneBufferIsFilled(s: State, i: nat)
    requires Invariant(s) && i < |s.slots|
    ensures s.slots[i] == FramePool.Filling <==> i == s.filling
    ensures s.filling >= 0 ==> s.cycle.state == Acquire || s.cycle.state == Fault
    ensures s.mic.dmaOwned && s.mic.buffer == i ==> s.slots[i] == FramePool.Filling
    ensures s.slots[i] != FramePool.Filling ==> !(s.mic.dmaOwned && s.mic.buffer == i)
  {
    hide Planned, TxControl.Sound;
  }

  lemma PollPublishesNothing(s: State, io: PollIo, captured: bool, transmitted: bool, fault: bool)
    ensures SameHistory(s, CyclePoll(s, io, captured, transmitted, fault))
  {
    hide TxControl.Elapsed, Fail, PollWait, PollAcquire, PollPreMove, PollMoving;
    var u := s.(cycle := s.cycle.(lastPoll := io.now));
    FailPublishesNothing(s, io.fail);
    FailPublishesNothing(u, io.fail);
    match s.cycle.state {
      case WaitBuffer => WaitPublishesNothing(u, io);
      case Acquire => AcquirePublishesNothing(u, io, captured, transmitted);
      case PreMove => MovePublishesNothing(u, io);
      case Moving => MovePublishesNothing(u, io);
      case _ =>
    }
  }

  lemma FailPublishesNothing(s: State, io: StopIo)
    ensures SameHistory(s, Fail(s, io))
  {
    hide TxControl.Abort, TxControl.Aborts;
  }

  lemma WaitPublishesNothing(s: State, io: PollIo)
    ensures SameHistory(s, PollWait(s, io))
  {
    hide Capture, Fail;
    CaptureKeepsCycle(s, io.capture);
    FailPublishesNothing(s, io.fail);
    FailPublishesNothing(Capture(s, io.capture).state, io.fail);
  }

  lemma AcquirePublishesNothing(s: State, io: PollIo, captured: bool, transmitted: bool)
    ensures SameHistory(s, PollAcquire(s, io, captured, transmitted))
  {
    hide Fail, TxControl.Elapsed;
    var c := s.cycle.(received := s.cycle.received || captured, transmitted := s.cycle.transmitted || transmitted);
    FailPublishesNothing(s.(cycle := c), io.fail);
  }

  lemma MovePublishesNothing(s: State, io: PollIo)
    ensures SameHistory(s, PollPreMove(s, io)) && SameHistory(s, PollMoving(s, io))
  {
    hide Fail, TxControl.Elapsed, NextDelta, CaptureIndex;
    FailPublishesNothing(s, io.fail);
  }

  lemma PolledPublishes(s: State, e: Inputs)
    requires KeysFit(e.keys) && -1 <= Observed(s, e).filling < |Observed(s, e).slots|
    ensures Polled(s, e).published == Deliver(Observed(s, e)).published
  {
    hide Observed, Deliver, CyclePoll, Listen, Commands, TxFault, Publishes, Arrivals, TxControl.Done;
    var c := Observed(s, e);
    var d := Deliver(c);
    var fatal := Arrivals(s, e).inhibited || (Delivers(c) && !c.cycle.stopping && !Publishes(c));
    var fault := fatal || TxFault(Listen(Commands(s, e), e.mic), e) || e.motorFault || d.mic.state == Microphone.Fault;
    PollPublishesNothing(d, e.poll, Delivers(c), TxControl.Done(c.tx), fault);
  }

  /** What is true of a capture at the moment it is published. */
  ghost predicate MayPublish(c: State) {
    && c.mic.state == Microphone.Ready && !c.mic.dmaOwned && c.mic.buffer == c.filling
    && !c.cycle.stopping && !c.tx.running
    && c.tx.ending.Some? && TxControl.Finished(c.tx.ending.value, c.tx.baseline)
    && (c.cycle.state == Acquire || c.cycle.state == Fault)
  }

  /**
   A capture is published only after the DMA engine gave its buffer back and the transmission it recorded
   ended by its own completion event. Its speaker had been muted by an abort exactly when the cycle was in FAULT.
   */
  lemma PublishedAfterTransmission(s: State, e: Inputs)
    requires Invariant(s) && Admissible(s, e)
    ensures var c, t := Observed(s, e), Next(s, e);
      || t.published == s.published
      || (MayPublish(c) && t.published == s.published + [Frame(c.cycle.count, c.cycle.state == Fault)])
  {
    hide Invariant, Pending, Observed, Polled, Deliver;
    ObservedListens(s, e);
    var c := Observed(s, e);
    PendingShape(c, false);
    PolledPublishes(s, e);
    AfterPublishesNothing(c.cycle.state, Polled(s, e), e);
    DeliverPublishes(c);
    ObservedPublishesNothing(s, e);
  }

  lemma AfterPublishesNothing(before: CycleState, s: State, e: Inputs)
    ensures ReportFault(AfterPoll(before, s, e), e.cancelReset).published == s.published
  {
    hide TxControl.Abort;
  }

  lemma ObservedPublishesNothing(s: State, e: Inputs)
    requires Invariant(s) && Admissible(s, e)
    ensures KeysFit(e.keys) && Observed(s, e).published == s.published
  {
    hide Invariant, Commands, TxControl.Poll, Microphone.OnEvent, Microphone.Poll;
    CommandsKeep(s, e);
  }

  lemma DeliverPublishes(c: State)
    requires Pending(c, false)
    ensures Deliver(c).published == c.published
            || (MayPublish(c) && Deliver(c).published == c.published + [Frame(c.cycle.count, c.cycle.state == Fault)])
  {
    hide Planned;
  }

  // Settling across scans

  /** The motor had been at rest for the settling time when the capture was triggered. */
  predicate Settled(p: Ping) {
    Rested(p.motion, p.trigger)
  }

  /**
   Over every run, captures of all scans: a later capture of a scan is always settled. A scan never begins with a move
   under way, because a stop that ends one succeeds only with the motor at rest; its first capture is settled exactly
   when the settling time has passed between the last arrival or halt and the trigger, and surely if it had passed
   when the scan was started.
   */
  lemma EveryCaptureIsSettledExactly(s: State, es: seq<Inputs>, t: State)
    requires Initial(s) && Invariant(s) && RunsTo(s, es, t)
    ensures |t.pings| == t.cycle.count
    ensures forall i :: 0 <= i < |t.pings| ==> SettledExactly(t.pings[i])
  {
    hide Next;
    RunKeepsInvariant(s, es, t);
    forall i | 0 <= i < |t.pings| ensures SettledExactly(t.pings[i]) {
      assert PingSound(t.pings[i]);
    }
  }

  predicate SettledExactly(p: Ping) {
    && p.begins != Underway
    && (p.index > 0 ==> Settled(p))
    && (p.index == 0 ==>
         && (Settled(p) <==> p.begins == Still || p.begins.at + SETTLE_US <= p.trigger)
         && (p.begins == Still || p.begins.at + SETTLE_US <= p.started ==> Settled(p)))
  }

  // Entering FAULT and STOPPED

  /** Calls that stopped the outputs are only added, and entering FAULT adds one. */
  predicate StopsKept(s: State, t: State) {
    && |s.stops| <= |t.stops| && t.stops[..|s.stops|] == s.stops
    && (s.cycle.state != Fault && t.cycle.state == Fault ==> |s.stops| < |t.stops|)
  }

  lemma StopsCompose(s: State, m: State, t: State)
    requires StopsKept(s, m) && StopsKept(m, t)
    ensures StopsKept(s, t)
  {
    assert t.stops[..|s.stops|] == t.stops[..|m.stops|][..|s.stops|];
  }

  lemma FailStops(s: State, io: StopIo)
    ensures |Fail(s, io).stops| == |s.stops| + 1 && Fail(s, io).stops[..|s.stops|] == s.stops
  {
    hide TxControl.Abort, TxControl.Aborts;
  }

  lemma StopCycleStops(s: State, now: uint64, io: StopIo)
    ensures StopsKept(s, StopCycle(s, now, io))
  {
    hide TxControl.Abort, TxControl.Aborts;
  }

  lemma {:induction false} KeysStopNothing(s: State, keys: seq<Key>, fatal: bool)
    requires KeysFit(keys)
    ensures PressAll(s, keys, fatal).stops == s.stops
    ensures PressAll(s, keys, fatal).cycle.state == Fault <==> s.cycle.state == Fault
    decreases |keys|
  {
    hide Press;
    if keys != [] {
      KeyStopsNothing(s, keys[0], fatal);
      KeysStopNothing(Press(s, keys[0], fatal), keys[1..], fatal);
    }
  }

  lemma KeyStopsNothing(s: State, k: Key, fatal: bool)
    requires k.Start? ==> k.durationUs <= MAX_TX_US
    ensures Press(s, k, fatal).stops == s.stops
    ensures Press(s, k, fatal).cycle.state == Fault <==> s.cycle.state == Fault
  {
  }

  lemma CommandsKeepStops(s: State, e: Inputs)
    requires KeysFit(e.keys)
    ensures StopsKept(s, Commands(s, e))
  {
    hide StopCycle, PressAll, PollAll, Press;
    var a := Arrivals(s, e);
    StopCycleStops(a.(stopRequested := false), e.stopNow, e.stopIo);
    var b := HandleStop(a, e);
    KeysStopNothing(Control(b, e, !a.inhibited && !a.stopRequested && IdleCycle(b) && b.filling < 0), e.keys,
                    a.inhibited);
  }

  lemma PollKeepsStops(s: State, io: PollIo, captured: bool, transmitted: bool, fault: bool)
    ensures StopsKept(s, CyclePoll(s, io, captured, transmitted, fault))
  {
    hide TxControl.Elapsed, Fail, PollWait, PollAcquire, PollPreMove, PollMoving;
    var u := s.(cycle := s.cycle.(lastPoll := io.now));
    FailStops(s, io.fail);
    FailStops(u, io.fail);
    match s.cycle.state {
      case WaitBuffer => WaitKeepsStops(u, io);
      case Acquire => AcquireKeepsStops(u, io, captured, transmitted);
      case PreMove => MoveKeepsStops(u, io);
      case Moving => MoveKeepsStops(u, io);
      case _ =>
    }
  }

  lemma WaitKeepsStops(s: State, io: PollIo)
    requires s.cycle.state != Fault
    ensures StopsKept(s, PollWait(s, io))
  {
    hide Capture, Fail;
    CaptureKeepsCycle(s, io.capture);
    FailStops(s, io.fail);
    FailStops(Capture(s, io.capture).state, io.fail);
  }

  lemma AcquireKeepsStops(s: State, io: PollIo, captured: bool, transmitted: bool)
    requires s.cycle.state != Fault
    ensures StopsKept(s, PollAcquire(s, io, captured, transmitted))
  {
    hide Fail, TxControl.Elapsed;
    var c := s.cycle.(received := s.cycle.received || captured, transmitted := s.cycle.transmitted || transmitted);
    FailStops(s.(cycle := c), io.fail);
  }

  lemma MoveKeepsStops(s: State, io: PollIo)
    requires s.cycle.state != Fault
    ensures StopsKept(s, PollPreMove(s, io)) && StopsKept(s, PollMoving(s, io))
  {
    hide Fail, TxControl.Elapsed, NextDelta, CaptureIndex;
    FailStops(s, io.fail);
  }

  /** Every step into FAULT stops all outputs, and no such call is ever forgotten. */
  lemma FaultIsEnteredByStopping(s: State, e: Inputs)
    requires Invariant(s) && Admissible(s, e)
    ensures StopsKept(s, Next(s, e))
  {
    hide Invariant, Pending, Observed, Commands, Polled, StopsKept, Deliver;
    ObservedListens(s, e);
    var c := Observed(s, e);
    PendingShape(c, false);
    CommandsKeepStops(s, e);
    ObservedStops(s, e);
    PolledKeepsStops(s, e);
    AfterKeepsStops(c.cycle.state, Polled(s, e), e);
    StopsCompose(s, c, Polled(s, e));
    StopsCompose(s, Polled(s, e), Next(s, e));
  }

  lemma ObservedStops(s: State, e: Inputs)
    requires KeysFit(e.keys) && StopsKept(s, Commands(s, e))
    ensures StopsKept(s, Observed(s, e))
  {
    hide Commands, TxControl.Poll, Listen;
    ListenKeepsCycle(Commands(s, e), e.mic);
  }

  lemma PolledKeepsStops(s: State, e: Inputs)
    requires KeysFit(e.keys) && -1 <= Observed(s, e).filling < |Observed(s, e).slots|
    ensures StopsKept(Observed(s, e), Polled(s, e))
  {
    hide Observed, Deliver, CyclePoll, Listen, Commands, TxFault, Publishes, Arrivals, TxControl.Done;
    var c := Observed(s, e);
    DeliverTrigger(c);
    DeliverKeepsMotion(c);
    var d := Deliver(c);
    var fatal := Arrivals(s, e).inhibited || (Delivers(c) && !c.cycle.stopping && !Publishes(c));
    var fault := fatal || TxFault(Listen(Commands(s, e), e.mic), e) || e.motorFault || d.mic.state == Microphone.Fault;
    PollKeepsStops(d, e.poll, Delivers(c), TxControl.Done(c.tx), fault);
  }

  lemma AfterKeepsStops(before: CycleState, s: State, e: Inputs)
    ensures StopsKept(s, ReportFault(AfterPoll(before, s, e), e.cancelReset))
  {
    hide StopCycle, Microphone.Cancel;
    StopCycleStops(s, e.endNow, e.endIo);
    StopCycleStops(s.(inhibited := true, stopRequested := true), e.endNow, e.endIo);
  }

  /** In STOPPED, and while a stopped capture drains, the last stop muted, stopped the motor and the transmitter. */
  lemma StoppedOnlyWhenAllStopped(s: State, es: seq<Inputs>, t: State)
    requires Initial(s) && Invariant(s) && RunsTo(s, es, t)
    requires t.cycle.state == Stopped || (t.cycle.stopping && t.cycle.state != Fault)
    ensures |t.stops| > 0 && Succeeded(t.stops[|t.stops| - 1])
  {
    hide Next, ScanPart, SlotPart, TxPart, PublishedPart, MotionPart;
    RunKeepsInvariant(s, es, t);
  }
}
