/** What moves a scan on: for each phase, exactly what an iteration without a stop and without trouble does. */
module ScanProgress {
  import opened MachineIntegers
  import opened Scan360
  import opened ScanSequencer
  import opened ScanSafety
  import opened ScanRuns
  import opened ScanHealth
  import FramePool
  import TxControl
  import Microphone

  /** A scan in flight, no stop asked for, and nothing wrong. */
  ghost predicate Undisturbed(s: State, e: Inputs) {
    && Invariant(s) && Admissible(s, e) && Flying(s) && !s.cycle.stopping
    && !s.stopRequested && !e.stop && !Unhealthy(s, e)
  }

  /** Before the poll of an undisturbed iteration nothing but transmitter, capture object and pool has moved. */
  lemma UndisturbedPoll(s: State, e: Inputs)
    requires Undisturbed(s, e)
    ensures KeysFit(e.keys) && Observed(s, e).filling < |Observed(s, e).slots| && Pending(Observed(s, e), false)
    ensures var c := Observed(s, e);
      && c.cycle == s.cycle && c.scan == s.scan && c.run == s.run && c.slots == e.sender
      && !c.stopRequested && !c.inhibited
      && s.cycle.lastPoll <= e.poll.now
      && Polled(s, e) == CyclePoll(Deliver(c), e.poll, Delivers(c), TxControl.Done(c.tx), false)
  {
    hide Invariant, Pending, Deliver, CyclePoll, TxControl.Poll, TxControl.Done, Delivers, Publishes;
    hide Microphone.OnEvent, Microphone.Poll;
    ObservedListens(s, e);
    var c := Observed(s, e);
    PendingShape(c, false);
    FlyingFollows(s);
    UndisturbedFields(s, e);
    UndisturbedCommands(s, e);
    DeliverReaches(c);
    DeliveredHealth(c);
  }

  lemma UndisturbedFields(s: State, e: Inputs)
    requires KeysFit(e.keys) && Flying(s) && !s.stopRequested && !e.stop && !e.inhibit && !s.inhibited
    requires s.prompt == NoPrompt
    ensures var c := Observed(s, e); c.slots == e.sender && !c.stopRequested && !c.inhibited
    ensures Commands(s, e).tx == Control(Arrivals(s, e), e, false).tx
    ensures TxFault(Listen(Commands(s, e), e.mic), e) == TxControl.Poll(Commands(s, e).tx, e.errorPoll).fault
  {
    hide TxControl.Poll, PollAll, Press, Microphone.OnEvent, Microphone.Poll;
    FlyingIgnoresKeys(Control(Arrivals(s, e), e, false), e.keys, false);
  }

  lemma DeliveredHealth(c: State)
    requires c.filling < |c.slots|
    ensures Deliver(c).mic.state == Microphone.Fault <==> c.mic.state == Microphone.Fault
    ensures Deliver(c).cycle == c.cycle
  {
    hide TxControl.Done, Microphone.Release;
    ReleaseIsHarmless(c.mic);
  }

  lemma ReleaseIsHarmless(m: Microphone.Mic)
    ensures Microphone.Release(m).state == Microphone.Fault <==> m.state == Microphone.Fault
  {
  }

  /** Except at the end of a scan, what follows the poll leaves the cycle alone. */
  lemma AfterKeepsCycle(before: CycleState, s: State, e: Inputs)
    requires before != Settling
    ensures ReportFault(AfterPoll(before, s, e), e.cancelReset).cycle == s.cycle
    ensures ReportFault(AfterPoll(before, s, e), e.cancelReset).run == s.run
    ensures ReportFault(AfterPoll(before, s, e), e.cancelReset).pings == s.pings
    ensures ReportFault(AfterPoll(before, s, e), e.cancelReset).published == s.published
  {
    hide Microphone.Cancel;
  }

  /** A whole undisturbed iteration outside SETTLING. */
  lemma UndisturbedNext(s: State, e: Inputs)
    requires Undisturbed(s, e) && s.cycle.state != Settling
    ensures KeysFit(e.keys) && Observed(s, e).filling < |Observed(s, e).slots|
    ensures var c := Observed(s, e);
      var t := CyclePoll(Deliver(c), e.poll, Delivers(c), TxControl.Done(c.tx), false);
      Next(s, e).cycle == t.cycle && Next(s, e).run == t.run && Next(s, e).pings == t.pings
  {
    hide Undisturbed, Invariant, Pending, Deliver, CyclePoll, Observed, ReportFault, AfterPoll, TxControl.Done;
    hide Delivers;
    UndisturbedPoll(s, e);
    AfterKeepsCycle(Observed(s, e).cycle.state, Polled(s, e), e);
    assert Invariant(s) && Admissible(s, e) by {
      UndisturbedIs(s, e);
    }
  }

  lemma UndisturbedIs(s: State, e: Inputs)
    requires Undisturbed(s, e)
    ensures Invariant(s) && Admissible(s, e) && Flying(s) && !s.cycle.stopping
  {
    hide Invariant, Unhealthy;
  }

  // The phases

  /** PRE_MOVE ends two seconds after the trigger: in a move, if the motor takes it. */
  lemma PreMoveStep(s: State, e: Inputs)
    requires Undisturbed(s, e) && s.cycle.state == PreMove
    ensures var t, waited := Next(s, e), e.poll.now - s.cycle.trigger;
      && (waited < 2000000 ==> t.cycle.state == PreMove && t.run == s.run)
      && (waited >= 2000000 && e.poll.moved ==>
           && t.cycle.state == Moving && t.cycle.since == e.poll.now
           && t.run.current.Travelling? && t.run.current.leg.delta == DeltaAt(s.run, |s.run.legs|) != 0)
      && (waited >= 2000000 && !e.poll.moved ==> t.cycle.state == Fault)
  {
    hide Undisturbed, Invariant, Pending, Observed, Polled, TxControl.Done, Delivers, Deliver, Unhealthy;
    UndisturbedIs(s, e);
    UndisturbedPoll(s, e);
    UndisturbedNext(s, e);
    var c := Observed(s, e);
    DeliverTrigger(c);
    PreMoveScan(s);
    PreMovePoll(Deliver(c), e.poll, Delivers(c), TxControl.Done(c.tx));
  }

  lemma PreMoveScan(s: State)
    requires Invariant(s) && s.cycle.state == PreMove
    ensures s.run.current.Exposed? && CaptureIndex(s.scan) != 0 && NextDelta(s.scan) != 0
    ensures s.scan == Scan(s.run.positions, s.run.direction, |s.run.legs|)
  {
    hide Target, TxControl.Sound, Microphone.Sound;
    MoveIsSmall(s.scan);
  }

  /** Up to its move, a position's number is one more than the positions finished. */
  lemma IndexIsPosition(s: State)
    requires Invariant(s) && (s.cycle.state == WaitBuffer || s.cycle.state == Acquire || s.cycle.state == PreMove)
    ensures CaptureIndex(s.scan) == |s.run.legs| + 1
  {
    hide NextDelta, TxControl.Sound, Microphone.Sound;
  }

  lemma PreMovePoll(d: State, io: PollIo, captured: bool, transmitted: bool)
    requires d.cycle.state == PreMove && d.cycle.lastPoll <= io.now && d.cycle.trigger <= io.now
    requires d.run.current.Exposed? && CaptureIndex(d.scan) != 0 && NextDelta(d.scan) != 0
    ensures var t, waited := CyclePoll(d, io, captured, transmitted, false), io.now - d.cycle.trigger;
      && (waited < 2000000 ==> t.cycle.state == PreMove && t.run == d.run)
      && (waited >= 2000000 && io.moved ==>
           && t.cycle.state == Moving && t.cycle.since == io.now
           && t.run.current.Travelling? && t.run.current.leg.delta == NextDelta(d.scan))
      && (waited >= 2000000 && !io.moved ==> t.cycle.state == Fault)
  {
    hide Fail, NextDelta, CaptureIndex, PollWait, PollAcquire, PollMoving, PollSettling, MarkMoveStarted;
    var u := d.(cycle := d.cycle.(lastPoll := io.now));
    FailFaults(u, io.fail);
    assert CyclePoll(d, io, captured, transmitted, false) == PollPreMove(u, io);
    hide CyclePoll;
  }

  /** MOVING ends when the motor is seen to arrive, or in FAULT after five minutes. */
  lemma MovingStep(s: State, e: Inputs)
    requires Undisturbed(s, e) && s.cycle.state == Moving
    ensures var t, waited := Next(s, e), e.poll.now - s.cycle.since;
      && (waited >= 300000000 ==> t.cycle.state == Fault)
      && (waited < 300000000 && e.poll.motorDone ==>
           && t.cycle.state == Settling && t.cycle.since == e.poll.now
           && |t.run.legs| == |s.run.legs| + 1 && t.run.current == Nothing)
      && (waited < 300000000 && !e.poll.motorDone ==> t.cycle.state == Moving && t.run == s.run)
  {
    hide Undisturbed, Invariant, Pending, Observed, Polled, TxControl.Done, Delivers, Deliver, Unhealthy;
    UndisturbedIs(s, e);
    UndisturbedPoll(s, e);
    UndisturbedNext(s, e);
    var c := Observed(s, e);
    DeliverTrigger(c);
    MovingScan(s);
    MovingPoll(Deliver(c), e.poll, Delivers(c), TxControl.Done(c.tx));
  }

  lemma MovingScan(s: State)
    requires Invariant(s) && s.cycle.state == Moving
    ensures s.run.current.Travelling? && s.cycle.since <= s.cycle.lastPoll
  {
    hide Planned, TxControl.Sound, Microphone.Sound;
  }

  lemma MovingPoll(d: State, io: PollIo, captured: bool, transmitted: bool)
    requires d.cycle.state == Moving && d.cycle.since <= d.cycle.lastPoll <= io.now && d.run.current.Travelling?
    ensures var t, waited := CyclePoll(d, io, captured, transmitted, false), io.now - d.cycle.since;
      && (waited >= 300000000 ==> t.cycle.state == Fault)
      && (waited < 300000000 && io.motorDone ==>
           && t.cycle.state == Settling && t.cycle.since == io.now
           && |t.run.legs| == |d.run.legs| + 1 && t.run.current == Nothing)
      && (waited < 300000000 && !io.motorDone ==> t.cycle.state == Moving && t.run == d.run)
  {
    hide Fail, PollWait, PollAcquire, PollPreMove, PollSettling;
    var u := d.(cycle := d.cycle.(lastPoll := io.now));
    FailFaults(u, io.fail);
    assert CyclePoll(d, io, captured, transmitted, false) == PollMoving(u, io);
    hide CyclePoll;
  }

  /**
   SETTLING ends after two seconds: in the wait for the next capture or, after the last move, in the end of the scan,
   which is STOPPED if all outputs stopped.
   */
  lemma SettlingStep(s: State, e: Inputs)
    requires Undisturbed(s, e) && s.cycle.state == Settling
    ensures KeysFit(e.keys) && Observed(s, e).filling < |Observed(s, e).slots|
    ensures var t, waited := Next(s, e), e.poll.now - s.cycle.since;
      && (waited < 2000000 ==> t.cycle.state == Settling && t.run == s.run)
      && (waited >= 2000000 && |s.run.legs| < s.run.positions ==> t.cycle.state == WaitBuffer && t.run == s.run)
      && (waited >= 2000000 && |s.run.legs| == s.run.positions ==>
           && t.run == s.run && t.cycle.state == (if Stops(Polled(s, e), e.endIo) then Stopped else Fault))
  {
    hide Undisturbed, Invariant, Pending, Observed, Polled, TxControl.Done, Delivers, Deliver, Unhealthy, Stops;
    UndisturbedIs(s, e);
    UndisturbedPoll(s, e);
    var c := Observed(s, e);
    DeliverTrigger(c);
    SettlingScan(s);
    SettlingPoll(Deliver(c), e.poll, Delivers(c), TxControl.Done(c.tx));
    var p := Polled(s, e);
    SettlingAfter(p, e);
    assert Next(s, e) == ReportFault(AfterPoll(Settling, p, e), e.cancelReset);
  }

  lemma SettlingScan(s: State)
    requires Invariant(s) && s.cycle.state == Settling
    ensures s.cycle.since <= s.cycle.lastPoll && s.run.current == Nothing && 0 < s.run.positions
    ensures s.scan.started == |s.run.legs| <= s.run.positions == s.scan.positions
  {
    hide TxControl.Sound, Microphone.Sound;
  }

  lemma SettlingPoll(d: State, io: PollIo, captured: bool, transmitted: bool)
    requires d.cycle.state == Settling && d.cycle.since <= d.cycle.lastPoll <= io.now
    ensures var t, waited := CyclePoll(d, io, captured, transmitted, false), io.now - d.cycle.since;
      && t == d.(cycle := t.cycle)
      && t.cycle.state == (if waited < 2000000 then Settling else WaitBuffer)
  {
  }

  lemma SettlingAfter(p: State, e: Inputs)
    ensures var t := ReportFault(AfterPoll(Settling, p, e), e.cancelReset);
      && (p.cycle.state == Settling || (p.cycle.state == WaitBuffer && !Complete(p.scan)) ==>
           t.cycle == p.cycle && t.run == p.run)
      && (p.cycle.state == WaitBuffer && Complete(p.scan) ==>
           t.run == p.run && t.cycle.state == (if Stops(p, e.endIo) then Stopped else Fault))
  {
    hide TxControl.Abort, TxControl.Aborts, Microphone.Cancel;
  }

  /**
   ACQUIRE ends when capture and transmission are complete, with the frame published; it ends in FAULT when the capture
   is late after half a second, or the transmission after the deadline of its start.
   */
  lemma AcquireStep(s: State, e: Inputs)
    requires Undisturbed(s, e) && s.cycle.state == Acquire
    ensures KeysFit(e.keys)
    ensures var c, t, waited := Observed(s, e), Next(s, e), e.poll.now - s.cycle.trigger;
      var transmitted := s.cycle.transmitted || TxControl.Done(c.tx);
      var complete := c.mic.state == Microphone.Ready && TxControl.Done(c.tx);
      && (complete ==>
           && t.cycle.state == PreMove && t.cycle.since == e.poll.now && t.cycle.trigger == s.cycle.trigger
           && |t.published| == |s.published| + 1)
      && (!complete && waited < 500000 && (transmitted || waited < s.cycle.txTimeout) ==>
           t.cycle.state == Acquire && t.cycle.transmitted == transmitted)
      && (!complete && (waited >= 500000 || (!transmitted && waited >= s.cycle.txTimeout)) ==>
           t.cycle.state == Fault)
  {
    hide Undisturbed, Invariant, Pending, Observed, Polled, TxControl.Done, Delivers, Deliver, Unhealthy;
    UndisturbedIs(s, e);
    UndisturbedPoll(s, e);
    UndisturbedNext(s, e);
    var c := Observed(s, e);
    PublishedBy(s, e);
    AcquireScan(s);
    DeliverTrigger(c);
    DeliversDone(c);
    CompleteDelivers(c);
    AcquirePoll(Deliver(c), e.poll, Delivers(c), TxControl.Done(c.tx));
  }

  lemma DeliversDone(c: State)
    ensures Delivers(c) ==> TxControl.Done(c.tx)
  {
    hide TxControl.Done;
  }

  lemma CompleteDelivers(c: State)
    requires Pending(c, false) && c.cycle.state == Acquire
    ensures Delivers(c) <==> c.mic.state == Microphone.Ready && TxControl.Done(c.tx)
  {
    hide Planned, TxControl.Sound, TxControl.Done;
  }

  lemma AcquireScan(s: State)
    requires Invariant(s) && s.cycle.state == Acquire
    ensures !s.cycle.received && s.run.current.Shot?
  {
    hide Planned, TxControl.Sound, Microphone.Sound;
  }

  lemma PublishedBy(s: State, e: Inputs)
    requires Undisturbed(s, e) && s.cycle.state == Acquire
    ensures KeysFit(e.keys)
    ensures Delivers(Observed(s, e)) ==> |Next(s, e).published| == |s.published| + 1
  {
    hide Undisturbed, Invariant, Pending, Observed, Polled, TxControl.Done, Deliver, CyclePoll, Unhealthy, Delivers;
    hide ReportFault, AfterPoll;
    UndisturbedIs(s, e);
    UndisturbedPoll(s, e);
    var c := Observed(s, e);
    PendingShape(c, false);
    PolledPublishes(s, e);
    AfterPublishesNothing(c.cycle.state, Polled(s, e), e);
    ObservedPublishesNothing(s, e);
    if Delivers(c) {
      DeliverReaches(c);
      DeliverAdds(c);
    }
  }

  lemma DeliverAdds(c: State)
    requires 0 <= c.filling < |c.slots| && Publishes(c)
    ensures |Deliver(c).published| == |c.published| + 1
  {
    hide TxControl.Done;
  }

  lemma AcquirePoll(d: State, io: PollIo, captured: bool, transmitted: bool)
    requires d.cycle.state == Acquire && d.cycle.lastPoll <= io.now && d.cycle.trigger <= io.now
    requires !d.cycle.received && !d.cycle.stopping && d.run.current.Shot? && (captured ==> transmitted)
    ensures var t, waited := CyclePoll(d, io, captured, transmitted, false), io.now - d.cycle.trigger;
      var done := d.cycle.transmitted || transmitted;
      && (captured ==> t.cycle.state == PreMove && t.cycle.since == io.now && t.cycle.trigger == d.cycle.trigger)
      && (!captured && waited < 500000 && (done || waited < d.cycle.txTimeout) ==>
           t.cycle.state == Acquire && t.cycle.transmitted == done)
      && (!captured && (waited >= 500000 || (!done && waited >= d.cycle.txTimeout)) ==> t.cycle.state == Fault)
  {
    hide Fail, PollWait, PollPreMove, PollMoving, PollSettling;
    var u := d.cycle.(lastPoll := io.now);
    FailFaults(d.(cycle := u.(received := captured, transmitted := d.cycle.transmitted || transmitted)), io.fail);
  }

  /** A capture attempt with a free slot in which the transmitter gets ready, no stop comes up, and all parts start. */
  predicate Triggers(c: State, io: CaptureIo) {
    && FramePool.Free in c.slots
    && TxControl.Prepares(c.tx, io.prepare, io.low, io.status) && !io.stop && !io.inhibit
    && io.speaker && io.prepared && io.armed && io.rise && io.fell
  }

  /** A capture attempt without effect: no slot is free, or a stop came up and the transmitter let go. */
  predicate Waits(c: State, io: CaptureIo) {
    || FramePool.Free !in c.slots
    || (TxControl.Prepares(c.tx, io.prepare, io.low, io.status) && (io.stop || io.inhibit)
        && TxControl.Aborts(TxControl.Prepare(c.tx, io.prepare, io.low, io.status), io.cancel))
  }

  /** WAIT_BUFFER ends in a capture exactly when an attempt succeeds, and in FAULT when it fails half-way. */
  lemma WaitStep(s: State, e: Inputs)
    requires Undisturbed(s, e) && s.cycle.state == WaitBuffer
    ensures KeysFit(e.keys)
    ensures var c, t := Observed(s, e), Next(s, e);
      var able := s.cycle.count < UINT32_MAX;
      && (able && Triggers(c, e.poll.capture) ==>
           && t.cycle.state == Acquire && t.cycle.count == s.cycle.count + 1
           && t.cycle.trigger == t.cycle.since == e.poll.capture.trigger
           && |t.pings| == |s.pings| + 1)
      && (able && Waits(c, e.poll.capture) ==> t.cycle.state == WaitBuffer && t.run == s.run)
      && (!able || (!Triggers(c, e.poll.capture) && !Waits(c, e.poll.capture)) ==> t.cycle.state == Fault)
  {
    hide Undisturbed, Invariant, Pending, Observed, Polled, TxControl.Done, Delivers, Deliver, Unhealthy;
    hide Triggers, Waits;
    UndisturbedIs(s, e);
    UndisturbedPoll(s, e);
    UndisturbedNext(s, e);
    var c := Observed(s, e);
    WaitsForBuffer(c);
    WaitPings(s, e);
    WaitPoll(c, e.poll);
  }

  lemma WaitPings(s: State, e: Inputs)
    requires Undisturbed(s, e)
    ensures KeysFit(e.keys) && Observed(s, e).pings == s.pings
  {
    hide Invariant, TxControl.Poll, PollAll, Press, Microphone.OnEvent, Microphone.Poll, Unhealthy;
    FlyingFollows(s);
    FlyingIgnoresKeys(Control(Arrivals(s, e), e, false), e.keys, false);
    HealthyFlags(s, e);
  }

  lemma HealthyFlags(s: State, e: Inputs)
    requires KeysFit(e.keys) && !Unhealthy(s, e)
    ensures !s.inhibited && !e.inhibit
  {
    hide Commands, Observed;
  }

  lemma WaitsForBuffer(c: State)
    requires Pending(c, false) && c.cycle.state == WaitBuffer
    ensures !Delivers(c) && c.filling < |c.slots| && Deliver(c) == c && c.filling == -1
  {
    hide Planned, TxControl.Sound, TxControl.Done;
  }

  lemma WaitPoll(c: State, io: PollIo)
    requires c.cycle.state == WaitBuffer && c.cycle.lastPoll <= io.now && !c.stopRequested && !c.inhibited
    requires c.filling == -1
    ensures forall captured, transmitted ::
      CyclePoll(c, io, captured, transmitted, false) == PollWait(c.(cycle := c.cycle.(lastPoll := io.now)), io)
    ensures var t := PollWait(c.(cycle := c.cycle.(lastPoll := io.now)), io);
      var able := c.cycle.count < UINT32_MAX;
      && (able && Triggers(c, io.capture) ==>
           && t.cycle.state == Acquire && t.cycle.count == c.cycle.count + 1
           && t.cycle.trigger == t.cycle.since == io.capture.trigger
           && |t.pings| == |c.pings| + 1)
      && (able && Waits(c, io.capture) ==> t.cycle.state == WaitBuffer && t.run == c.run)
      && (!able || (!Triggers(c, io.capture) && !Waits(c, io.capture)) ==> t.cycle.state == Fault)
  {
    hide Fail, Capture, Triggers, Waits;
    var u := c.(cycle := c.cycle.(lastPoll := io.now));
    FailFaults(u, io.fail);
    FailFaults(Capture(u, io.capture).state, io.fail);
    CaptureKeepsCycle(u, io.capture);
    AttemptResult(u, io.capture);
    SameAttempt(c, u, io.capture);
  }

  /** A transmission is triggered only after buffer and engine were made ready and the speaker switched on. */
  lemma TriggeredOnlyWhenArmed(u: State, io: CaptureIo)
    requires !u.tx.running
    ensures Capture(u, io).state.tx.running ==>
      io.speaker && io.prepared && io.armed && io.rise && !io.stop && !io.inhibit && !u.stopRequested && !u.inhibited
  {
    hide Microphone.Start, Microphone.Starts;
    AbortStartsNothing(TxControl.Prepare(u.tx, io.prepare, io.low, io.status), io.cancel);
  }

  lemma AbortStartsNothing(t: TxControl.Tx, io: TxControl.AbortIo)
    requires !t.running
    ensures !TxControl.Abort(t, io).running
  {
  }

  lemma SameAttempt(c: State, u: State, io: CaptureIo)
    requires u == c.(cycle := u.cycle)
    ensures (Triggers(c, io) <==> Triggers(u, io)) && (Waits(c, io) <==> Waits(u, io))
  {
    hide TxControl.Prepares, TxControl.Prepare, TxControl.Aborts;
  }

  lemma AttemptResult(u: State, io: CaptureIo)
    requires !u.stopRequested && !u.inhibited
    ensures Capture(u, io).result > 0 <==> Triggers(u, io)
    ensures Capture(u, io).result == 0 <==> Waits(u, io)
    ensures Capture(u, io).state.pings == u.pings
  {
    hide TxControl.Prepares, TxControl.Prepare, TxControl.Aborts, TxControl.Abort, TxControl.Triggered;
    hide Microphone.Start;
  }
}
