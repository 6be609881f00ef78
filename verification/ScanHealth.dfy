/** What an iteration does about trouble: health faults, inhibition, muting, and a capture caught by a fault. */
module ScanHealth {
  import opened MachineIntegers
  import opened Scan360
  import opened ScanSequencer
  import opened ScanSafety
  import opened ScanRuns
  import FramePool
  import TxControl
  import Microphone

  /** Anything wrong that an iteration can see. */
  predicate Unhealthy(s: State, e: Inputs)
    requires KeysFit(e.keys)
  {
    || s.inhibited || e.inhibit || e.motorFault
    || TxControl.Poll(Commands(s, e).tx, e.errorPoll).fault
    || Observed(s, e).mic.state == Microphone.Fault
    || e.poll.now < Observed(s, e).cycle.lastPoll
  }

  lemma FaultFails(s: State, io: PollIo, captured: bool, transmitted: bool, fault: bool)
    requires fault || io.now < s.cycle.lastPoll
    ensures CyclePoll(s, io, captured, transmitted, fault).cycle.state == Fault
  {
    hide Fail, PollWait, PollAcquire, PollPreMove, PollMoving, PollSettling;
    FailFaults(s, io.fail);
    FailFaults(s.(cycle := s.cycle.(lastPoll := io.now)), io.fail);
  }

  lemma FaultStaysAfter(before: CycleState, s: State, e: Inputs)
    requires s.cycle.state == Fault
    ensures var t := ReportFault(AfterPoll(before, s, e), e.cancelReset);
      && t.cycle.state == Fault && t.faultReported
      && (!s.faultReported ==> t.mic.state != Microphone.Capturing)
      && (s.faultReported ==> t.mic == s.mic)
      && (s.inhibited ==> t.inhibited)
  {
    hide StopCycle;
  }

  lemma DeliveredMic(c: State)
    requires c.filling < |c.slots|
    ensures Deliver(c).cycle == c.cycle && Deliver(c).faultReported == c.faultReported
    ensures c.mic.state == Microphone.Fault ==> Deliver(c).mic == c.mic
    ensures c.mic.state != Microphone.Capturing ==> Deliver(c).mic.state != Microphone.Capturing
  {
    hide TxControl.Done;
  }

  /** Whatever the cycle was doing, an iteration that sees something wrong ends in FAULT. */
  lemma TroubleEndsInFault(s: State, e: Inputs)
    requires Invariant(s) && Admissible(s, e) && Unhealthy(s, e)
    ensures Next(s, e).cycle.state == Fault && Next(s, e).faultReported
  {
    hide Invariant, Commands, Pending, Deliver, CyclePoll, ReportFault, AfterPoll, TxControl.Poll, TxControl.Done;
    hide Microphone.OnEvent, Microphone.Poll, Publishes;
    ObservedListens(s, e);
    var c := Observed(s, e);
    PendingShape(c, false);
    DeliveredMic(c);
    var d := Deliver(c);
    var fatal := Arrivals(s, e).inhibited || (Delivers(c) && !c.cycle.stopping && !Publishes(c));
    var fault := fatal || TxFault(Listen(Commands(s, e), e.mic), e) || e.motorFault || d.mic.state == Microphone.Fault;
    ListenKeepsCycle(Commands(s, e), e.mic);
    FaultFails(d, e.poll, Delivers(c), TxControl.Done(c.tx), fault);
    FaultStaysAfter(c.cycle.state, Polled(s, e), e);
  }

  /** A capture past its own deadline, in ticks, ends the cycle in FAULT. */
  lemma LateCaptureEndsInFault(s: State, e: Inputs)
    requires Invariant(s) && Admissible(s, e) && s.mic.state == Microphone.Capturing
    requires Microphone.Ticks(e.mic.tick, s.mic.started) >= s.mic.timeout
    ensures KeysFit(e.keys) && Observed(s, e).mic.state == Microphone.Fault
    ensures Next(s, e).cycle.state == Fault
  {
    hide Invariant, Commands, Body;
    assert KeysFit(e.keys);
    CommandsKeepMic(s, e);
    ObservedListens(s, e);
    FillsWhileCapturing(Commands(s, e));
    LateListening(Commands(s, e), e.mic);
    TroubleEndsInFault(s, e);
  }

  lemma FillsWhileCapturing(s: State)
    requires Invariant(s)
    ensures s.mic.state == Microphone.Capturing ==> s.filling >= 0
  {
    hide Planned, TxControl.Sound, Microphone.Sound;
  }

  lemma LateListening(s: State, io: MicIo)
    requires s.filling >= 0 && s.mic.state == Microphone.Capturing
    requires Microphone.Ticks(io.tick, s.mic.started) >= s.mic.timeout
    ensures Listen(s, io).mic.state == Microphone.Fault
  {
  }

  /** In flight a status query polls the transmitter, each with its own reading, and changes nothing else. */
  lemma QueriesPollTransmitter(s: State, e: Inputs)
    requires Flying(s) && KeysFit(e.keys) && !s.stopRequested && !e.stop && !e.inhibit && s.prompt == NoPrompt
    ensures var c := Commands(s, e);
      && c.tx == TxControl.Run(s.tx, Queries(e.replies)) && c.mic == s.mic && c.cycle == s.cycle && c.run == s.run
  {
    hide PollAll, Press, TxControl.Run;
    FlyingIgnoresKeys(Control(Arrivals(s, e), e, false), e.keys, Arrivals(s, e).inhibited);
    RepliesPoll(s.tx, e.replies);
  }

  function Queries(replies: seq<TxControl.Sample>): seq<TxControl.Call> {
    seq(|replies|, i requires 0 <= i < |replies| => TxControl.Polled(replies[i]))
  }

  lemma {:induction false} RepliesPoll(t: TxControl.Tx, replies: seq<TxControl.Sample>)
    ensures PollAll(t, replies) == TxControl.Run(t, Queries(replies))
    decreases |replies|
  {
    hide TxControl.Poll;
    if replies != [] {
      assert Queries(replies)[1..] == Queries(replies[1..]);
      RepliesPoll(TxControl.Poll(t, replies[0]), replies[1..]);
    }
  }

  // Inhibition

  /** Inhibition is only ever added, and only by `added`. */
  predicate Inhibits(s: State, t: State, added: bool) {
    t.inhibited == (s.inhibited || added)
  }

  lemma StopInhibits(s: State, now: uint64, io: StopIo)
    ensures StopCycle(s, now, io).inhibited == s.inhibited && StopCycle(s, now, io).stopRequested == s.stopRequested
    ensures Fail(s, io).inhibited == s.inhibited && Fail(s, io).stopRequested == s.stopRequested
  {
    hide TxControl.Abort, TxControl.Aborts;
  }

  lemma {:induction false} KeysInhibit(s: State, keys: seq<Key>, fatal: bool)
    requires KeysFit(keys)
    ensures PressAll(s, keys, fatal).inhibited == s.inhibited
    decreases |keys|
  {
    hide Press;
    if keys != [] {
      KeyInhibits(s, keys[0], fatal);
      KeysInhibit(Press(s, keys[0], fatal), keys[1..], fatal);
    }
  }

  lemma KeyInhibits(s: State, k: Key, fatal: bool)
    requires k.Start? ==> k.durationUs <= MAX_TX_US
    ensures Press(s, k, fatal).inhibited == s.inhibited
  {
  }

  lemma CommandsInhibit(s: State, e: Inputs)
    requires KeysFit(e.keys)
    ensures Inhibits(s, Commands(s, e), e.inhibit)
  {
    hide StopCycle, PressAll, PollAll, Press, Fail;
    var a := Arrivals(s, e);
    StopInhibits(a.(stopRequested := false), e.stopNow, e.stopIo);
    var b := HandleStop(a, e);
    KeysInhibit(Control(b, e, !a.inhibited && !a.stopRequested && IdleCycle(b) && b.filling < 0), e.keys, a.inhibited);
  }

  lemma CaptureInhibits(s: State, io: CaptureIo)
    ensures s.inhibited ==> Capture(s, io).state.inhibited
    ensures Capture(s, io).state.inhibited ==> s.inhibited || io.inhibit
  {
    hide TxControl.Prepare, TxControl.Prepares, TxControl.Abort, TxControl.Aborts, TxControl.Triggered;
    hide Microphone.Start, Microphone.Starts;
  }

  lemma PollInhibits(s: State, io: PollIo, captured: bool, transmitted: bool, fault: bool)
    ensures var t := CyclePoll(s, io, captured, transmitted, fault);
      && (s.inhibited ==> t.inhibited) && (t.inhibited ==> s.inhibited || io.capture.inhibit)
  {
    hide Fail, StopCycle, PollWait, PollAcquire, PollPreMove, PollMoving, PollSettling;
    var u := s.(cycle := s.cycle.(lastPoll := io.now));
    StopInhibits(s, 0, io.fail);
    StopInhibits(u, 0, io.fail);
    WaitInhibits(u, io);
    MoveInhibits(u, io, captured, transmitted);
  }

  lemma WaitInhibits(s: State, io: PollIo)
    ensures s.inhibited ==> PollWait(s, io).inhibited
    ensures PollWait(s, io).inhibited ==> s.inhibited || io.capture.inhibit
  {
    hide Fail, StopCycle, Capture;
    CaptureInhibits(s, io.capture);
    StopInhibits(s, 0, io.fail);
    StopInhibits(Capture(s, io.capture).state, 0, io.fail);
  }

  lemma MoveInhibits(s: State, io: PollIo, captured: bool, transmitted: bool)
    ensures PollAcquire(s, io, captured, transmitted).inhibited == s.inhibited
    ensures PollPreMove(s, io).inhibited == PollMoving(s, io).inhibited == PollSettling(s, io).inhibited == s.inhibited
  {
    hide Fail, StopCycle, TxControl.Elapsed, NextDelta, CaptureIndex;
    StopInhibits(s, 0, io.fail);
    var c := s.cycle.(received := s.cycle.received || captured, transmitted := s.cycle.transmitted || transmitted);
    StopInhibits(s.(cycle := c), 0, io.fail);
  }

  lemma AfterInhibits(before: CycleState, s: State, e: Inputs)
    ensures var t := ReportFault(AfterPoll(before, s, e), e.cancelReset);
      && (t.inhibited <==> s.inhibited || (before == Acquire && s.cycle.state != Acquire && !e.muted))
      && (before == Acquire && s.cycle.state != Acquire && !e.muted ==> t.stopRequested)
      && (before == Acquire ==> t.cycle == s.cycle)
  {
    hide StopCycle, Fail, Microphone.Cancel;
    StopInhibits(s, e.endNow, e.endIo);
    StopInhibits(s.(inhibited := true, stopRequested := true), e.endNow, e.endIo);
  }

  /** The exposure ended in this iteration, in whatever way, and the speaker could not be muted. */
  ghost predicate LeftUnmuted(s: State, e: Inputs)
    requires Invariant(s) && Admissible(s, e)
  {
    && KeysFit(e.keys) && Observed(s, e).cycle.state == Acquire && Next(s, e).cycle.state != Acquire && !e.muted
  }

  /**
   Inhibition is never taken back. It comes from outside, before or during a capture attempt, or from a speaker that
   could not be muted when an exposure ended, which also asks for a stop; nothing else inhibits.
   */
  lemma InhibitIsLatched(s: State, e: Inputs)
    requires Invariant(s) && Admissible(s, e)
    ensures s.inhibited || e.inhibit || LeftUnmuted(s, e) ==> Next(s, e).inhibited
    ensures Next(s, e).inhibited ==> s.inhibited || e.inhibit || e.poll.capture.inhibit || LeftUnmuted(s, e)
    ensures LeftUnmuted(s, e) ==> Next(s, e).stopRequested
  {
    hide Invariant, Commands, Pending, Deliver, CyclePoll, ReportFault, AfterPoll, TxControl.Poll;
    hide Microphone.OnEvent, Microphone.Poll, Publishes, Delivers, TxControl.Done;
    ObservedListens(s, e);
    assert KeysFit(e.keys);
    var c := Observed(s, e);
    PendingShape(c, false);
    CommandsInhibit(s, e);
    ListenKeepsCycle(Commands(s, e), e.mic);
    DeliverInhibits(c);
    hide Observed;
    PolledInhibits(s, e);
    AfterInhibits(c.cycle.state, Polled(s, e), e);
  }

  lemma DeliverInhibits(c: State)
    requires c.filling < |c.slots|
    ensures Deliver(c).inhibited == c.inhibited
  {
    hide TxControl.Done;
  }

  lemma PolledInhibits(s: State, e: Inputs)
    requires KeysFit(e.keys) && Observed(s, e).filling < |Observed(s, e).slots|
    ensures var d, t := Deliver(Observed(s, e)), Polled(s, e);
      && (d.inhibited ==> t.inhibited) && (t.inhibited ==> d.inhibited || e.poll.capture.inhibit)
  {
    hide Observed, Deliver, CyclePoll, TxFault, Arrivals, Listen, Commands, TxControl.Done;
    var c := Observed(s, e);
    var d := Deliver(c);
    var fatal := Arrivals(s, e).inhibited || (Delivers(c) && !c.cycle.stopping && !Publishes(c));
    var fault := fatal || TxFault(Listen(Commands(s, e), e.mic), e) || e.motorFault || d.mic.state == Microphone.Fault;
    PollInhibits(d, e.poll, Delivers(c), TxControl.Done(c.tx), fault);
  }

  /** So once inhibited the board is in FAULT from the next iteration on, over every run. */
  lemma InhibitedEndsInFault(s: State, es: seq<Inputs>, t: State)
    requires Invariant(s) && RunsTo(s, es, t) && es != [] && (s.inhibited || es[0].inhibit)
    ensures t.cycle.state == Fault
  {
    hide Invariant, Next, Commands, Observed;
    TroubleEndsInFault(s, es[0]);
    FaultIsForEver(Next(s, es[0]), es[1..], t);
  }

  // A capture caught by a fault

  /** A fault once reported is one, and has no capture under way. */
  predicate ReportedIsFault(s: State) {
    s.faultReported ==> s.cycle.state == Fault && s.mic.state != Microphone.Capturing
  }

  lemma CommandsKeepMic(s: State, e: Inputs)
    requires KeysFit(e.keys)
    ensures Commands(s, e).mic == s.mic && Commands(s, e).faultReported == s.faultReported
  {
    hide StopCycle, PressAll, PollAll, Press;
    var a := Arrivals(s, e);
    StopKeepsMic(a.(stopRequested := false), e.stopNow, e.stopIo);
    var b := HandleStop(a, e);
    KeysKeepMic(Control(b, e, !a.inhibited && !a.stopRequested && IdleCycle(b) && b.filling < 0), e.keys, a.inhibited);
  }

  lemma StopKeepsMic(s: State, now: uint64, io: StopIo)
    ensures StopCycle(s, now, io).mic == s.mic && StopCycle(s, now, io).faultReported == s.faultReported
  {
    hide TxControl.Abort, TxControl.Aborts;
  }

  lemma {:induction false} KeysKeepMic(s: State, keys: seq<Key>, fatal: bool)
    requires KeysFit(keys)
    ensures PressAll(s, keys, fatal).mic == s.mic && PressAll(s, keys, fatal).faultReported == s.faultReported
    decreases |keys|
  {
    hide Press;
    if keys != [] {
      KeyKeepsMic(s, keys[0], fatal);
      KeysKeepMic(Press(s, keys[0], fatal), keys[1..], fatal);
    }
  }

  lemma KeyKeepsMic(s: State, k: Key, fatal: bool)
    requires k.Start? ==> k.durationUs <= MAX_TX_US
    ensures Press(s, k, fatal).mic == s.mic && Press(s, k, fatal).faultReported == s.faultReported
  {
  }

  /** The iteration that ends in FAULT reports it, once, and leaves no capture under way. */
  lemma FaultCancelsCapture(s: State, e: Inputs)
    requires Invariant(s) && Admissible(s, e) && ReportedIsFault(s)
    ensures ReportedIsFault(Next(s, e)) && (Next(s, e).cycle.state == Fault ==> Next(s, e).faultReported)
  {
    hide Invariant, Commands, Pending, Deliver, CyclePoll, AfterPoll, TxControl.Poll, StopCycle;
    hide Microphone.OnEvent, Microphone.Poll, Publishes, Delivers, TxControl.Done, TxFault, Arrivals;
    ObservedListens(s, e);
    assert KeysFit(e.keys);
    var c := Observed(s, e);
    PendingShape(c, false);
    CommandsKeepMic(s, e);
    CommandsKeep(s, e);
    DeliveredMic(c);
    PolledReports(s, e);
    AfterReports(c.cycle.state, Polled(s, e), e);
  }

  lemma PolledReports(s: State, e: Inputs)
    requires KeysFit(e.keys) && Observed(s, e).filling < |Observed(s, e).slots|
    ensures var d, t := Deliver(Observed(s, e)), Polled(s, e);
      t.faultReported == d.faultReported && (d.cycle.state == Fault ==> t == d)
  {
    hide Observed, Deliver, CyclePoll, TxFault, Arrivals, Listen, Commands, TxControl.Done;
    var c := Observed(s, e);
    var d := Deliver(c);
    var fatal := Arrivals(s, e).inhibited || (Delivers(c) && !c.cycle.stopping && !Publishes(c));
    var fault := fatal || TxFault(Listen(Commands(s, e), e.mic), e) || e.motorFault || d.mic.state == Microphone.Fault;
    PollPublishesNothing(d, e.poll, Delivers(c), TxControl.Done(c.tx), fault);
    if d.cycle.state == Fault {
      FaultIgnoresPoll(d, e.poll, Delivers(c), TxControl.Done(c.tx), fault);
    }
  }

  lemma AfterReports(before: CycleState, s: State, e: Inputs)
    ensures var t := ReportFault(AfterPoll(before, s, e), e.cancelReset);
      && (t.cycle.state == Fault ==> t.faultReported)
      && (t.faultReported <==> s.faultReported || t.cycle.state == Fault)
      && (!s.faultReported && t.faultReported ==> t.mic.state != Microphone.Capturing)
      && (s.faultReported ==> t.mic == s.mic)
      && (s.cycle.state == Fault ==> t.cycle.state == Fault)
  {
    hide StopCycle;
    StopKeepsMic(s, e.endNow, e.endIo);
    StopKeepsMic(s.(inhibited := true, stopRequested := true), e.endNow, e.endIo);
  }
}
