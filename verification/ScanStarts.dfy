/** When scans start: only from a key that finds the service ready and a test armed, and then always. */
module ScanStarts {
  import opened MachineIntegers
  import opened AudioLimits
  import opened Options
  import opened Scan360
  import opened ScanSequencer
  import opened ScanSafety
  import opened ScanRuns
  import FramePool
  import TxControl
  import Microphone

  // What never starts a scan

  /** Still the same scan, or none. */
  predicate SameScan(s: State, t: State) {
    && t.starts == s.starts && (Flying(t) ==> Flying(s))
    && t.run == s.run.(legs := t.run.legs, current := t.run.current)
  }

  /** And with the same number stored and the same prompt open. */
  predicate Calm(s: State, t: State) {
    SameScan(s, t) && t.requested == s.requested && t.prompt == s.prompt
  }

  lemma StopSameScan(s: State, now: uint64, io: StopIo)
    ensures Calm(s, StopCycle(s, now, io)) && Calm(s, Fail(s, io))
    ensures IdleCycle(s) ==> !Flying(StopCycle(s, now, io))
  {
    hide TxControl.Abort, TxControl.Aborts;
  }

  lemma WaitSameScan(s: State, io: PollIo)
    requires Flying(s)
    ensures Calm(s, PollWait(s, io))
  {
    hide Capture, Fail, StopCycle;
    CaptureKeepsCycle(s, io.capture);
    StopSameScan(s, 0, io.fail);
    StopSameScan(Capture(s, io.capture).state, 0, io.fail);
  }

  lemma AcquireSameScan(s: State, io: PollIo, captured: bool, transmitted: bool)
    requires Flying(s)
    ensures Calm(s, PollAcquire(s, io, captured, transmitted))
  {
    hide Fail, StopCycle, TxControl.Elapsed;
    var c := s.cycle.(received := s.cycle.received || captured, transmitted := s.cycle.transmitted || transmitted);
    StopSameScan(s.(cycle := c), 0, io.fail);
  }

  lemma MoveSameScan(s: State, io: PollIo)
    requires Flying(s)
    ensures Calm(s, PollPreMove(s, io)) && Calm(s, PollMoving(s, io)) && Calm(s, PollSettling(s, io))
  {
    hide Fail, StopCycle, TxControl.Elapsed, NextDelta, CaptureIndex;
    StopSameScan(s, 0, io.fail);
  }

  lemma PollSameScan(s: State, io: PollIo, captured: bool, transmitted: bool, fault: bool)
    ensures Calm(s, CyclePoll(s, io, captured, transmitted, fault))
  {
    hide Fail, StopCycle, PollWait, PollAcquire, PollPreMove, PollMoving, PollSettling;
    var u := s.(cycle := s.cycle.(lastPoll := io.now));
    StopSameScan(s, 0, io.fail);
    StopSameScan(u, 0, io.fail);
    if Flying(s) {
      WaitSameScan(u, io);
      AcquireSameScan(u, io, captured, transmitted);
      MoveSameScan(u, io);
    }
  }

  lemma AfterSameScan(before: CycleState, s: State, e: Inputs)
    ensures Calm(s, ReportFault(AfterPoll(before, s, e), e.cancelReset))
  {
    hide StopCycle, Fail, Microphone.Cancel;
    StopSameScan(s, e.endNow, e.endIo);
    StopSameScan(s.(inhibited := true, stopRequested := true), e.endNow, e.endIo);
  }

  lemma ListenSameScan(s: State, e: Inputs)
    ensures Calm(s, PollTransmitter(Listen(s, e.mic), e))
  {
    hide TxControl.Poll, Microphone.Poll, Microphone.OnEvent;
  }

  /** After the commands an iteration starts nothing. */
  lemma BodySameScan(s: State, e: Inputs)
    requires KeysFit(e.keys) && Observed(s, e).filling < |Observed(s, e).slots|
    ensures Calm(Commands(s, e), Body(s, e))
  {
    hide Commands, Listen, PollTransmitter, Deliver, CyclePoll, ReportFault, AfterPoll, TxFault, Arrivals;
    hide Publishes, TxControl.Done;
    ListenSameScan(Commands(s, e), e);
    var c := Observed(s, e);
    DeliverSameScan(c);
    var fatal := Arrivals(s, e).inhibited || (Delivers(c) && !c.cycle.stopping && !Publishes(c));
    var fault := fatal || TxFault(Listen(Commands(s, e), e.mic), e) || e.motorFault
                 || Deliver(c).mic.state == Microphone.Fault;
    PollSameScan(Deliver(c), e.poll, Delivers(c), TxControl.Done(c.tx), fault);
    AfterSameScan(c.cycle.state, Polled(s, e), e);
  }

  lemma DeliverSameScan(s: State)
    requires s.filling < |s.slots|
    ensures Calm(s, Deliver(s))
  {
    hide TxControl.Done;
  }

  /** From the wait for a buffer a poll goes on to a capture at most. */
  predicate WaitsOn(c: State, t: State) {
    && c.cycle.state == WaitBuffer && t.run.legs == c.run.legs
    && (t.cycle.state == WaitBuffer || t.cycle.state == Acquire || t.cycle.state == Fault)
  }

  lemma BodyWaits(s: State, e: Inputs)
    requires KeysFit(e.keys) && Observed(s, e).filling < |Observed(s, e).slots|
    ensures Commands(s, e).cycle.state == WaitBuffer ==> WaitsOn(Commands(s, e), Body(s, e))
  {
    hide Commands, Listen, PollTransmitter, Deliver, CyclePoll, StopCycle, Microphone.Cancel, TxFault, Arrivals;
    hide Publishes, TxControl.Done;
    if Commands(s, e).cycle.state == WaitBuffer {
      ListenSameScan(Commands(s, e), e);
      ListenStays(Commands(s, e), e);
      var c := Observed(s, e);
      DeliverTrigger(c);
      var fatal := Arrivals(s, e).inhibited || (Delivers(c) && !c.cycle.stopping && !Publishes(c));
      var fault := fatal || TxFault(Listen(Commands(s, e), e.mic), e) || e.motorFault
                   || Deliver(c).mic.state == Microphone.Fault;
      PollWaits(Deliver(c), e.poll, Delivers(c), TxControl.Done(c.tx), fault);
    }
  }

  lemma ListenStays(s: State, e: Inputs)
    ensures PollTransmitter(Listen(s, e.mic), e).cycle == s.cycle
    ensures PollTransmitter(Listen(s, e.mic), e).run == s.run
  {
    hide TxControl.Poll, Microphone.Poll, Microphone.OnEvent;
  }

  lemma PollWaits(s: State, io: PollIo, captured: bool, transmitted: bool, fault: bool)
    requires s.cycle.state == WaitBuffer
    ensures WaitsOn(s, CyclePoll(s, io, captured, transmitted, fault))
  {
    hide Fail, Capture;
    var u := s.(cycle := s.cycle.(lastPoll := io.now));
    FailEnds(s, io.fail);
    FailEnds(u, io.fail);
    CaptureKeepsCycle(u, io.capture);
    FailEnds(Capture(u, io.capture).state, io.fail);
  }

  // Keys

  /** Nothing started, or one scan, by a key that found the service ready. */
  ghost predicate StartedBy(s: State, t: State, keys: seq<Key>) {
    || SameScan(s, t)
    || (exists i :: 0 <= i < |keys| && Starter(s, t, keys[i]))
  }

  predicate Starter(s: State, t: State, k: Key) {
    && k.Start? && k.canStart && s.armed && IdleCycle(s) && t.cycle.state == WaitBuffer
    && t.starts.tests == s.starts.tests && |t.starts.scans| == |s.starts.scans| + 1
    && t.starts.scans[..|s.starts.scans|] == s.starts.scans
    && t.starts.scans[|s.starts.scans|].durationUs == k.durationUs
    && t.cycle.count == s.cycle.count && FreshRun(s.cycle.count, t.run, t.starts.scans[|s.starts.scans|])
  }

  /** The run of a scan just started: nothing travelled yet, the next capture is its first. */
  predicate FreshRun(count: nat, r: Run, b: Begin) {
    r.positions == b.positions && r.direction == b.direction && r.first == count + 1 && r.legs == []
  }

  lemma KeyStarts(s: State, k: Key, fatal: bool)
    requires k.Start? ==> k.durationUs <= MAX_TX_US
    ensures SameScan(s, Press(s, k, fatal)) || (Starter(s, Press(s, k, fatal), k) && !fatal)
    ensures Flying(s) ==> SameScan(s, Press(s, k, fatal))
    ensures var t := Press(s, k, fatal);
      SameScan(s, t) ==> t.armed == s.armed && t.cycle == s.cycle && t.run == s.run
  {
  }

  lemma {:induction false} KeysStart(s: State, keys: seq<Key>, fatal: bool)
    requires KeysFit(keys)
    ensures StartedBy(s, PressAll(s, keys, fatal), keys)
    ensures fatal ==> SameScan(s, PressAll(s, keys, fatal))
    ensures Flying(s) ==> SameScan(s, PressAll(s, keys, fatal))
    ensures Flying(s) ==> PressAll(s, keys, fatal).cycle == s.cycle && PressAll(s, keys, fatal).run == s.run
    decreases |keys|
  {
    hide Press;
    if keys != [] {
      var m, t := Press(s, keys[0], fatal), PressAll(s, keys, fatal);
      KeyStarts(s, keys[0], fatal);
      KeysStart(m, keys[1..], fatal);
      if SameScan(s, m) {
        if !SameScan(m, t) {
          var i :| 0 <= i < |keys[1..]| && Starter(m, t, keys[1..][i]);
          StarterBefore(s, m, t, keys[i + 1]);
        }
      } else {
        StarterAfter(s, m, t, keys[0]);
      }
    }
  }

  lemma StarterBefore(s: State, m: State, t: State, k: Key)
    requires SameScan(s, m) && m.armed == s.armed && m.cycle == s.cycle && Starter(m, t, k)
    ensures Starter(s, t, k)
  {
  }

  lemma StarterAfter(s: State, m: State, t: State, k: Key)
    requires Starter(s, m, k) && SameScan(m, t) && m.cycle == t.cycle && m.run == t.run
    ensures Starter(s, t, k)
  {
  }

  // Iterations and runs

  lemma HandleStopSameScan(s: State, e: Inputs)
    ensures SameScan(s, HandleStop(Arrivals(s, e), e))
    ensures HandleStop(Arrivals(s, e), e).cycle.count == s.cycle.count
    ensures HandleStop(Arrivals(s, e), e).armed ==> s.armed && !Arrivals(s, e).stopRequested
    ensures IdleCycle(HandleStop(Arrivals(s, e), e)) && !Arrivals(s, e).stopRequested ==> IdleCycle(s)
  {
    hide TxControl.Abort, TxControl.Aborts;
  }

  /** A test counts when the control channel armed it while the sequencer was idle. */
  lemma ControlArms(s: State, e: Inputs, mutable: bool)
    ensures var t := Control(s, e, mutable);
      && t.cycle == s.cycle && t.run == s.run && t.starts.scans == s.starts.scans
      && t.starts.tests == s.starts.tests + (if mutable && e.apply.None? && e.arm then 1 else 0)
      && (t.armed ==> s.armed || (mutable && e.arm)) && t.requested == s.requested && t.prompt == s.prompt
      && (mutable && e.apply.Some? ==> !t.armed) && (s.armed && (!mutable || e.apply.None?) ==> t.armed)
      && (mutable && e.apply.None? && e.arm ==> t.armed)
  {
    hide PollAll;
  }

  /** The scan stays what it was, if there is one, and nothing takes off. */
  predicate NothingStarted(s: State, t: State) {
    && t.starts.scans == s.starts.scans && (Flying(t) ==> Flying(s))
    && t.run == s.run.(legs := t.run.legs, current := t.run.current)
  }

  /** Exactly one scan more, for a key of this iteration; nothing stood in its way. */
  ghost predicate OneStarted(s: State, e: Inputs, t: State) {
    var n := |s.starts.scans|;
    && |t.starts.scans| == n + 1 && t.starts.scans[..n] == s.starts.scans
    && IdleCycle(s) && !s.stopRequested && !s.inhibited && !e.stop && !e.inhibit && (s.armed || e.arm)
    && (t.cycle.state == WaitBuffer || t.cycle.state == Acquire || t.cycle.state == Fault)
    && FreshRun(s.cycle.count, t.run, t.starts.scans[n])
    && exists i :: 0 <= i < |e.keys| && e.keys[i].Start? && e.keys[i].canStart
                   && e.keys[i].durationUs == t.starts.scans[n].durationUs
  }

  lemma CommandsStart(s: State, e: Inputs)
    requires KeysFit(e.keys)
    ensures || NothingStarted(s, Commands(s, e))
            || (OneStarted(s, e, Commands(s, e)) && Commands(s, e).cycle.state == WaitBuffer)
    ensures s.starts.tests <= Commands(s, e).starts.tests <=
            s.starts.tests + (if e.arm && IdleCycle(s) then 1 else 0)
  {
    hide HandleStop, Control, PressAll, PollAll;
    var a := Arrivals(s, e);
    var b := HandleStop(a, e);
    var mutable := !a.inhibited && !a.stopRequested && IdleCycle(b) && b.filling < 0;
    var c := Control(b, e, mutable);
    HandleStopSameScan(s, e);
    ControlArms(b, e, mutable);
    KeysStart(c, e.keys, a.inhibited);
  }

  lemma StaysSo(s: State, e: Inputs, c: State, t: State)
    requires SameScan(c, t)
    ensures NothingStarted(s, c) ==> NothingStarted(s, t)
    ensures OneStarted(s, e, c) && WaitsOn(c, t) ==> OneStarted(s, e, t)
  {
  }

  /**
   One iteration: nothing is started; or exactly one scan is, by a Start key of this iteration that found the service
   ready, in an idle healthy cycle without a stop, with a test armed before or in this iteration.
   */
  lemma ScansStartByKeyOnly(s: State, e: Inputs)
    requires Invariant(s) && Admissible(s, e)
    ensures NothingStarted(s, Next(s, e)) || OneStarted(s, e, Next(s, e))
    ensures s.starts.tests <= Next(s, e).starts.tests <= s.starts.tests + (if e.arm && IdleCycle(s) then 1 else 0)
  {
    hide Invariant, Commands, Body, SameScan, NothingStarted, OneStarted;
    ObservedListens(s, e);
    PendingShape(Observed(s, e), false);
    assert KeysFit(e.keys);
    CommandsStart(s, e);
    BodySameScan(s, e);
    BodyWaits(s, e);
    StaysSo(s, e, Commands(s, e), Next(s, e));
    SameTests(Commands(s, e), Next(s, e));
  }

  lemma SameTests(c: State, t: State)
    requires SameScan(c, t)
    ensures t.starts == c.starts
  {
  }

  /** No two scans with one test: they are at most as many. */
  lemma {:induction false} TestsCount(scans: seq<Begin>, tests: nat, i: nat)
    requires i < |scans| && forall k :: 0 <= k < |scans| ==> BeginSound(scans[k], tests)
    requires forall j, k :: 0 <= j < k < |scans| ==> scans[j].test < scans[k].test
    ensures i + 1 <= scans[i].test
  {
    if i > 0 {
      TestsCount(scans, tests, i - 1);
    }
  }

  /**
   Over every run: each scan was started by a key that found the service ready, with a test that was armed after the
   one before, so scans never outnumber tests; and its positions and direction are those of the number entered. The
   scan in flight is the last one, with its own deadline.
   */
  lemma EveryScanHadItsTest(s: State, es: seq<Inputs>, t: State)
    requires Initial(s) && Invariant(s) && RunsTo(s, es, t)
    ensures |t.starts.scans| <= t.starts.tests
    ensures forall i :: 0 <= i < |t.starts.scans| ==>
      var b := t.starts.scans[i];
      && b.canStart && b.armed && i + 1 <= b.test <= t.starts.tests
      && b.requested != 0 && b.positions == Abs(b.requested) && (b.direction == 1 <==> b.requested > 0)
      && (b.direction == -1 <==> b.requested < 0)
    ensures forall i, j :: 0 <= i < j < |t.starts.scans| ==> t.starts.scans[i].test < t.starts.scans[j].test
    ensures Flying(t) ==>
      && t.starts.scans != []
      && var b := t.starts.scans[|t.starts.scans| - 1];
         t.run.positions == b.positions && t.run.direction == b.direction && t.cycle.txTimeout == b.durationUs + 11000
  {
    hide Next, ScanPart, SlotPart, TxPart, PublishedPart, MotionPart, StopPart;
    RunKeepsInvariant(s, es, t);
    forall i | 0 <= i < |t.starts.scans| ensures i + 1 <= t.starts.scans[i].test {
      TestsCount(t.starts.scans, t.starts.tests, i);
    }
  }

  /**
   A Start key alone, with no prompt open, starts a scan exactly when the service is ready, a number is stored, the
   cycle is idle and healthy, no stop is pending, and a test is armed: before and not disarmed by a configuration, or
   now.
   */
  lemma StartKeyStarts(s: State, e: Inputs)
    requires Invariant(s) && Admissible(s, e) && s.prompt == NoPrompt && |e.keys| == 1 && e.keys[0].Start?
    ensures OneStarted(s, e, Next(s, e)) <==>
      && e.keys[0].canStart && s.requested != 0 && IdleCycle(s)
      && !s.stopRequested && !s.inhibited && !e.stop && !e.inhibit
      && e.apply.None? && (s.armed || e.arm)
  {
    hide Invariant, Commands, Body, SameScan;
    ObservedListens(s, e);
    PendingShape(Observed(s, e), false);
    IdleSlot(s);
    OneKeyCommands(s, e);
    BodySameScan(s, e);
    BodyWaits(s, e);
    SameTests(Commands(s, e), Next(s, e));
    CommandsStart(s, e);
    hide OneStarted, NothingStarted, WaitsOn;
    var c := Commands(s, e);
    if NothingStarted(s, c) {
      NotStarted(s, e, c, c);
      NotStarted(s, e, c, Next(s, e));
    } else {
      StaysSo(s, e, c, Next(s, e));
    }
  }

  lemma NotStarted(s: State, e: Inputs, c: State, t: State)
    requires NothingStarted(s, c) && SameScan(c, t)
    ensures !OneStarted(s, e, t)
  {
  }

  lemma IdleSlot(s: State)
    requires Invariant(s)
    ensures IdleCycle(s) ==> s.filling < 0
  {
  }

  lemma OneKeyCommands(s: State, e: Inputs)
    requires KeysFit(e.keys) && s.prompt == NoPrompt && |e.keys| == 1 && e.keys[0].Start?
    requires IdleCycle(s) ==> s.filling < 0
    ensures OneStarted(s, e, Commands(s, e)) <==>
      && e.keys[0].canStart && s.requested != 0 && IdleCycle(s)
      && !s.stopRequested && !s.inhibited && !e.stop && !e.inhibit
      && e.apply.None? && (s.armed || e.arm)
  {
    hide PollAll, PressAll, StopCycle;
    var a := Arrivals(s, e);
    var b := HandleStop(a, e);
    HandleStopSameScan(s, e);
    var c := Control(b, e, !a.inhibited && !a.stopRequested && IdleCycle(b) && b.filling < 0);
    assert PressAll(c, e.keys, a.inhibited) == Press(c, e.keys[0], a.inhibited) by {
      PressOne(c, e.keys, a.inhibited);
    }
  }

  lemma PressOne(s: State, keys: seq<Key>, fatal: bool)
    requires |keys| == 1 && KeysFit(keys)
    ensures PressAll(s, keys, fatal) == Press(s, keys[0], fatal)
  {
    hide Press;
    assert keys[1..] == [];
  }

  // Settings

  /**
   The keys `n`, a number and Enter, with no prompt open and no stop: in an idle cycle they store the number if it is
   one of 1 to 1000 with either sign, and in flight they store nothing.
   */
  lemma NumberIsStored(s: State, e: Inputs, v: Option<int32>)
    requires Invariant(s) && Admissible(s, e) && s.prompt == NoPrompt && e.keys == [AskPositions, Number(v)]
    requires !s.stopRequested && !e.stop && !e.inhibit
    ensures Next(s, e).requested ==
            if IdleCycle(s) && v.Some? && -1000 <= v.value <= 1000 && v.value != 0 then v.value else s.requested
    ensures Next(s, e).requested != 0 ==> Entered(Next(s, e).scan, Next(s, e).requested)
  {
    hide Invariant, Commands, Body, SameScan;
    ObservedListens(s, e);
    PendingShape(Observed(s, e), false);
    NumberCommands(s, e, v);
    BodySameScan(s, e);
    StoredNumber(Next(s, e));
  }

  /** The keys `n` and `v` open their prompts in an idle cycle only, and the number that answers `v` is not stored. */
  lemma PromptsOpenWhenIdle(s: State, e: Inputs, v: Option<int32>)
    requires Invariant(s) && Admissible(s, e) && s.prompt == NoPrompt && !s.stopRequested && !e.stop && !e.inhibit
    ensures e.keys == [AskPositions] ==> Next(s, e).prompt == if IdleCycle(s) then Positions else NoPrompt
    ensures e.keys == [AskDivisor] ==> Next(s, e).prompt == if IdleCycle(s) then Divisor else NoPrompt
    ensures e.keys == [AskDivisor, Number(v)] ==> Next(s, e).requested == s.requested && Next(s, e).prompt == NoPrompt
  {
    hide Invariant, Commands, Body, SameScan;
    ObservedListens(s, e);
    PendingShape(Observed(s, e), false);
    assert KeysFit(e.keys);
    PromptCommands(s, e, v);
    BodySameScan(s, e);
  }

  lemma PromptCommands(s: State, e: Inputs, v: Option<int32>)
    requires KeysFit(e.keys) && s.prompt == NoPrompt && !s.stopRequested && !e.stop && !e.inhibit
    ensures e.keys == [AskPositions] ==> Commands(s, e).prompt == if IdleCycle(s) then Positions else NoPrompt
    ensures e.keys == [AskDivisor] ==> Commands(s, e).prompt == if IdleCycle(s) then Divisor else NoPrompt
    ensures e.keys == [AskDivisor, Number(v)] ==>
      Commands(s, e).requested == s.requested && Commands(s, e).prompt == NoPrompt
  {
    hide PollAll, PressAll, StopCycle;
    var a := Arrivals(s, e);
    var c := Control(a, e, !a.inhibited && IdleCycle(a) && a.filling < 0);
    assert c.prompt == s.prompt && c.requested == s.requested && c.cycle == s.cycle;
    assert Commands(s, e) == PressAll(c, e.keys, a.inhibited);
    hide Control, Commands, HandleStop;
    if |e.keys| == 1 {
      PressOne(c, e.keys, a.inhibited);
    } else if e.keys == [AskDivisor, Number(v)] {
      assert e.keys[1..] == [Number(v)];
      PressMore(c, e.keys, a.inhibited);
      PressOne(Press(c, AskDivisor, a.inhibited), [Number(v)], a.inhibited);
    }
  }

  /** A stop closes whatever prompt was open. */
  lemma StopClosesPrompt(s: State, e: Inputs)
    requires Invariant(s) && Admissible(s, e) && (s.stopRequested || e.stop || e.inhibit) && e.keys == []
    ensures Next(s, e).prompt == NoPrompt
  {
    hide Invariant, Commands, Body, SameScan;
    ObservedListens(s, e);
    PendingShape(Observed(s, e), false);
    StoppedPrompt(s, e);
    BodySameScan(s, e);
  }

  lemma StoppedPrompt(s: State, e: Inputs)
    requires (s.stopRequested || e.stop || e.inhibit) && e.keys == []
    ensures KeysFit(e.keys) && Commands(s, e).prompt == NoPrompt
  {
    hide PollAll, StopCycle;
  }

  lemma StoredNumber(s: State)
    requires Invariant(s)
    ensures s.requested != 0 ==> Entered(s.scan, s.requested)
  {
    hide Planned, TxControl.Sound, Microphone.Sound;
  }

  lemma NumberCommands(s: State, e: Inputs, v: Option<int32>)
    requires KeysFit(e.keys) && s.prompt == NoPrompt && e.keys == [AskPositions, Number(v)]
    requires !s.stopRequested && !e.stop && !e.inhibit
    ensures Commands(s, e).requested ==
            if IdleCycle(s) && v.Some? && -1000 <= v.value <= 1000 && v.value != 0 then v.value else s.requested
  {
    hide PollAll, PressAll, StopCycle;
    var a := Arrivals(s, e);
    var c := Control(a, e, !a.inhibited && IdleCycle(a) && a.filling < 0);
    assert c.prompt == s.prompt && c.requested == s.requested && c.cycle == s.cycle;
    assert Commands(s, e) == PressAll(c, e.keys, a.inhibited);
    hide Control, Commands, HandleStop;
    var p := Press(c, e.keys[0], a.inhibited);
    assert e.keys[1..] == [Number(v)];
    PressMore(c, e.keys, a.inhibited);
    PressOne(p, [Number(v)], a.inhibited);
  }

  lemma PressMore(s: State, keys: seq<Key>, fatal: bool)
    requires keys != [] && KeysFit(keys)
    ensures PressAll(s, keys, fatal) == PressAll(Press(s, keys[0], fatal), keys[1..], fatal)
  {
    hide Press;
  }
}
