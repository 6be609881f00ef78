/** Every scan that starts can be finished: a run for any number of positions, from its start to its end. */
module ScanCompletes {
  import opened MachineIntegers
  import opened Options
  import opened AudioLimits
  import opened Scan360
  import opened ScanSequencer
  import opened ScanSafety
  import opened ScanRuns
  import opened ScanProgress
  import opened ScanExamples
  import FramePool
  import TxControl
  import Microphone

  /** The longest a position takes in these runs. */
  const POSITION_US := 5000000

  // What the environment does

  /** The sender has delivered and freed every frame. */
  function Cleared(slots: seq<FramePool.SlotState>): (r: seq<FramePool.SlotState>)
    ensures |r| == |slots| && SenderMay(slots, r)
    ensures forall i :: 0 <= i < |r| ==>
      r[i] == if slots[i] == FramePool.Filling then FramePool.Filling else FramePool.Free
  {
    seq(|slots|, i requires 0 <= i < |slots| =>
      if slots[i] == FramePool.Filling then FramePool.Filling else FramePool.Free)
  }

  function Letting(now: uint64): TxControl.AbortIo {
    TxControl.AbortIo(true, true, TxControl.Sample(QUIET, now), [], QUIET)
  }

  /** One iteration in which every peripheral does what it is asked to, at `now`. */
  function Pass(s: State, now: uint64): Inputs {
    var sample := TxControl.Sample(QUIET, now);
    var stop := StopIo(true, true, Letting(now));
    Inputs(false, false, Cleared(s.slots), now, stop, [], None, false, [],
           MicIo(None, 0, true, true, true), sample, sample, false,
           PollIo(now, true, true,
                  CaptureIo(sample, true, QUIET, false, false, Letting(now), true, true, true, true, true, true, 0,
                            now),
                  stop),
           true, now, stop, true)
  }

  /** The same with the completion of capture and transmission. */
  function Completion(s: State, now: uint64): Inputs {
    var sample := TxControl.Sample(ENDED, now);
    Pass(s, now).(mic := MicIo(Some(Microphone.Event(1, false, false, true, ACQ_BYTES, 0)), 0, true, true, true),
                  errorPoll := sample, donePoll := sample)
  }

  // Where the run stands

  /** Nothing wrong, no stop, and transmitter and capture object at rest. */
  predicate Poised(s: State) {
    && !s.stopRequested && !s.inhibited && s.filling == -1 && s.mic.state == Microphone.Idle
    && s.tx.initialized && s.tx.applied && !s.tx.fault && !s.tx.running && !s.tx.prepared
  }

  /** Nothing wrong, no stop, and one capture under way. */
  predicate Recording(s: State) {
    && !s.stopRequested && !s.inhibited && 0 <= s.filling < |s.slots| && s.slots[s.filling] == FramePool.Filling
    && s.mic == Microphone.Mic(Microphone.Capturing, Microphone.Fine, s.filling, ACQ_BYTES, CAPTURE_TICKS, 1, 0, true)
    && s.tx.initialized && s.tx.applied && !s.tx.fault && s.tx.running && !s.tx.prepared && !s.tx.baseline
    && s.cycle.state == Acquire && !s.cycle.stopping
  }

  /** What the next stage keeps: the scan and its plan, the clock, and nothing wrong. */
  predicate Stands(s: State, state: CycleState, now: nat) {
    Poised(s) && s.cycle.state == state && !s.cycle.stopping && s.cycle.lastPoll == now && s.cycle.trigger <= now
  }

  lemma PassAdmissible(s: State, now: uint64)
    requires s.cycle.trigger <= now
    ensures Admissible(s, Pass(s, now)) && Admissible(s, Completion(s, now))
  {
    hide Cleared;
  }

  /** An iteration at rest is its poll. */
  lemma PassIsPoll(s: State, now: uint64)
    requires Invariant(s) && Poised(s) && s.cycle.trigger <= now
    ensures Admissible(s, Pass(s, now))
    ensures var e := Pass(s, now);
      Next(s, e) == ReportFault(AfterPoll(s.cycle.state,
        CyclePoll(s.(slots := e.sender), e.poll, false, TxControl.Done(s.tx), false), e), true)
  {
    hide Invariant, Commands, Observed, Polled, CyclePoll, AfterPoll, ReportFault, Admissible;
    var e := Pass(s, now);
    PassAdmissible(s, now);
    NoCommands(s, e);
    QuietPoll(s, e, s.(slots := e.sender));
  }

  lemma AllFree(slots: seq<FramePool.SlotState>)
    requires |slots| == FramePool.POOL_COUNT && forall i :: 0 <= i < |slots| ==> slots[i] != FramePool.Filling
    ensures FirstFree(Cleared(slots)) == 0
  {
    assert Cleared(slots)[0] == FramePool.Free;
  }

  lemma NothingFilling(s: State)
    requires Invariant(s) && Poised(s)
    ensures |s.slots| == FramePool.POOL_COUNT && forall i :: 0 <= i < |s.slots| ==> s.slots[i] != FramePool.Filling
  {
    hide Planned, TxControl.Sound, Microphone.Sound;
  }

  /** The next capture is triggered. */
  lemma Shoot(s: State, now: uint64)
    requires Invariant(s) && Stands(s, WaitBuffer, s.cycle.lastPoll) && s.cycle.lastPoll <= now
    requires s.cycle.count < UINT32_MAX
    ensures Admissible(s, Pass(s, now))
    ensures var t := Next(s, Pass(s, now));
      && Recording(t) && t.cycle.lastPoll == t.cycle.trigger == now && t.cycle.count == s.cycle.count + 1
      && t.run == s.run.(current := t.run.current) && t.published == s.published
  {
    hide Invariant, Cleared, PollAcquire, PollPreMove, PollMoving, PollSettling, Fail, StopCycle;
    PassIsPoll(s, now);
    NothingFilling(s);
    AllFree(s.slots);
    hide Next, Poised;
    var p := s.(slots := Cleared(s.slots), cycle := s.cycle.(lastPoll := now));
    FirstShot(s, p, now);
  }

  lemma FirstShot(s: State, p: State, now: uint64)
    requires p == s.(slots := Cleared(s.slots), cycle := s.cycle.(lastPoll := now)) && Poised(s)
    requires s.cycle.state == WaitBuffer && !s.cycle.stopping && s.cycle.count < UINT32_MAX
    requires FirstFree(p.slots) == 0 && |p.slots| > 0
    ensures var t := PollWait(p, Pass(s, now).poll);
      && Recording(t) && t.cycle.lastPoll == t.cycle.trigger == now && t.cycle.count == s.cycle.count + 1
      && t.run == s.run.(current := t.run.current) && t.published == s.published
  {
    hide Cleared, Fail;
  }

  /** Capture and transmission complete: the frame is published. */
  lemma Expose(s: State, now: uint64)
    requires Invariant(s) && Recording(s) && s.cycle.trigger <= now && s.cycle.lastPoll <= now
    ensures Admissible(s, Completion(s, now))
    ensures var t := Next(s, Completion(s, now));
      && Stands(t, PreMove, now) && t.cycle.trigger == s.cycle.trigger && t.cycle.count == s.cycle.count
      && t.run == s.run.(current := t.run.current) && |t.published| == |s.published| + 1
  {
    hide Invariant, Cleared, PollWait, PollPreMove, PollMoving, PollSettling, Fail, StopCycle, Commands, Observed;
    var e := Completion(s, now);
    PassAdmissible(s, now);
    NoCommands(s, e);
    ShotIsUnderWay(s);
    CompletionIsSeen(s, now);
    assert TxFault(Listen(Commands(s, e), e.mic), e) == false by {
      SeenInTime(s, now);
    }
    hide Listen, TxFault;
    var c := Observed(s, e);
    var d := Deliver(c);
    assert Publishes(c);
    assert Polled(s, e) == CyclePoll(d, e.poll, true, true, false);
    hide Deliver, Publishes, Polled;
    assert Polled(s, e).cycle.state == PreMove;
    hide CyclePoll;
  }

  lemma CompletionIsSeen(s: State, now: uint64)
    requires Recording(s)
    ensures var e := Completion(s, now);
      && KeysFit(e.keys)
      && Observed(s, e) ==
           s.(slots := e.sender, mic := s.mic.(state := Microphone.Ready, dmaOwned := false),
              tx := s.tx.(running := false, completed := true, ending := Some(ENDED)))
  {
    hide Cleared, Commands;
    NoCommands(s, Completion(s, now));
  }

  lemma SeenInTime(s: State, now: uint64)
    requires Recording(s)
    ensures var e := Completion(s, now); KeysFit(e.keys) && !TxFault(Listen(Commands(s, e), e.mic), e)
  {
    hide Cleared, Commands;
    NoCommands(s, Completion(s, now));
  }

  lemma ShotIsUnderWay(s: State)
    requires Invariant(s) && Recording(s)
    ensures s.run.current.Shot? && !s.cycle.received && |s.slots| == FramePool.POOL_COUNT
  {
    hide Planned, TxControl.Sound, Microphone.Sound;
  }

  /** The move starts. */
  lemma SetOff(s: State, now: uint64)
    requires Invariant(s) && Stands(s, PreMove, s.cycle.lastPoll) && s.cycle.lastPoll <= now
    requires s.cycle.trigger + 2000000 <= now
    ensures Admissible(s, Pass(s, now))
    ensures var t := Next(s, Pass(s, now));
      && Stands(t, Moving, now) && t.cycle.since == now && t.cycle.count == s.cycle.count
      && t.run == s.run.(current := t.run.current) && t.published == s.published
  {
    hide Invariant, Cleared, PollWait, PollAcquire, PollMoving, PollSettling, Fail, StopCycle, NextDelta, CaptureIndex;
    PassIsPoll(s, now);
    PreMoveScan(s);
    hide Next;
  }

  /** The motor arrives. */
  lemma Arrive(s: State, now: uint64)
    requires Invariant(s) && Stands(s, Moving, s.cycle.lastPoll) && s.cycle.lastPoll <= now
    requires now < s.cycle.since + 300000000
    ensures Admissible(s, Pass(s, now))
    ensures var t := Next(s, Pass(s, now));
      && Stands(t, Settling, now) && t.cycle.since == now && t.cycle.count == s.cycle.count
      && |t.run.legs| == |s.run.legs| + 1 && t.run == s.run.(legs := t.run.legs, current := Nothing)
      && t.published == s.published
  {
    hide Invariant, Cleared, PollWait, PollAcquire, PollPreMove, PollSettling, Fail, StopCycle;
    PassIsPoll(s, now);
    MovingScan(s);
    hide Next;
  }

  /** It has settled: the scan waits for its next capture, or ends. */
  lemma Settle(s: State, now: uint64)
    requires Invariant(s) && Stands(s, Settling, s.cycle.lastPoll) && s.cycle.lastPoll <= now
    requires s.cycle.since + 2000000 <= now
    ensures Admissible(s, Pass(s, now))
    ensures var t := Next(s, Pass(s, now));
      && t.run == s.run && t.published == s.published && t.cycle.count == s.cycle.count
      && |s.run.legs| <= s.run.positions
      && if |s.run.legs| < s.run.positions then Stands(t, WaitBuffer, now) else t.cycle.state == Stopped
  {
    hide Invariant, Cleared, PollWait, PollAcquire, PollPreMove, PollMoving, Fail, StopCycle, StopOutputs, Stops;
    PassIsPoll(s, now);
    SettlingScan(s);
    LetsGo(s, now);
    hide Next;
    var p := s.(slots := Cleared(s.slots), cycle := s.cycle.(state := WaitBuffer, since := now, lastPoll := now));
    NotUnderWay(s);
    StopLeaves(p, now, StopIo(true, true, Letting(now)));
    SameStop(s, p, now);
  }

  lemma NotUnderWay(s: State)
    requires Invariant(s) && s.cycle.state == Settling
    ensures s.motion != Underway
  {
    hide Planned, TxControl.Sound, Microphone.Sound;
  }

  lemma SameStop(s: State, p: State, now: uint64)
    requires p.tx == s.tx
    ensures Stops(p, StopIo(true, true, Letting(now))) == Stops(s, StopIo(true, true, Letting(now)))
  {
    hide TxControl.Aborts;
  }

  lemma LetsGo(s: State, now: uint64)
    requires !s.tx.running && !s.tx.fault
    ensures Stops(s, StopIo(true, true, Letting(now)))
  {
  }

  // Whole positions, whole scans

  /** Waiting to capture position `|legs|`, with time and numbers left for the rest of the scan. */
  predicate Ready(s: State) {
    && Stands(s, WaitBuffer, s.cycle.lastPoll) && |s.run.legs| < s.run.positions
    && s.cycle.count + s.run.positions - |s.run.legs| <= UINT32_MAX
    && s.cycle.lastPoll + POSITION_US * (s.run.positions - |s.run.legs|) < 0x1_0000_0000_0000_0000
  }

  lemma NothingMore(t: State)
    requires Invariant(t)
    ensures RunsTo(t, [], t)
  {
    hide Invariant;
  }

  lemma Joined(s: State, e: Inputs, rest: seq<Inputs>, t: State)
    requires Invariant(s) && Admissible(s, e) && RunsTo(Next(s, e), rest, t)
    ensures RunsTo(s, [e] + rest, t)
  {
    hide Invariant, Admissible, Next;
    assert ([e] + rest)[1..] == rest;
  }

  lemma {:induction false} RunsOn(s: State, a: seq<Inputs>, t: State, b: seq<Inputs>, u: State)
    requires Invariant(s) && RunsTo(s, a, t) && Invariant(t) && RunsTo(t, b, u)
    ensures RunsTo(s, a + b, u)
    decreases |a|
  {
    hide Invariant, Admissible, Next;
    if a == [] {
      assert a + b == b;
    } else {
      assert (a + b)[1..] == a[1..] + b;
      RunsOn(Next(s, a[0]), a[1..], t, b, u);
    }
  }

  lemma OnePosition(s: State) returns (es: seq<Inputs>, t: State)
    requires Invariant(s) && Ready(s)
    ensures RunsTo(s, es, t) && Invariant(t) && |t.published| == |s.published| + 1
    ensures |t.run.legs| == |s.run.legs| + 1 && t.run == s.run.(legs := t.run.legs, current := Nothing)
    ensures if |t.run.legs| < t.run.positions then Ready(t) else t.cycle.state == Stopped
  {
    hide Invariant, Next, Admissible, Pass, Completion, Recording, Poised;
    var now := s.cycle.lastPoll;
    Shoot(s, now);
    var a := Next(s, Pass(s, now));
    Expose(a, now + 50000);
    var b := Next(a, Completion(a, now + 50000));
    SetOff(b, now + 2000000);
    var c := Next(b, Pass(b, now + 2000000));
    Arrive(c, now + 3000000);
    var d := Next(c, Pass(c, now + 3000000));
    Settle(d, now + 5000000);
    t := Next(d, Pass(d, now + 5000000));
    es := [Pass(s, now), Completion(a, now + 50000), Pass(b, now + 2000000), Pass(c, now + 3000000),
           Pass(d, now + 5000000)];
    NothingMore(t);
    Joined(d, es[4], [], t);
    Joined(c, es[3], [es[4]], t);
    Joined(b, es[2], [es[3]] + [es[4]], t);
    Joined(a, es[1], [es[2]] + ([es[3]] + [es[4]]), t);
    Joined(s, es[0], [es[1]] + ([es[2]] + ([es[3]] + [es[4]])), t);
    assert [es[4]] + [] == [es[4]];
    assert es == [es[0]] + ([es[1]] + ([es[2]] + ([es[3]] + [es[4]])));
  }

  /**
   A scan that waits for its next capture, with nothing wrong, can be carried to its end: as many captures published and
   moves made as are left, one revolution in all, and the cycle stopped.
   */
  lemma {:induction false} EveryScanCanFinish(s: State) returns (es: seq<Inputs>, t: State)
    requires Invariant(s) && Ready(s)
    ensures RunsTo(s, es, t) && Invariant(t) && t.cycle.state == Stopped
    ensures t.run == s.run.(legs := t.run.legs, current := Nothing) && |t.run.legs| == s.run.positions
    ensures |t.published| == |s.published| + s.run.positions - |s.run.legs|
    ensures MoveSum(t.run.legs, |t.run.legs|) == t.run.direction * REVOLUTION_STEPS
    decreases s.run.positions - |s.run.legs|
  {
    hide Invariant, Ready, MoveSum;
    PositionsLeft(s);
    var first, m := OnePosition(s);
    if |m.run.legs| < m.run.positions {
      var rest;
      rest, t := EveryScanCanFinish(m);
      es := first + rest;
      RunsOn(s, first, m, rest, t);
    } else {
      es, t := first, m;
      LegsFit(m);
      WholeRevolution(s, m);
    }
  }

  lemma PositionsLeft(s: State)
    requires Invariant(s) && Ready(s)
    ensures |s.run.legs| < s.run.positions && Follows(s)
  {
    hide Planned, TxControl.Sound, Microphone.Sound;
  }

  lemma LegsFit(t: State)
    requires Invariant(t)
    ensures Planned(t.run) && |t.run.legs| <= t.run.positions
  {
  }

  lemma WholeRevolution(s: State, t: State)
    requires Follows(s) && Planned(t.run) && |t.run.legs| == t.run.positions
    requires t.run.positions == s.run.positions && t.run.direction == s.run.direction
    ensures MoveSum(t.run.legs, |t.run.legs|) == t.run.direction * REVOLUTION_STEPS
  {
    hide Planned, Travelled, MoveSum;
    MovesAreTravelled(t.run, |t.run.legs|);
    ScanIsOneRevolution(s.scan.(started := 0), s.scan.positions);
  }
}
