/**
 The experiment task and the delivery of its captures side by side: each iteration of the task is a sequence of
 capture-task steps of the delivery protocol, so what is proved of the protocol holds for what the task publishes.
 */
module Publication {
  import opened MachineIntegers
  import opened AudioLimits
  import opened Scan360
  import opened ScanSequencer
  import opened ScanSafety
  import opened ScanRuns
  import CaptureDelivery
  import FramePool
  import HostStore
  import Microphone
  import TxControl

  /** The pool as the experiment task sees it. */
  function States(slots: seq<FramePool.Slot>): (r: seq<FramePool.SlotState>)
    ensures |r| == |slots| && forall i :: 0 <= i < |slots| ==> r[i] == slots[i].state
  {
    seq(|slots|, i requires 0 <= i < |slots| => slots[i].state)
  }

  /** Both sides have the same slots, cycle count, capture in progress and published sequence numbers. */
  ghost predicate Agree(s: State, d: CaptureDelivery.State) {
    && CaptureDelivery.Shape(d) && s.slots == States(d.slots) && s.cycle.count == d.cycle
    && s.filling == (if d.capture.NoCapture? then -1 else d.capture.slot)
    && (LiveMic(s) ==> d.capture.Recording?)
    && |s.published| == |d.published|
    && forall i :: 0 <= i < |s.published| ==> s.published[i].sequence == d.published[i].meta.sequence
  }

  /** What is published is labelled with the cycle count and with identities of this boot. */
  predicate Labelled(meta: FramePool.Meta, payload: seq<uint8>, count: nat, boot: seq<uint32>) {
    meta.sequence == count && meta.bootId == boot && HostStore.Identified(meta) && payload != []
  }

  // The task's steps

  function DeliverySteps(c: State, meta: FramePool.Meta, payload: seq<uint8>): seq<CaptureDelivery.Action> {
    if !Delivers(c) then []
    else if c.cycle.stopping then [CaptureDelivery.DiscardCapture]
    else [CaptureDelivery.PublishCapture(meta, payload)]
  }

  /** Once a slot is reserved and the transmitter prepared. */
  function LaunchSteps(s: State, io: CaptureIo): seq<CaptureDelivery.Action> {
    if s.stopRequested || s.inhibited then [CaptureDelivery.CancelCapture]
    else if io.speaker && io.prepared && io.armed && io.rise && io.fell then [CaptureDelivery.TriggerCapture]
    else []
  }

  function CaptureSteps(s: State, io: CaptureIo): seq<CaptureDelivery.Action> {
    var slot := FirstFree(s.slots);
    if slot < 0 then []
    else
      [CaptureDelivery.AcquireSlot(slot)] +
      if TxControl.Prepares(s.tx, io.prepare, io.low, io.status)
      then LaunchSteps(s.(stopRequested := s.stopRequested || io.stop || io.inhibit,
                          inhibited := s.inhibited || io.inhibit), io)
      else []
  }

  function PollSteps(s: State, io: PollIo, fault: bool): seq<CaptureDelivery.Action> {
    if s.cycle.state == WaitBuffer && s.cycle.lastPoll <= io.now && !fault && s.cycle.count < UINT32_MAX
    then CaptureSteps(s, io.capture) else []
  }

  /** What is a fault to the poll of an iteration. */
  predicate PollFault(s: State, e: Inputs)
    requires KeysFit(e.keys) && Observed(s, e).filling < |Observed(s, e).slots|
  {
    var c := Observed(s, e);
    || Arrivals(s, e).inhibited || (Delivers(c) && !c.cycle.stopping && !Publishes(c))
    || TxFault(Listen(Commands(s, e), e.mic), e) || e.motorFault || Deliver(c).mic.state == Microphone.Fault
  }

  function TaskSteps(s: State, e: Inputs, meta: FramePool.Meta, payload: seq<uint8>): seq<CaptureDelivery.Action>
    requires KeysFit(e.keys) && Observed(s, e).filling < |Observed(s, e).slots|
  {
    var c := Observed(s, e);
    DeliverySteps(c, meta, payload) + PollSteps(Deliver(c), e.poll, PollFault(s, e))
  }

  // What leaves pool and capture alone

  predicate SamePool(s: State, t: State) {
    && t.slots == s.slots && t.filling == s.filling && t.cycle.count == s.cycle.count && t.published == s.published
    && (LiveMic(t) ==> LiveMic(s))
  }

  lemma SameAgrees(s: State, t: State, d: CaptureDelivery.State)
    requires Agree(s, d) && SamePool(s, t)
    ensures Agree(t, d)
  {
  }

  lemma StopSamePool(s: State, now: uint64, io: StopIo)
    ensures SamePool(s, StopCycle(s, now, io)) && SamePool(s, Fail(s, io))
  {
    hide TxControl.Abort, TxControl.Aborts;
  }

  lemma {:induction false} KeysSamePool(s: State, keys: seq<Key>, fatal: bool)
    requires KeysFit(keys)
    ensures SamePool(s, PressAll(s, keys, fatal))
    decreases |keys|
  {
    hide Press;
    if keys != [] {
      KeySamePool(s, keys[0], fatal);
      KeysSamePool(Press(s, keys[0], fatal), keys[1..], fatal);
    }
  }

  lemma KeySamePool(s: State, k: Key, fatal: bool)
    requires k.Start? ==> k.durationUs <= MAX_TX_US
    ensures SamePool(s, Press(s, k, fatal))
  {
  }

  lemma CommandsSamePool(s: State, e: Inputs)
    requires KeysFit(e.keys)
    ensures SamePool(Arrivals(s, e), Commands(s, e))
  {
    hide StopCycle, PressAll, PollAll, Press, Fail;
    var a := Arrivals(s, e);
    StopSamePool(a.(stopRequested := false), e.stopNow, e.stopIo);
    var b := HandleStop(a, e);
    KeysSamePool(Control(b, e, !a.inhibited && !a.stopRequested && IdleCycle(b) && b.filling < 0), e.keys, a.inhibited);
  }

  lemma ObservedSamePool(s: State, e: Inputs)
    requires Invariant(s) && Admissible(s, e)
    ensures KeysFit(e.keys) && SamePool(Arrivals(s, e), Observed(s, e))
  {
    hide Invariant, Commands, Arrivals, TxControl.Poll, Listen, Microphone.Sound;
    ObservedListens(s, e);
    CommandsSamePool(s, e);
    SoundMic(Commands(s, e));
    ListenKeeps(Commands(s, e), e.mic);
  }

  lemma SoundMic(s: State)
    requires Invariant(s)
    ensures Microphone.Sound(s.mic)
  {
  }

  lemma AfterSamePool(before: CycleState, s: State, e: Inputs)
    ensures SamePool(s, ReportFault(AfterPoll(before, s, e), e.cancelReset))
  {
    hide StopCycle, Fail;
    StopSamePool(s, e.endNow, e.endIo);
    StopSamePool(s.(inhibited := true, stopRequested := true), e.endNow, e.endIo);
  }

  lemma AcquireSamePool(s: State, io: PollIo, captured: bool, transmitted: bool)
    ensures SamePool(s, PollAcquire(s, io, captured, transmitted))
  {
    hide Fail, StopCycle, TxControl.Elapsed;
    var c := s.cycle.(received := s.cycle.received || captured, transmitted := s.cycle.transmitted || transmitted);
    StopSamePool(s.(cycle := c), 0, io.fail);
  }

  lemma MoveSamePool(s: State, io: PollIo)
    ensures SamePool(s, PollPreMove(s, io)) && SamePool(s, PollMoving(s, io)) && SamePool(s, PollSettling(s, io))
  {
    hide Fail, StopCycle, TxControl.Elapsed, NextDelta, CaptureIndex;
    StopSamePool(s, 0, io.fail);
  }

  // The capture task's steps are enabled

  lemma FirstFreeIsFirst(slots: seq<FramePool.Slot>)
    ensures FramePool.IsFirstFree(slots, FirstFree(States(slots)))
  {
    LowestFree(States(slots));
  }

  lemma {:induction false} LowestFree(states: seq<FramePool.SlotState>)
    ensures forall k :: 0 <= k < |states| && (k < FirstFree(states) || FirstFree(states) < 0) ==>
              states[k] != FramePool.Free
    decreases |states|
  {
    if states != [] && states[0] != FramePool.Free {
      LowestFree(states[1..]);
      forall k | 0 < k < |states| && (k < FirstFree(states) || FirstFree(states) < 0)
        ensures states[k] != FramePool.Free
      {
        assert states[1..][k - 1] == states[k];
      }
    }
  }

  /** A live capture, as the protocol sees it. */
  lemma LiveIsRecording(c: State, d: CaptureDelivery.State)
    requires Pending(c, false) && Agree(c, d) && Delivers(c)
    ensures d.capture == CaptureDelivery.Recording(c.filling) && c.sequence == d.cycle && c.filling < |d.slots|
    ensures Microphone.Sound(c.mic) && (!c.cycle.stopping ==> Publishes(c))
  {
    hide TxControl.Done;
    DeliverReaches(c);
  }

  lemma PublishAgrees(c: State, d: CaptureDelivery.State, meta: FramePool.Meta, payload: seq<uint8>)
    requires 0 <= c.filling < |c.slots| && Publishes(c) && Agree(c, d) && Microphone.Sound(c.mic)
    requires d.capture == CaptureDelivery.Recording(c.filling) && c.sequence == d.cycle == meta.sequence
    ensures Agree(Deliver(c), CaptureDelivery.Apply(d, CaptureDelivery.PublishCapture(meta, payload)))
  {
    hide TxControl.Done;
  }

  lemma DiscardAgrees(c: State, d: CaptureDelivery.State)
    requires 0 <= c.filling < |c.slots| && Delivers(c) && c.cycle.stopping && Agree(c, d) && Microphone.Sound(c.mic)
    requires d.capture == CaptureDelivery.Recording(c.filling)
    ensures Agree(Deliver(c), CaptureDelivery.Apply(d, CaptureDelivery.DiscardCapture))
  {
    hide TxControl.Done;
  }

  /** A complete capture is published or discarded as the protocol allows. */
  lemma DeliveryAgrees(c: State, d: CaptureDelivery.State, meta: FramePool.Meta, payload: seq<uint8>)
    returns (u: CaptureDelivery.State)
    requires Pending(c, false) && Agree(c, d) && CaptureDelivery.Invariant(d)
    requires Labelled(meta, payload, c.cycle.count, d.boot)
    ensures c.filling < |c.slots|
    ensures CaptureDelivery.Reaches(d, DeliverySteps(c, meta, payload), u) && CaptureDelivery.Invariant(u)
    ensures Agree(Deliver(c), u) && u.boot == d.boot
  {
    hide CaptureDelivery.Invariant, Pending, Delivers, Publishes, Deliver, Agree;
    PendingShape(c, false);
    u := d;
    if Delivers(c) {
      LiveIsRecording(c, d);
      assert CaptureDelivery.Shape(d) by {
        AgreeShape(c, d);
      }
      if c.cycle.stopping {
        CaptureDelivery.ReachesOne(d, CaptureDelivery.DiscardCapture);
        u := CaptureDelivery.Next(d, CaptureDelivery.DiscardCapture);
        DiscardAgrees(c, d);
      } else {
        var a := CaptureDelivery.PublishCapture(meta, payload);
        assert d.cycle == c.cycle.count by {
          AgreeShape(c, d);
        }
        CaptureDelivery.ReachesOne(d, a);
        u := CaptureDelivery.Next(d, a);
        PublishAgrees(c, d, meta, payload);
      }
    } else {
      NothingDelivered(c);
    }
  }

  lemma AgreeShape(s: State, d: CaptureDelivery.State)
    requires Agree(s, d)
    ensures CaptureDelivery.Shape(d) && d.cycle == s.cycle.count && |d.slots| == |s.slots|
  {
  }

  lemma NothingDelivered(c: State)
    requires !Delivers(c) && c.filling < |c.slots|
    ensures Deliver(c) == c
  {
  }

  /** Reserving the lowest free slot. */
  lemma AcquireAgrees(s: State, d: CaptureDelivery.State, slot: nat) returns (v: CaptureDelivery.State)
    requires Agree(s, d) && CaptureDelivery.Invariant(d) && slot == FirstFree(s.slots) && s.filling == -1 && !LiveMic(s)
    ensures CaptureDelivery.Reaches(d, [CaptureDelivery.AcquireSlot(slot)], v) && CaptureDelivery.Invariant(v)
    ensures Agree(s.(filling := slot, slots := s.slots[slot := FramePool.Filling]), v)
    ensures v.boot == d.boot && v.capture == CaptureDelivery.Armed(slot) && v.cycle == d.cycle
  {
    hide CaptureDelivery.Invariant;
    FirstFreeIsFirst(d.slots);
    var a := CaptureDelivery.AcquireSlot(slot);
    CaptureDelivery.ReachesOne(d, a);
    v := CaptureDelivery.Next(d, a);
  }

  /** The state after an attempt: the cycle counts a capture that was triggered. */
  function Attempted(r: Attempt, now: uint64, trigger: uint64): State
    requires r.state.cycle.count < UINT32_MAX
  {
    if r.result > 0 then Begun(r.state, now, trigger) else r.state
  }

  lemma CancelAgrees(a: State, io: CaptureIo, v: CaptureDelivery.State)
    requires 0 <= a.filling < |a.slots| && Agree(a, v) && v.capture == CaptureDelivery.Armed(a.filling)
    requires a.stopRequested || a.inhibited
    ensures Launch(a, io).result <= 0
    ensures Agree(Launch(a, io).state, CaptureDelivery.Apply(v, CaptureDelivery.CancelCapture))
  {
    hide TxControl.Abort, TxControl.Aborts;
  }

  lemma LaunchAgrees(a: State, io: CaptureIo, v: CaptureDelivery.State, now: uint64, trigger: uint64)
    returns (u: CaptureDelivery.State)
    requires 0 <= a.filling < |a.slots| && Agree(a, v) && CaptureDelivery.Invariant(v)
    requires v.capture == CaptureDelivery.Armed(a.filling) && a.cycle.count < UINT32_MAX && !LiveMic(a)
    ensures CaptureDelivery.Reaches(v, LaunchSteps(a, io), u) && CaptureDelivery.Invariant(u) && u.boot == v.boot
    ensures Launch(a, io).state.cycle == a.cycle && Agree(Attempted(Launch(a, io), now, trigger), u)
  {
    hide CaptureDelivery.Invariant;
    if a.stopRequested || a.inhibited {
      CancelAgrees(a, io, v);
      CaptureDelivery.ReachesOne(v, CaptureDelivery.CancelCapture);
      u := CaptureDelivery.Next(v, CaptureDelivery.CancelCapture);
    } else if io.speaker && io.prepared && io.armed && io.rise && io.fell {
      CaptureDelivery.ReachesOne(v, CaptureDelivery.TriggerCapture);
      u := CaptureDelivery.Next(v, CaptureDelivery.TriggerCapture);
    } else {
      u := v;
    }
  }

  /** An attempt to capture, whatever comes of it. */
  lemma AttemptAgrees(s: State, io: CaptureIo, d: CaptureDelivery.State, now: uint64, trigger: uint64)
    returns (u: CaptureDelivery.State)
    requires SlotPart(s) && s.cycle.state == WaitBuffer && s.cycle.count < UINT32_MAX
    requires Agree(s, d) && CaptureDelivery.Invariant(d)
    ensures CaptureDelivery.Reaches(d, CaptureSteps(s, io), u) && CaptureDelivery.Invariant(u) && u.boot == d.boot
    ensures Capture(s, io).state.cycle == s.cycle && Agree(Attempted(Capture(s, io), now, trigger), u)
  {
    hide CaptureDelivery.Invariant, Launch, LaunchSteps, TxControl.Prepare, TxControl.Prepares, Attempted, Agree;
    RestingMic(s);
    var slot := FirstFree(s.slots);
    if slot < 0 {
      u := d;
      assert s.(filling := -1) == s;
      NoAttempt(s, now, trigger);
    } else {
      var v := AcquireAgrees(s, d, slot);
      var a := s.(filling := slot, slots := s.slots[slot := FramePool.Filling]);
      var p := a.(tx := TxControl.Prepare(s.tx, io.prepare, io.low, io.status));
      assert SamePool(a, p);
      SameAgrees(a, p, v);
      if TxControl.Prepares(s.tx, io.prepare, io.low, io.status) {
        var b := p.(stopRequested := p.stopRequested || io.stop || io.inhibit, inhibited := p.inhibited || io.inhibit);
        SameAgrees(p, b, v);
        u := LaunchAgrees(b, io, v, now, trigger);
        CaptureDelivery.ReachesInOrder(d, [CaptureDelivery.AcquireSlot(slot)], v, LaunchSteps(b, io), u);
        SameLaunch(s, b, io);
      } else {
        u := v;
        NoTrigger(p, -1, now, trigger);
        assert [CaptureDelivery.AcquireSlot(slot)] + [] == [CaptureDelivery.AcquireSlot(slot)];
      }
    }
  }

  lemma NoAttempt(s: State, now: uint64, trigger: uint64)
    requires s.cycle.count < UINT32_MAX
    ensures Attempted(Attempt(s, 0), now, trigger) == s
  {
  }

  lemma NoTrigger(s: State, result: int, now: uint64, trigger: uint64)
    requires s.cycle.count < UINT32_MAX && result <= 0
    ensures Attempted(Attempt(s, result), now, trigger) == s
  {
  }

  lemma SameLaunch(s: State, b: State, io: CaptureIo)
    requires b.stopRequested == (s.stopRequested || io.stop || io.inhibit) && b.inhibited == (s.inhibited || io.inhibit)
    ensures LaunchSteps(s.(stopRequested := s.stopRequested || io.stop || io.inhibit,
                           inhibited := s.inhibited || io.inhibit), io) == LaunchSteps(b, io)
  {
  }

  lemma WaitAgrees(s: State, io: PollIo, d: CaptureDelivery.State) returns (u: CaptureDelivery.State)
    requires SlotPart(s) && s.cycle.state == WaitBuffer && Agree(s, d) && CaptureDelivery.Invariant(d)
    ensures var steps := if s.cycle.count < UINT32_MAX then CaptureSteps(s, io.capture) else [];
      CaptureDelivery.Reaches(d, steps, u) && CaptureDelivery.Invariant(u) && u.boot == d.boot
    ensures Agree(PollWait(s, io), u)
  {
    hide CaptureDelivery.Invariant, Capture, CaptureSteps, Agree, Fail, StopCycle, SlotPart;
    if s.cycle.count < UINT32_MAX {
      u := AttemptAgrees(s, io.capture, d, io.now, io.capture.trigger);
      var r := Capture(s, io.capture);
      if r.result < 0 {
        StopSamePool(r.state, 0, io.fail);
        SameAgrees(r.state, Fail(r.state, io.fail), u);
      }
    } else {
      u := d;
      StopSamePool(s, 0, io.fail);
      SameAgrees(s, Fail(s, io.fail), u);
    }
  }

  /** One poll of the cycle. */
  lemma PollAgrees(s: State, io: PollIo, captured: bool, transmitted: bool, fault: bool, d: CaptureDelivery.State)
    returns (u: CaptureDelivery.State)
    requires Pending(s, captured) && Agree(s, d) && CaptureDelivery.Invariant(d)
    ensures CaptureDelivery.Reaches(d, PollSteps(s, io, fault), u) && CaptureDelivery.Invariant(u) && u.boot == d.boot
    ensures Agree(CyclePoll(s, io, captured, transmitted, fault), u)
  {
    hide CaptureDelivery.Invariant, CaptureSteps, Fail, StopCycle, Pending, Agree, TxControl.Elapsed;
    hide PollWait, PollAcquire, PollPreMove, PollMoving, PollSettling;
    var p := s.(cycle := s.cycle.(lastPoll := io.now));
    var t := CyclePoll(s, io, captured, transmitted, fault);
    if s.cycle.state == WaitBuffer && s.cycle.lastPoll <= io.now && !fault {
      WaitingSlots(s, io.now, captured);
      SameAgrees(s, p, d);
      u := WaitAgrees(p, io, d);
      SameCapture(s, p, io.capture);
    } else {
      u := d;
      StopSamePool(s, 0, io.fail);
      StopSamePool(p, 0, io.fail);
      AcquireSamePool(p, io, captured, transmitted);
      MoveSamePool(p, io);
      assert SamePool(s, t);
      SameAgrees(s, t, d);
    }
  }

  lemma WaitingSlots(s: State, now: uint64, captured: bool)
    requires Pending(s, captured) && s.cycle.state == WaitBuffer && s.cycle.lastPoll <= now
    ensures SlotPart(s.(cycle := s.cycle.(lastPoll := now)))
  {
    hide Invariant, Pending;
    Tick(s, now, captured);
    var p := s.(cycle := s.cycle.(lastPoll := now));
    RestingPending(p, captured);
    SlotsOf(p);
  }

  lemma SlotsOf(s: State)
    requires Invariant(s)
    ensures SlotPart(s)
  {
  }

  lemma SameCapture(s: State, p: State, io: CaptureIo)
    requires p == s.(cycle := p.cycle)
    ensures CaptureSteps(s, io) == CaptureSteps(p, io)
  {
    hide TxControl.Prepares, FirstFree;
  }

  // Whole iterations and whole runs

  /**
   One iteration: the task's steps are enabled in the protocol, in order, and lead to a state that agrees again, its
   sequence numbers published as the protocol assumes.
   */
  lemma IterationAgrees(s: State, e: Inputs, d: CaptureDelivery.State, meta: FramePool.Meta, payload: seq<uint8>)
    returns (u: CaptureDelivery.State)
    requires Invariant(s) && Admissible(s, e) && CaptureDelivery.Invariant(d) && Agree(s.(slots := e.sender), d)
    requires Labelled(meta, payload, s.cycle.count, d.boot)
    ensures Observed(s, e).filling < |Observed(s, e).slots|
    ensures CaptureDelivery.Reaches(d, TaskSteps(s, e, meta, payload), u) && CaptureDelivery.Invariant(u)
    ensures Agree(Next(s, e), u) && u.boot == d.boot
  {
    hide Invariant, CaptureDelivery.Invariant, Observed, Agree, Pending, Deliver, Polled, DeliverySteps, PollSteps;
    hide PollFault, ReportFault, AfterPoll, Labelled;
    ObservedListens(s, e);
    ObservedSamePool(s, e);
    var c := Observed(s, e);
    PendingShape(c, false);
    ArrivalsAgree(s, e, d);
    SameAgrees(Arrivals(s, e), c, d);
    SameLabel(s, c, meta, payload, d);
    var v := DeliveryAgrees(c, d, meta, payload);
    DeliverReaches(c);
    u := PollAgrees(Deliver(c), e.poll, Delivers(c), TxControl.Done(c.tx), PollFault(s, e), v);
    CaptureDelivery.ReachesInOrder(d, DeliverySteps(c, meta, payload), v,
                                   PollSteps(Deliver(c), e.poll, PollFault(s, e)), u);
    PolledIs(s, e);
    AfterSamePool(c.cycle.state, Polled(s, e), e);
    SameAgrees(Polled(s, e), Next(s, e), u);
  }

  lemma PolledIs(s: State, e: Inputs)
    requires KeysFit(e.keys) && Observed(s, e).filling < |Observed(s, e).slots|
    ensures var c := Observed(s, e);
      Polled(s, e) == CyclePoll(Deliver(c), e.poll, Delivers(c), TxControl.Done(c.tx), PollFault(s, e))
  {
    hide Observed, CyclePoll, Deliver, Delivers, Publishes, TxControl.Done, TxFault, Arrivals, Listen, Commands;
  }

  lemma ArrivalsAgree(s: State, e: Inputs, d: CaptureDelivery.State)
    requires Agree(s.(slots := e.sender), d)
    ensures Agree(Arrivals(s, e), d)
  {
  }

  lemma SameLabel(s: State, c: State, meta: FramePool.Meta, payload: seq<uint8>, d: CaptureDelivery.State)
    requires Labelled(meta, payload, s.cycle.count, d.boot) && c.cycle.count == s.cycle.count
    ensures Labelled(meta, payload, c.cycle.count, d.boot)
  {
  }

  // The sender, the connection and the host between iterations

  predicate Outside(a: CaptureDelivery.Action) {
    && !a.AcquireSlot? && !a.CancelCapture? && !a.TriggerCapture? && !a.PublishCapture? && !a.DiscardCapture?
  }

  /** They leave the capture task's fields, and its slot, alone. */
  lemma OutsideKeeps(d: CaptureDelivery.State, a: CaptureDelivery.Action)
    requires CaptureDelivery.Invariant(d) && CaptureDelivery.Enabled(d, a) && Outside(a)
    ensures var v := CaptureDelivery.Next(d, a);
      && CaptureDelivery.Shape(v) && v.capture == d.capture && v.cycle == d.cycle && v.boot == d.boot
      && v.published == d.published && SenderMay(States(d.slots), States(v.slots))
  {
    hide CaptureDelivery.Numbered, CaptureDelivery.PoolFrames, CaptureDelivery.NothingLost, CaptureDelivery.AckOrder;
    hide CaptureDelivery.BatchOrder, CaptureDelivery.DiskSound, CaptureDelivery.Conversation, HostStore.Conflicts;
    hide FramePool.IsLatest, FramePool.IsFirstFree, HostStore.Route, HostStore.WriteAudio, HostStore.WriteNotes;
    hide CaptureDelivery.Unused, HostStore.Identified, HostStore.IsIdentity;
  }

  /** What they do to the pool is what an iteration expects of the sender. */
  lemma OutsideAgrees(s: State, d: CaptureDelivery.State, a: CaptureDelivery.Action)
    requires CaptureDelivery.Invariant(d) && CaptureDelivery.Enabled(d, a) && Outside(a) && Agree(s, d)
    ensures var v := CaptureDelivery.Next(d, a);
      v.boot == d.boot && SenderMay(s.slots, States(v.slots)) && Agree(s.(slots := States(v.slots)), v)
  {
    hide CaptureDelivery.Invariant, CaptureDelivery.Enabled, CaptureDelivery.Next, SenderMay;
    OutsideKeeps(d, a);
  }

  lemma SenderTwice(a: seq<FramePool.SlotState>, b: seq<FramePool.SlotState>, c: seq<FramePool.SlotState>)
    requires SenderMay(a, b) && SenderMay(b, c)
    ensures SenderMay(a, c)
  {
  }

  lemma {:induction false} OutsideRun(
    s: State, d: CaptureDelivery.State, run: seq<CaptureDelivery.Action>, v: CaptureDelivery.State)
    requires CaptureDelivery.Invariant(d) && CaptureDelivery.Reaches(d, run, v) && Agree(s, d)
    requires forall i :: 0 <= i < |run| ==> Outside(run[i])
    ensures CaptureDelivery.Invariant(v) && v.boot == d.boot
    ensures SenderMay(s.slots, States(v.slots)) && Agree(s.(slots := States(v.slots)), v)
    decreases |run|
  {
    hide CaptureDelivery.Invariant, CaptureDelivery.Enabled, Outside, SenderMay;
    if run == [] {
      NothingSent(s, d);
    } else {
      assert Outside(run[0]);
      OutsideAgrees(s, d, run[0]);
      CaptureDelivery.StepKeepsInvariant(d, run[0]);
      var m := CaptureDelivery.Next(d, run[0]);
      var t := s.(slots := States(m.slots));
      OutsideRun(t, m, run[1..], v);
      SenderTwice(s.slots, t.slots, States(v.slots));
      assert t.(slots := States(v.slots)) == s.(slots := States(v.slots));
    }
  }

  lemma NothingSent(s: State, d: CaptureDelivery.State)
    requires Agree(s, d)
    ensures SenderMay(s.slots, States(d.slots)) && s.(slots := States(d.slots)) == s
  {
  }

  /** What happens outside the task, then one iteration, and the label and data of the capture in progress. */
  datatype Round = Round(
    outside: seq<CaptureDelivery.Action>, inputs: Inputs, meta: FramePool.Meta, payload: seq<uint8>)

  /** Both sides as they go on together. */
  datatype Board = Board(task: State, delivery: CaptureDelivery.State)

  ghost predicate Sound(b: Board) {
    Invariant(b.task) && CaptureDelivery.Invariant(b.delivery) && Agree(b.task, b.delivery)
  }

  /**
   In a round, `m` is the delivery once everything outside the task has been done. The task finds the pool as that left
   it; of its other inputs only the clock is restricted.
   */
  ghost predicate Plays(b: Board, r: Round, m: CaptureDelivery.State)
    requires Sound(b)
  {
    && CaptureDelivery.Reaches(b.delivery, r.outside, m) && (forall i :: 0 <= i < |r.outside| ==> Outside(r.outside[i]))
    && r.inputs.sender == States(m.slots) && KeysFit(r.inputs.keys)
    && b.task.cycle.trigger <= r.inputs.poll.now <= r.inputs.poll.capture.trigger
    && Labelled(r.meta, r.payload, b.task.cycle.count, b.delivery.boot)
  }

  /** What outside steps did is admissible, and the iteration is a run of enabled steps of the protocol. */
  lemma RoundIsARun(b: Board, r: Round, m: CaptureDelivery.State)
    returns (steps: seq<CaptureDelivery.Action>, u: CaptureDelivery.State)
    requires Sound(b) && Plays(b, r, m)
    ensures Admissible(b.task, r.inputs) && KeysFit(r.inputs.keys) && CaptureDelivery.Invariant(m)
    ensures Observed(b.task, r.inputs).filling < |Observed(b.task, r.inputs).slots|
    ensures steps == TaskSteps(b.task, r.inputs, r.meta, r.payload) && CaptureDelivery.Reaches(m, steps, u)
    ensures Sound(Board(Next(b.task, r.inputs), u)) && u.boot == b.delivery.boot
  {
    hide Invariant, CaptureDelivery.Invariant, Agree, Observed, Outside, TaskSteps, Labelled, Next;
    OutsideRun(b.task, b.delivery, r.outside, m);
    u := IterationAgrees(b.task, r.inputs, m, r.meta, r.payload);
    steps := TaskSteps(b.task, r.inputs, r.meta, r.payload);
  }

  /** A whole round; `RoundIsARun` says that every round that may be played has an outcome. */
  ghost predicate RoundTo(b: Board, r: Round, m: CaptureDelivery.State, c: Board)
    requires Sound(b)
  {
    && Plays(b, r, m) && Admissible(b.task, r.inputs) && CaptureDelivery.Invariant(m)
    && Observed(b.task, r.inputs).filling < |Observed(b.task, r.inputs).slots|
    && CaptureDelivery.Reaches(m, TaskSteps(b.task, r.inputs, r.meta, r.payload), c.delivery)
    && c.task == Next(b.task, r.inputs)
  }

  /** The protocol's steps are deterministic, so a round has one outcome, and it is sound. */
  lemma RoundKeepsSound(b: Board, r: Round, m: CaptureDelivery.State, c: Board)
    returns (run: seq<CaptureDelivery.Action>)
    requires Sound(b) && RoundTo(b, r, m, c)
    ensures Sound(c) && CaptureDelivery.Reaches(b.delivery, run, c.delivery)
  {
    hide Invariant, CaptureDelivery.Invariant, Agree, Observed, Outside, TaskSteps, Labelled, Next;
    var steps, u := RoundIsARun(b, r, m);
    OneOutcome(m, steps, u, c.delivery);
    CaptureDelivery.ReachesInOrder(b.delivery, r.outside, m, steps, u);
    run := r.outside + steps;
  }

  lemma {:induction false} OneOutcome(
    d: CaptureDelivery.State, run: seq<CaptureDelivery.Action>, u: CaptureDelivery.State, v: CaptureDelivery.State)
    requires CaptureDelivery.Invariant(d) && CaptureDelivery.Reaches(d, run, u) && CaptureDelivery.Reaches(d, run, v)
    ensures u == v
    decreases |run|
  {
    hide CaptureDelivery.Invariant, CaptureDelivery.Enabled;
    if run != [] {
      CaptureDelivery.StepKeepsInvariant(d, run[0]);
      OneOutcome(CaptureDelivery.Next(d, run[0]), run[1..], u, v);
    }
  }

  ghost predicate PlaysTo(b: Board, rounds: seq<Round>, c: Board)
    requires Sound(b)
    decreases |rounds|
  {
    if rounds == [] then b == c
    else exists m, n :: RoundTo(b, rounds[0], m, n) && Sound(n) && PlaysTo(n, rounds[1..], c)
  }

  function AllInputs(rounds: seq<Round>): seq<Inputs>
    decreases |rounds|
  {
    if rounds == [] then [] else [rounds[0].inputs] + AllInputs(rounds[1..])
  }

  /** Whole runs of both sides are runs of each. */
  lemma {:induction false} JointRun(b: Board, rounds: seq<Round>, c: Board) returns (run: seq<CaptureDelivery.Action>)
    requires Sound(b) && PlaysTo(b, rounds, c)
    ensures Sound(c) && RunsTo(b.task, AllInputs(rounds), c.task)
    ensures CaptureDelivery.Reaches(b.delivery, run, c.delivery)
    decreases |rounds|
  {
    hide Invariant, CaptureDelivery.Invariant, Agree, Observed, TaskSteps, Plays, Next, Admissible;
    if rounds == [] {
      run := [];
    } else {
      var r := rounds[0];
      var m, n :| RoundTo(b, r, m, n) && Sound(n) && PlaysTo(n, rounds[1..], c);
      var first := RoundKeepsSound(b, r, m, n);
      var rest := JointRun(n, rounds[1..], c);
      CaptureDelivery.ReachesInOrder(b.delivery, first, n.delivery, rest, c.delivery);
      run := first + rest;
      assert AllInputs(rounds)[1..] == AllInputs(rounds[1..]);
    }
  }

  /**
   From start-up on, whatever console, peripherals, clock, sender, connection and host do: each capture the experiment
   task publishes is the protocol's under the same number, in order, and is in the pool or durably stored.
   */
  lemma EveryPublishedCaptureSurvives(b: Board, rounds: seq<Round>, c: Board)
    requires Initial(b.task) && CaptureDelivery.Initial(b.delivery)
    requires (StartAgrees(b); PlaysTo(b, rounds, c))
    ensures RunsTo(b.task, AllInputs(rounds), c.task) && CaptureDelivery.Shape(c.delivery)
    ensures |c.task.published| == |c.delivery.published|
    ensures forall i :: 0 <= i < |c.task.published| ==>
      var f := c.delivery.published[i];
      && f.meta.sequence == c.task.published[i].sequence
      && (CaptureDelivery.InPool(c.delivery, f) || HostStore.Stored(c.delivery.disk, f.meta, f.payload))
  {
    hide Invariant, CaptureDelivery.Invariant, PlaysTo, CaptureDelivery.InPool, HostStore.Stored, LiveMic;
    StartAgrees(b);
    CaptureDelivery.InitialInvariant(b.delivery);
    var run := JointRun(b, rounds, c);
    CaptureDelivery.NoCaptureIsLost(b.delivery, run, c.delivery);
  }

  /** At start-up the two sides agree. */
  lemma StartAgrees(b: Board)
    requires Initial(b.task) && CaptureDelivery.Initial(b.delivery)
    ensures Sound(b)
  {
    InitialInvariant(b.task);
    CaptureDelivery.InitialInvariant(b.delivery);
    assert b.task.slots == States(b.delivery.slots);
  }
}
