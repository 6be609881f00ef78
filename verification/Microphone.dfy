/** The capture object: who owns the buffer that the DMA engine fills. */
module Microphone {
  import opened MachineIntegers

  datatype MicState = Idle | Capturing | Ready | Fault
  datatype Cause = Fine | BadConfig | PrepareFailed | ArmFailed | TriggerFailed | DmaError | Overflow | BadLength
                 | TimedOut | FinishFailed | Aborted
  datatype Mic = Mic(state: MicState, cause: Cause, buffer: nat, bytes: uint32, timeout: uint32, generation: uint32,
                     started: uint32, dmaOwned: bool)
  datatype Event = Event(generation: uint32, error: bool, overflow: bool, done: bool, bytes: uint32, tick: uint32)

  /** Unsigned 32-bit subtraction of ticks. */
  function Ticks(now: uint32, since: uint32): uint32 {
    if now >= since then now - since else now - since + 0x1_0000_0000
  }

  function Configure(buffer: nat, bytes: uint32, timeout: uint32): Mic {
    Mic(Idle, Fine, buffer, bytes, timeout, 0, 0, false)
  }

  /** A fault gives the buffer back only if the DMA engine could be reset. */
  function Fail(m: Mic, cause: Cause, reset: bool): Mic {
    if m.state == Fault then m
    else m.(state := Fault, cause := cause, dmaOwned := m.dmaOwned && !reset)
  }

  /** Results of preparing the buffer, arming the engine and triggering, and of the reset after a failure. */
  datatype StartIo = StartIo(prepared: bool, armed: bool, triggered: bool, reset: bool)

  function Start(m: Mic, now: uint32, io: StartIo): Mic {
    if m.state != Idle then m
    else
      var n := m.(started := now, generation := (m.generation + 1) % 0x1_0000_0000);
      if !io.prepared then Fail(n, PrepareFailed, io.reset)
      else
        var c := n.(state := Capturing, dmaOwned := true);
        if !io.armed then Fail(c, ArmFailed, io.reset)
        else if !io.triggered then Fail(c, TriggerFailed, io.reset)
        else c
  }

  predicate Starts(m: Mic, io: StartIo) {
    m.state == Idle && io.prepared && io.armed && io.triggered
  }

  function OnEvent(m: Mic, e: Event, now: uint32, finished: bool, reset: bool): Mic {
    if m.state != Capturing || e.generation != m.generation then m
    else if e.error then Fail(m, DmaError, reset)
    else if e.overflow then Fail(m, Overflow, reset)
    else if e.done then
      if Ticks(now, m.started) >= m.timeout || Ticks(e.tick, m.started) >= m.timeout
         || Ticks(now, e.tick) > UINT32_MAX / 2 then Fail(m, TimedOut, reset)
      else if e.bytes != m.bytes then Fail(m, BadLength, reset)
      else if !finished then Fail(m, FinishFailed, reset)
      else m.(dmaOwned := false, state := Ready)
    else m
  }

  function Poll(m: Mic, now: uint32, reset: bool): Mic {
    if m.state == Capturing && Ticks(now, m.started) >= m.timeout then Fail(m, TimedOut, reset) else m
  }

  function Cancel(m: Mic, reset: bool): Mic {
    if m.state == Capturing then Fail(m, Aborted, reset) else m
  }

  function Release(m: Mic): Mic {
    if m.state != Ready || m.dmaOwned then m else m.(state := Idle)
  }

  /** The engine owns the buffer while capturing, perhaps after a fault, and never otherwise. */
  predicate Sound(m: Mic) {
    (m.state == Capturing ==> m.dmaOwned) && (m.state == Idle || m.state == Ready ==> !m.dmaOwned)
  }

  /** What may happen to a capture under way. */
  datatype Call =
    | Delivered(event: Event, now: uint32, finished: bool, reset: bool)
    | Polled(now: uint32, reset: bool)
    | Cancelled(reset: bool)

  function Step(m: Mic, c: Call): Mic {
    match c
    case Delivered(e, now, finished, reset) => OnEvent(m, e, now, finished, reset)
    case Polled(now, reset) => Poll(m, now, reset)
    case Cancelled(reset) => Cancel(m, reset)
  }

  function Run(m: Mic, calls: seq<Call>): Mic
    decreases |calls|
  {
    if calls == [] then m else Run(Step(m, calls[0]), calls[1..])
  }

  /** An event of this capture that reports completion, of the full length and in time, with the engine proved idle. */
  predicate Completes(m: Mic, c: Call) {
    && c.Delivered? && c.event.generation == m.generation
    && c.event.done && !c.event.error && !c.event.overflow && c.finished && c.event.bytes == m.bytes
    && Ticks(c.now, m.started) < m.timeout && Ticks(c.event.tick, m.started) < m.timeout
    && Ticks(c.now, c.event.tick) <= UINT32_MAX / 2
  }

  /** Call `i` completes the capture and nothing before it had any effect. */
  predicate CompletedBy(m: Mic, calls: seq<Call>, i: nat)
    requires i < |calls|
  {
    Completes(m, calls[i]) && forall j :: 0 <= j < i ==> Step(m, calls[j]) == m
  }

  /**
   What ends a capture badly: an event of this capture that reports an error, an overflow, or a completion that is late,
   of the wrong length or not proved; a poll at or past the deadline; a cancellation.
   */
  predicate Fails(m: Mic, c: Call) {
    match c
    case Delivered(e, _, _, _) =>
      e.generation == m.generation && (e.error || e.overflow || e.done) && !Completes(m, c)
    case Polled(now, _) => Ticks(now, m.started) >= m.timeout
    case Cancelled(_) => true
  }

  lemma StepOutcome(m: Mic, c: Call)
    requires Sound(m) && m.state == Capturing
    ensures Sound(Step(m, c))
    ensures Step(m, c).state == Ready <==> Completes(m, c)
    ensures Step(m, c).state == Fault <==> Fails(m, c)
    ensures Fails(m, c) ==> (Step(m, c).dmaOwned <==> !c.reset)
    ensures Step(m, c) == m || Step(m, c).state == Ready || Step(m, c).state == Fault
  {
  }

  /** Call `i` ends the capture badly and nothing before it had any effect. */
  predicate FailedBy(m: Mic, calls: seq<Call>, i: nat)
    requires i < |calls|
  {
    Fails(m, calls[i]) && forall j :: 0 <= j < i ==> Step(m, calls[j]) == m
  }

  /**
   From a start on: the capture is faulty exactly when the first call that had an effect ended it badly, and then the
   engine keeps the buffer exactly when it was not reset.
   */
  lemma {:induction false} FaultOnlyByFailure(m: Mic, calls: seq<Call>)
    requires Sound(m) && m.state == Capturing
    ensures Run(m, calls).state == Fault <==> exists i :: 0 <= i < |calls| && FailedBy(m, calls, i)
    ensures forall i :: 0 <= i < |calls| && FailedBy(m, calls, i) ==> (Run(m, calls).dmaOwned <==> !calls[i].reset)
    decreases |calls|
  {
    hide OnEvent, Poll, Cancel, Completes, Fails;
    if calls != [] {
      var c, rest := calls[0], calls[1..];
      StepOutcome(m, c);
      if Step(m, c) == m {
        FaultOnlyByFailure(m, rest);
        forall i | 0 <= i < |rest| && FailedBy(m, rest, i) ensures FailedBy(m, calls, i + 1) {
        }
        forall i | 0 <= i < |calls| && FailedBy(m, calls, i) ensures i > 0 && FailedBy(m, rest, i - 1) {
        }
      } else {
        SettledStays(Step(m, c), rest);
        if Fails(m, c) {
          assert FailedBy(m, calls, 0);
        }
        forall i | 0 <= i < |calls| && FailedBy(m, calls, i) ensures i == 0 {
          FailsFirst(m, calls, i);
        }
      }
    }
  }

  lemma FailsFirst(m: Mic, calls: seq<Call>, i: nat)
    requires i < |calls| && FailedBy(m, calls, i) && Step(m, calls[0]) != m
    ensures i == 0
  {
  }

  /** No capture outlives a poll at or past its deadline. */
  lemma {:induction false} TimeoutEndsCapture(m: Mic, calls: seq<Call>, i: nat)
    requires Sound(m) && m.state == Capturing && i < |calls|
    requires calls[i].Polled? && Ticks(calls[i].now, m.started) >= m.timeout
    ensures Run(m, calls).state != Capturing
    decreases |calls|
  {
    hide OnEvent, Poll, Cancel, Completes, Fails;
    var c, rest := calls[0], calls[1..];
    StepOutcome(m, c);
    if Step(m, c) == m {
      if i > 0 {
        TimeoutEndsCapture(m, rest, i - 1);
      } else {
        PolledLate(m, c);
      }
    } else {
      SettledStays(Step(m, c), rest);
    }
  }

  lemma PolledLate(m: Mic, c: Call)
    requires c.Polled? && Ticks(c.now, m.started) >= m.timeout
    ensures Fails(m, c)
  {
  }

  /** The difference of two wrapped tick counts is the time between them, up to one whole turn. */
  lemma TicksAreElapsed(now: nat, since: nat)
    requires since <= now < since + 0x1_0000_0000
    ensures Ticks(now % 0x1_0000_0000, since % 0x1_0000_0000) == now - since
  {
  }

  /** Ready and faulty captures ignore events, polls and cancellation. */
  lemma {:induction false} SettledStays(m: Mic, calls: seq<Call>)
    requires m.state == Ready || m.state == Fault
    ensures Run(m, calls) == m
    decreases |calls|
  {
    if calls != [] {
      SettledStays(Step(m, calls[0]), calls[1..]);
    }
  }

  /**
   From a start on, whatever is delivered, polled or cancelled: the capture is ready exactly when the first call
   that had an effect was its own completion, and then the engine has given the buffer back.
   */
  lemma {:induction false} ReadyOnlyByCompletion(m: Mic, calls: seq<Call>)
    requires Sound(m) && m.state == Capturing
    ensures Sound(Run(m, calls))
    ensures Run(m, calls).state == Ready <==> exists i :: 0 <= i < |calls| && CompletedBy(m, calls, i)
    ensures Run(m, calls).state == Ready ==> !Run(m, calls).dmaOwned && Run(m, calls).buffer == m.buffer
    decreases |calls|
  {
    hide OnEvent, Poll, Cancel, Completes;
    if calls != [] {
      var c, rest := calls[0], calls[1..];
      StepOutcome(m, c);
      BufferStays(m, c);
      if Step(m, c) == m {
        ReadyOnlyByCompletion(m, rest);
        if i :| 0 <= i < |rest| && CompletedBy(m, rest, i) {
          assert CompletedBy(m, calls, i + 1);
        }
        if i :| 0 <= i < |calls| && CompletedBy(m, calls, i) {
          assert i > 0 ==> CompletedBy(m, rest, i - 1);
        }
      } else {
        SettledStays(Step(m, c), rest);
        if Completes(m, c) {
          assert CompletedBy(m, calls, 0);
        }
      }
    }
  }

  lemma BufferStays(m: Mic, c: Call)
    ensures Step(m, c).buffer == m.buffer
  {
  }

  /**
   Starting arms the engine for the buffer; a start that fails keeps the buffer with the engine unless it was reset.
   */
  lemma StartOwnsTheBuffer(m: Mic, now: uint32, io: StartIo)
    requires Sound(m) && m.state == Idle
    ensures var n := Start(m, now, io);
      && Sound(n) && n.buffer == m.buffer && n.generation != m.generation && n.started == now
      && (Starts(m, io) <==> n.state == Capturing)
      && (n.dmaOwned <==> io.prepared && (Starts(m, io) || !io.reset))
  {
  }

  class Capture {
    var mic: Mic

    constructor ()
      ensures mic == Mic(Idle, Fine, 0, 0, 0, 0, 0, false)
    {
      mic := Mic(Idle, Fine, 0, 0, 0, 0, 0, false);
    }

    method FailWith(cause: Cause, reset: bool)
      modifies this
      ensures mic == Fail(old(mic), cause, reset)
    {
      if mic.state == Fault {
        return;
      }
      mic := mic.(state := Fault, cause := cause);
      if mic.dmaOwned && reset {
        mic := mic.(dmaOwned := false);
      }
    }

    method Init(buffer: nat, bytes: uint32, timeout: uint32)
      modifies this
      ensures mic == Configure(buffer, bytes, timeout)
    {
      mic := Mic(Idle, Fine, buffer, bytes, timeout, 0, 0, false);
    }

    method PollTimeout(now: uint32, reset: bool)
      modifies this
      ensures mic == Poll(old(mic), now, reset)
    {
      if mic.state == Capturing && Ticks(now, mic.started) >= mic.timeout {
        FailWith(TimedOut, reset);
      }
    }

    method CancelCapture(reset: bool)
      modifies this
      ensures mic == Cancel(old(mic), reset)
    {
      if mic.state == Capturing {
        FailWith(Aborted, reset);
      }
    }

    method ReleaseBuffer() returns (ok: bool)
      modifies this
      ensures mic == Release(old(mic)) && ok == (old(mic).state == Ready && !old(mic).dmaOwned)
    {
      if mic.state != Ready || mic.dmaOwned {
        return false;
      }
      mic := mic.(state := Idle);
      return true;
    }

    method StartCapture(now: uint32, io: StartIo) returns (ok: bool)
      modifies this
      ensures mic == Start(old(mic), now, io) && ok == Starts(old(mic), io)
    {
      if mic.state != Idle {
        return false;
      }
      mic := mic.(started := now, generation := (mic.generation + 1) % 0x1_0000_0000);
      if !io.prepared {
        FailWith(PrepareFailed, io.reset);
        return false;
      }
      mic := mic.(state := Capturing, dmaOwned := true);
      if !io.armed {
        FailWith(ArmFailed, io.reset);
        return false;
      }
      if !io.triggered {
        FailWith(TriggerFailed, io.reset);
        return false;
      }
      return true;
    }

    method HandleEvent(e: Event, now: uint32, finished: bool, reset: bool)
      modifies this
      ensures mic == OnEvent(old(mic), e, now, finished, reset)
    {
      if mic.state != Capturing || e.generation != mic.generation {
        return;
      }
      if e.error {
        FailWith(DmaError, reset);
      } else if e.overflow {
        FailWith(Overflow, reset);
      } else if e.done {
        if Ticks(now, mic.started) >= mic.timeout || Ticks(e.tick, mic.started) >= mic.timeout
           || Ticks(now, e.tick) > UINT32_MAX / 2 {
          FailWith(TimedOut, reset);
        } else if e.bytes != mic.bytes {
          FailWith(BadLength, reset);
        } else if !finished {
          FailWith(FinishFailed, reset);
        } else {
          mic := mic.(dmaOwned := false);
          mic := mic.(state := Ready);
        }
      }
    }
  }
}
