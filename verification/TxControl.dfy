/**
 The transmitter's control state. Completion is read from a persistent status word: a toggle that differs
 from the one sampled before the trigger, with DONE high and ACTIVE low.
 */
module TxControl {
  import opened MachineIntegers
  import opened Options

  datatype Status = Status(toggle: bool, done: bool, active: bool)

  /** One read of the status word and of the clock. */
  datatype Sample = Sample(status: Status, clock: uint64)

  /** `ending` is a history variable: the status word that ended the transmission prepared last. */
  datatype Tx = Tx(initialized: bool, applied: bool, prepared: bool, running: bool, completed: bool, aborted: bool,
                   fault: bool, timeout: uint64, baseline: bool, started: uint64, ending: Option<Status>)

  /** Unsigned 64-bit subtraction. */
  function Elapsed(now: uint64, since: uint64): uint64 {
    if now >= since then now - since else now - since + 0x1_0000_0000_0000_0000
  }

  predicate Finished(s: Status, baseline: bool) {
    s.toggle != baseline && s.done && !s.active
  }

  predicate Done(t: Tx) {
    t.initialized && !t.fault && (t.completed || t.aborted)
  }

  function Poll(t: Tx, x: Sample): Tx {
    if !t.running then t
    else if Finished(x.status, t.baseline) then
      t.(running := false, completed := !t.fault, ending := Some(x.status))
    else if Elapsed(x.clock, t.started) >= t.timeout then t.(completed := false, fault := true)
    else t
  }

  /** What start-up finds: the status channel, the output idle or active, the control registers and the player. */
  datatype InitIo = InitIo(configured: bool, active: bool, ready: bool, player: bool)

  /** A missing status channel or an output already active is a fault; anything else may be tried again. */
  function Init(t: Tx, io: InitIo): Tx {
    if t.initialized || t.fault then t
    else if !io.configured || io.active then t.(fault := true)
    else if !io.ready || !io.player then t
    else t.(initialized := true)
  }

  /** How programming an idle transmitter ends: refused for its arguments or an active output, stuck, or done. */
  datatype Programming = Refused | TriggerStuck | Unselected | Programmed(timeout: uint64)

  function Apply(t: Tx, x: Sample, outcome: Programming): Tx {
    var p := Poll(t, x);
    if !p.initialized || p.fault || p.running || p.prepared then p
    else match outcome
      case Refused => p
      case TriggerStuck => p.(fault := true)
      case Unselected => p.(applied := false)
      case Programmed(timeout) => p.(applied := true, timeout := timeout, completed := false, aborted := false)
  }

  predicate CanPrepare(t: Tx) {
    t.initialized && t.applied && !t.fault && !t.running && !t.prepared
  }

  function Prepare(t: Tx, x: Sample, low: bool, status: Status): Tx {
    var p := Poll(t, x);
    if !CanPrepare(p) then p
    else if !low then p.(fault := true)
    else if status.active then p
    else p.(baseline := status.toggle, completed := false, aborted := false, prepared := true, ending := None)
  }

  predicate Prepares(t: Tx, x: Sample, low: bool, status: Status) {
    CanPrepare(Poll(t, x)) && low && !status.active
  }

  function Triggered(t: Tx, clock: uint64): Tx {
    if !t.initialized || !t.prepared || t.running || t.fault then t.(fault := true)
    else t.(started := clock, prepared := false, running := true, completed := false, aborted := false)
  }

  /** Everything an abort reads: mute and trigger-low results, one status per tick, and the last status. */
  datatype AbortIo = AbortIo(muted: bool, low: bool, first: Sample, later: seq<Sample>, last: Status)

  function Drain(t: Tx, polls: seq<Sample>): Tx
    decreases |polls|
  {
    if !t.running then t
    else if polls == [] then t.(fault := true)
    else Drain(Poll(t, polls[0]), polls[1..])
  }

  function Drained(t: Tx, io: AbortIo): Tx {
    Drain(Poll(t.(prepared := false), io.first), io.later)
  }

  predicate Aborts(t: Tx, io: AbortIo) {
    !t.initialized
    || (io.muted && io.low && !Drained(t, io).running && !Drained(t, io).fault && !io.last.active)
  }

  /** Mutes, then waits for the hardware to finish; the transmitter is never reset. */
  function Abort(t: Tx, io: AbortIo): Tx {
    if !t.initialized then t
    else if !io.muted || !io.low then t.(prepared := false, fault := true)
    else if Aborts(t, io) then Drained(t, io).(completed := false, aborted := true)
    else Drained(t, io).(fault := true)
  }

  /** What the flags always mean. */
  ghost predicate Sound(t: Tx) {
    && (t.prepared || t.running || t.completed || t.aborted ==> t.initialized)
    && (t.prepared ==> !t.running && !t.completed && !t.aborted && t.ending.None?)
    && (t.running ==> !t.aborted && !t.completed && t.ending.None?)
    && (t.completed ==> t.ending.Some?)
    && (t.ending.Some? ==> Finished(t.ending.value, t.baseline))
  }

  datatype Call =
    | Startup(init: InitIo)
    | Polled(sample: Sample)
    | Applied(sample: Sample, outcome: Programming)
    | Prepared(sample: Sample, low: bool, status: Status)
    | Trigger(clock: uint64)
    | Aborted(io: AbortIo)

  function Step(t: Tx, c: Call): Tx {
    match c
    case Startup(io) => Init(t, io)
    case Polled(x) => Poll(t, x)
    case Applied(x, outcome) => Apply(t, x, outcome)
    case Prepared(x, low, status) => Prepare(t, x, low, status)
    case Trigger(clock) => Triggered(t, clock)
    case Aborted(io) => Abort(t, io)
  }

  function Run(t: Tx, calls: seq<Call>): Tx
    decreases |calls|
  {
    if calls == [] then t else Run(Step(t, calls[0]), calls[1..])
  }

  lemma PollKeeps(t: Tx, x: Sample)
    requires Sound(t)
    ensures Sound(Poll(t, x))
    ensures t.fault ==> Poll(t, x).fault
    ensures t.running && !Poll(t, x).running ==> Poll(t, x).ending == Some(x.status) && Finished(x.status, t.baseline)
  {
  }

  lemma {:induction false} DrainKeeps(t: Tx, polls: seq<Sample>)
    requires Sound(t)
    ensures Sound(Drain(t, polls))
    ensures t.fault ==> Drain(t, polls).fault
    ensures Drain(t, polls) == t.(running := Drain(t, polls).running, completed := Drain(t, polls).completed,
                                  fault := Drain(t, polls).fault, ending := Drain(t, polls).ending)
    ensures t.running && !Drain(t, polls).running ==> Drain(t, polls).ending.Some?
    ensures !t.running ==> Drain(t, polls) == t
    ensures Drain(t, polls).running ==> Drain(t, polls).fault
    decreases |polls|
  {
    if t.running && polls != [] {
      PollKeeps(t, polls[0]);
      DrainKeeps(Poll(t, polls[0]), polls[1..]);
    }
  }

  /** An abort that succeeds found the hardware inactive, and waited for a transmission that was under way. */
  lemma AbortDrains(t: Tx, io: AbortIo)
    requires Sound(t)
    ensures Sound(Abort(t, io)) && !Abort(t, io).prepared
    ensures t.fault ==> Abort(t, io).fault
    ensures t.initialized ==> (Aborts(t, io) <==> Abort(t, io).aborted && !Abort(t, io).fault)
    ensures t.initialized && Aborts(t, io) ==> !io.last.active && !Abort(t, io).running && !Abort(t, io).completed
    ensures t.initialized && !Aborts(t, io) ==> Abort(t, io).fault
    ensures t.running && !Abort(t, io).running ==> Abort(t, io).ending.Some?
    ensures !t.running && t.ending.Some? ==> Abort(t, io).ending == t.ending
    ensures t.prepared ==> Abort(t, io).ending.None?
    ensures Abort(t, io).initialized == t.initialized
  {
    var quiet := t.(prepared := false);
    assert Sound(quiet);
    PollKeeps(quiet, io.first);
    DrainKeeps(Poll(quiet, io.first), io.later);
  }

  lemma StepKeeps(t: Tx, c: Call)
    requires Sound(t)
    ensures Sound(Step(t, c))
    ensures t.fault ==> Step(t, c).fault
  {
    match c {
      case Startup(_) =>
      case Polled(x) => PollKeeps(t, x);
      case Applied(x, _) => PollKeeps(t, x);
      case Prepared(x, _, _) => PollKeeps(t, x);
      case Trigger(_) =>
      case Aborted(io) => AbortDrains(t, io);
    }
  }

  /** The fault latch: no sequence of calls clears it, and with it set nothing is ever reported done. */
  lemma {:induction false} FaultIsLatched(t: Tx, calls: seq<Call>)
    requires Sound(t)
    ensures Sound(Run(t, calls))
    ensures t.fault ==> Run(t, calls).fault && !Done(Run(t, calls))
    decreases |calls|
  {
    if calls != [] {
      StepKeeps(t, calls[0]);
      FaultIsLatched(Step(t, calls[0]), calls[1..]);
    }
  }

  /** The status words that polling for completion reads; nothing is read while nothing runs. */
  function DrainReads(t: Tx, polls: seq<Sample>): seq<Status>
    decreases |polls|
  {
    if !t.running || polls == [] then [] else [polls[0].status] + DrainReads(Poll(t, polls[0]), polls[1..])
  }

  function Reads(t: Tx, c: Call): seq<Status> {
    match c
    case Startup(_) => []
    case Polled(x) => DrainReads(t, [x])
    case Applied(x, _) => DrainReads(t, [x])
    case Prepared(x, _, _) => DrainReads(t, [x])
    case Trigger(_) => []
    case Aborted(io) =>
      if !t.initialized || !io.muted || !io.low then [] else DrainReads(t.(prepared := false), [io.first] + io.later)
  }

  /** The status words read over a run, each in the state the calls before it left. */
  function AllReads(t: Tx, calls: seq<Call>): seq<Status>
    decreases |calls|
  {
    if calls == [] then [] else Reads(t, calls[0]) + AllReads(Step(t, calls[0]), calls[1..])
  }

  lemma {:induction false} DrainEndsByReading(t: Tx, polls: seq<Sample>)
    requires Sound(t) && t.running && !Drain(t, polls).running
    ensures exists s :: s in DrainReads(t, polls) && Finished(s, t.baseline)
    decreases |polls|
  {
    var p := Poll(t, polls[0]);
    PollKeeps(t, polls[0]);
    assert polls[0].status in DrainReads(t, polls);
    if p.running {
      DrainEndsByReading(p, polls[1..]);
      var s :| s in DrainReads(p, polls[1..]) && Finished(s, t.baseline);
      assert s in DrainReads(t, polls);
    }
  }

  lemma DrainOne(t: Tx, x: Sample)
    ensures t.running ==> Drain(t, [x]).running == Poll(t, x).running
  {
    assert [x][1..] == [];
  }

  lemma EndsByReading(t: Tx, c: Call)
    requires Sound(t) && t.running && !Step(t, c).running
    ensures exists s :: s in Reads(t, c) && Finished(s, t.baseline)
  {
    hide Drain, DrainReads, Poll, Finished;
    match c {
      case Polled(x) =>
        DrainOne(t, x);
        DrainEndsByReading(t, [x]);
      case Applied(x, _) =>
        ApplyEnds(t, c);
        DrainOne(t, x);
        DrainEndsByReading(t, [x]);
      case Prepared(x, _, _) =>
        DrainOne(t, x);
        DrainEndsByReading(t, [x]);
      case Aborted(io) =>
        var quiet := t.(prepared := false);
        DrainFirst(quiet, io.first, io.later);
        DrainEndsByReading(quiet, [io.first] + io.later);
      case _ =>
    }
  }

  /** Programming ends nothing by itself. */
  lemma ApplyEnds(t: Tx, c: Call)
    requires c.Applied? && t.running && !Step(t, c).running
    ensures !Poll(t, c.sample).running
  {
  }

  lemma DrainFirst(t: Tx, first: Sample, later: seq<Sample>)
    requires t.running
    ensures Drain(t, [first] + later) == Drain(Poll(t, first), later)
  {
    assert ([first] + later)[1..] == later;
  }

  /** A running transmission keeps its baseline until it ends. */
  lemma RunningKeepsBaseline(t: Tx, c: Call)
    requires Sound(t) && t.running && Step(t, c).running
    ensures Step(t, c).baseline == t.baseline
  {
    match c {
      case Aborted(io) =>
        PollKeeps(t.(prepared := false), io.first);
        DrainKeeps(Poll(t.(prepared := false), io.first), io.later);
      case _ =>
    }
  }

  /** Never a stale event: a triggered transmission is over only after a status word read since then shows it. */
  lemma {:induction false} DoneIsNeverStale(t: Tx, calls: seq<Call>)
    requires Sound(t) && t.running && !Run(t, calls).running
    ensures exists s :: s in AllReads(t, calls) && Finished(s, t.baseline)
    decreases |calls|
  {
    hide Step, Reads, Finished;
    var u := Step(t, calls[0]);
    StepKeeps(t, calls[0]);
    if u.running {
      RunningKeepsBaseline(t, calls[0]);
      DoneIsNeverStale(u, calls[1..]);
      var s :| s in AllReads(u, calls[1..]) && Finished(s, t.baseline);
      assert s in AllReads(t, calls);
    } else {
      EndsByReading(t, calls[0]);
      var s :| s in Reads(t, calls[0]) && Finished(s, t.baseline);
      assert s in AllReads(t, calls);
    }
  }

  /** Some abort of the run succeeded: it drained what was running and read the output inactive. */
  predicate SomeAbort(t: Tx, calls: seq<Call>)
    decreases |calls|
  {
    calls != [] &&
    ((calls[0].Aborted? && t.initialized && Aborts(t, calls[0].io)) || SomeAbort(Step(t, calls[0]), calls[1..]))
  }

  /** What makes a transmission done: its own completion event among the words read, or a successful abort. */
  ghost predicate Cause(t: Tx, calls: seq<Call>, baseline: bool) {
    (exists s :: s in AllReads(t, calls) && Finished(s, baseline)) || SomeAbort(t, calls)
  }

  lemma CauseLater(t: Tx, calls: seq<Call>, baseline: bool)
    requires calls != [] && Cause(Step(t, calls[0]), calls[1..], baseline)
    ensures Cause(t, calls, baseline)
  {
    hide Step, Reads, Finished, Aborts;
    var u, rest := Step(t, calls[0]), calls[1..];
    if s :| s in AllReads(u, rest) && Finished(s, baseline) {
      assert s in AllReads(t, calls);
    }
  }

  lemma CauseNow(t: Tx, calls: seq<Call>)
    requires Sound(t) && !t.completed && !t.aborted && calls != [] && !calls[0].Prepared?
    ensures Step(t, calls[0]).completed || Step(t, calls[0]).aborted ==> Cause(t, calls, t.baseline)
    ensures Step(t, calls[0]).baseline == t.baseline
  {
    hide Finished, Reads;
    var c := calls[0];
    if t.running && !Step(t, c).running {
      EndsByReading(t, c);
      var s :| s in Reads(t, c) && Finished(s, t.baseline);
      assert s in AllReads(t, calls);
    }
    match c {
      case Aborted(io) =>
        AbortDrains(t, io);
        PollKeeps(t.(prepared := false), io.first);
        DrainKeeps(Poll(t.(prepared := false), io.first), io.later);
      case _ =>
    }
  }

  /** Between one prepare and the next, done is reported only for a cause that came after the prepare. */
  lemma {:induction false} DoneHasACause(t: Tx, calls: seq<Call>)
    requires Sound(t) && !t.completed && !t.aborted
    requires forall i :: 0 <= i < |calls| ==> !calls[i].Prepared?
    ensures Done(Run(t, calls)) ==> Cause(t, calls, t.baseline)
    decreases |calls|
  {
    hide Step, Sound, Cause;
    if calls != [] {
      var u := Step(t, calls[0]);
      StepKeeps(t, calls[0]);
      CauseNow(t, calls);
      if !u.completed && !u.aborted {
        DoneHasACause(u, calls[1..]);
        if Cause(u, calls[1..], t.baseline) {
          CauseLater(t, calls, t.baseline);
        }
      }
    }
  }

  /** Programming changes only an idle transmitter without faults, starts nothing, and forgets what was done before. */
  lemma ProgrammingNeedsIdle(t: Tx, x: Sample, outcome: Programming)
    requires Sound(t)
    ensures var u := Apply(t, x, outcome);
      && (u.applied != t.applied || u.timeout != t.timeout ==> t.initialized && !t.fault && !t.prepared && !u.running)
      && (u.applied && !t.applied ==> u.timeout == outcome.timeout && !Done(u) && !u.fault)
      && (u.running ==> t.running) && u.prepared == t.prepared
  {
    PollKeeps(t, x);
  }

  /** The status word as it stood when the transmission was prepared can never count as its completion. */
  lemma PreparedIsFresh(t: Tx, x: Sample, low: bool, status: Status)
    requires Sound(t) && Prepares(t, x, low, status)
    ensures var u := Prepare(t, x, low, status);
      && Sound(u) && u.prepared && !Done(u) && !u.fault
      && forall later: Status :: later.toggle == status.toggle ==> !Finished(later, u.baseline)
  {
    PollKeeps(t, x);
  }

  /** A trigger starts exactly a prepared transmission; any other trigger is never reported done, whatever follows. */
  lemma TriggerStartsOnlyPrepared(t: Tx, clock: uint64, calls: seq<Call>)
    requires Sound(t)
    ensures var u := Triggered(t, clock);
      && Sound(u)
      && (t.prepared && !t.fault ==>
           && u.running && !u.fault && !Done(u) && u.baseline == t.baseline
           && forall x: Sample :: !Finished(x.status, t.baseline) ==>
                (Poll(u, x).fault <==> Elapsed(x.clock, clock) >= t.timeout))
      && (!t.prepared || t.fault ==> u.fault && !Done(Run(u, calls)))
  {
    FaultIsLatched(Triggered(t, clock), calls);
  }

  /** A transmission past its deadline may still drain, but is never reported done. */
  lemma TimedOutNeverCompletes(t: Tx, x: Sample, calls: seq<Call>)
    requires Sound(t) && t.running && !Finished(x.status, t.baseline) && Elapsed(x.clock, t.started) >= t.timeout
    ensures Poll(t, x).running && Poll(t, x).fault
    ensures !Done(Run(Poll(t, x), calls))
  {
    PollKeeps(t, x);
    FaultIsLatched(Poll(t, x), calls);
  }

  /** A poll of a running, healthy transmission: done by its own completion word only, faulty when late without it. */
  lemma PollDecides(t: Tx, x: Sample)
    requires Sound(t) && t.running && !t.fault
    ensures var u := Poll(t, x);
      && (Done(u) <==> x.status.toggle != t.baseline && x.status.done && !x.status.active)
      && (u.fault <==> !Done(u) && Elapsed(x.clock, t.started) >= t.timeout)
      && (u.running <==> !Done(u))
  {
  }

  /** The difference of two wrapped clock readings is the time between them, up to one whole turn. */
  lemma ElapsedIsTime(now: nat, since: nat)
    requires since <= now < since + 0x1_0000_0000_0000_0000
    ensures Elapsed(now % 0x1_0000_0000_0000_0000, since % 0x1_0000_0000_0000_0000) == now - since
  {
  }

  /** A transmission is prepared exactly from a programmed, idle, healthy transmitter, line low and output inactive. */
  lemma PrepareDecides(t: Tx, x: Sample, low: bool, status: Status)
    requires Sound(t) && !t.prepared
    ensures var p, u := Poll(t, x), Prepare(t, x, low, status);
      && (Prepares(t, x, low, status) <==> u.prepared)
      && (u.prepared <==> t.initialized && t.applied && !p.fault && !p.running && low && !status.active)
      && (u.fault <==> p.fault || (t.initialized && t.applied && !p.running && !low))
  {
    PollKeeps(t, x);
  }

  /** Start-up succeeds when channel, registers and player are ready and the output inactive; never after a fault. */
  lemma InitDecides(t: Tx, io: InitIo)
    ensures var u := Init(t, io);
      && (u.initialized <==> t.initialized || (!t.fault && io.configured && !io.active && io.ready && io.player))
      && (u.fault <==> t.fault || (!t.initialized && (!io.configured || io.active)))
  {
  }

  /** What each end of programming leaves of an idle, healthy transmitter. */
  lemma ProgrammingDecides(t: Tx, x: Sample, outcome: Programming)
    requires Sound(t) && t.initialized && !t.fault && !t.prepared && !Poll(t, x).running
    ensures var u := Apply(t, x, outcome);
      && (u.fault <==> outcome.TriggerStuck?)
      && (outcome.Programmed? ==> u.applied && u.timeout == outcome.timeout && !Done(u))
      && (outcome.Unselected? ==> !u.applied)
      && (outcome.Refused? || outcome.TriggerStuck? ==> u.applied == t.applied && u.timeout == t.timeout)
  {
    PollKeeps(t, x);
  }

  /** From a programmed, idle transmitter: prepare, trigger and the completion word make a transmission that is done. */
  lemma TransmissionCompletes(t: Tx, x: Sample, status: Status, clock: uint64, end: Sample)
    requires Sound(t) && t.initialized && t.applied && !t.fault && !t.running && !t.prepared && !status.active
    requires end.status.toggle != status.toggle && end.status.done && !end.status.active
    ensures Done(Run(t, [Prepared(x, true, status), Trigger(clock), Polled(end)]))
  {
    var calls := [Prepared(x, true, status), Trigger(clock), Polled(end)];
    var u := Step(t, calls[0]);
    var v := Step(u, Trigger(clock));
    var w := Step(v, Polled(end));
    assert Run(w, []) == w && [Polled(end)][1..] == [];
    assert Run(v, [Polled(end)]) == w && calls[1..][1..] == [Polled(end)];
    assert Run(u, calls[1..]) == w;
  }

  const CLEARED := Tx(false, false, false, false, false, false, false, 0, false, 0, None)

  class Transmitter {
    var tx: Tx

    constructor ()
      ensures tx == CLEARED && Sound(tx)
    {
      tx := CLEARED;
    }

    method InitTx(io: InitIo) returns (ok: bool)
      modifies this
      ensures tx == Init(old(tx), io) && ok == (tx.initialized && !tx.fault)
    {
      if tx.initialized {
        return !tx.fault;
      }
      if tx.fault {
        return false;
      }
      if !io.configured || io.active {
        tx := tx.(fault := true);
        return false;
      }
      if !io.ready || !io.player {
        return false;
      }
      tx := tx.(initialized := true);
      return true;
    }

    method PollTx(x: Sample)
      modifies this
      ensures tx == Poll(old(tx), x)
    {
      if !tx.running {
        return;
      }
      if Finished(x.status, tx.baseline) {
        tx := tx.(running := false, completed := !tx.fault, ending := Some(x.status));
        return;
      }
      if Elapsed(x.clock, tx.started) >= tx.timeout {
        tx := tx.(completed := false, fault := true);
      }
    }

    method ApplyTx(x: Sample, outcome: Programming)
      modifies this
      ensures tx == Apply(old(tx), x, outcome)
    {
      PollTx(x);
      if !tx.initialized || tx.fault || tx.running || tx.prepared {
        return;
      }
      match outcome {
        case Refused =>
        case TriggerStuck => tx := tx.(fault := true);
        case Unselected => tx := tx.(applied := false);
        case Programmed(timeout) =>
          tx := tx.(timeout := timeout, applied := true);
          tx := tx.(completed := false, aborted := false);
      }
    }

    method PrepareTx(x: Sample, low: bool, status: Status) returns (ok: bool)
      modifies this
      ensures ok == Prepares(old(tx), x, low, status)
      ensures tx == Prepare(old(tx), x, low, status)
    {
      PollTx(x);
      if !tx.initialized || !tx.applied || tx.fault || tx.running || tx.prepared {
        return false;
      }
      if !low {
        tx := tx.(fault := true);
        return false;
      }
      if status.active {
        return false;
      }
      tx := tx.(baseline := status.toggle, completed := false, aborted := false, ending := None);
      tx := tx.(prepared := true);
      return true;
    }

    method TriggerTx(clock: uint64)
      modifies this
      ensures tx == Triggered(old(tx), clock)
    {
      if !tx.initialized || !tx.prepared || tx.running || tx.fault {
        tx := tx.(fault := true);
        return;
      }
      tx := tx.(started := clock, prepared := false);
      tx := tx.(running := true, completed := false, aborted := false);
    }

    /** `io.later` holds one sample per tick until the wait times out. */
    method AbortTx(io: AbortIo) returns (ok: bool)
      modifies this
      ensures ok == Aborts(old(tx), io)
      ensures tx == Abort(old(tx), io)
    {
      if !tx.initialized {
        return true;
      }
      tx := tx.(prepared := false);
      if !io.muted || !io.low {
        tx := tx.(fault := true);
        return false;
      }
      PollTx(io.first);
      var i := 0;
      while tx.running
        invariant 0 <= i <= |io.later|
        invariant Drain(tx, io.later[i..]) == Drained(old(tx), io)
        decreases |io.later| - i
      {
        if i == |io.later| {
          tx := tx.(fault := true);
          return false;
        }
        assert io.later[i..][1..] == io.later[i + 1..];
        PollTx(io.later[i]);
        i := i + 1;
      }
      if tx.fault || io.last.active {
        tx := tx.(fault := true);
        return false;
      }
      tx := tx.(completed := false, aborted := true);
      return true;
    }
  }
}
