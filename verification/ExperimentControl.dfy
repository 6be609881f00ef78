/**
 The desktop's start and stop handshake with the board's console. A run is sent only after the board has
 confirmed, in one status line, everything the operator asked for.
 */
module ExperimentControl {
  import opened MachineIntegers
  import opened Options

  const WAIT := 10.0
  const FRESH := 4.0
  const QUERY := 1.0

  datatype BoardState = Unknown | Idle | WaitBuffer | Acquire | PreMove | Moving | Settling | Stopped | Fault
  datatype Phase = Resting | Prompt | Value | Starting | Stopping

  datatype Audio = Audio(configId: nat, wav: bool, durationUs: nat, amplitudePct: nat, waveformId: nat)
  datatype Report = Report(audio: Audio, ready: bool)

  /** A status line of the board, with its audio part when there is one. */
  datatype Status = Status(state: BoardState, cycle: nat, steps: int, receiver: bool, ddr: nat, audio: Option<Report>)

  /** What one console line contains; the patterns are not exclusive. */
  datatype Text = Text(init: bool, fault: bool, prompt: bool, stored: bool, rejected: bool, status: Option<Status>)

  datatype Command = Query | AskPositions | Positions(n: int) | RunScan | Halt

  /** History: an accepted start, anything that cancels it, and a run with the evidence it was based on. */
  datatype Entry =
    | Accepted(steps: int)
    | Broken
    | Ran(steps: int, evidence: Status, applied: Option<Audio>, ethernet: bool)

  predicate IdleState(b: BoardState) {
    b == Idle || b == Stopped
  }

  /** The board idle with the requested signed positions, the applied audio, a receiver and an empty queue. */
  predicate Confirms(s: Status, steps: int, applied: Option<Audio>) {
    && IdleState(s.state) && s.steps == steps && s.receiver && s.ddr == 0
    && applied.Some? && s.audio.Some? && s.audio.value.ready && s.audio.value.audio == applied.value
  }

  /** Every run answers the accepted start right before it, with nothing in between, on confirming evidence. */
  ghost predicate Justified(log: seq<Entry>) {
    forall i :: 0 <= i < |log| && log[i].Ran? ==>
      && i > 0 && log[i - 1] == Accepted(log[i].steps)
      && Confirms(log[i].evidence, log[i].steps, log[i].applied) && log[i].ethernet
  }

  lemma JustifiedMore(log: seq<Entry>, e: Entry)
    requires Justified(log)
    requires e.Ran? ==>
      && log != [] && log[|log| - 1] == Accepted(e.steps)
      && Confirms(e.evidence, e.steps, e.applied) && e.ethernet
    ensures Justified(log + [e])
  {
    var all := log + [e];
    forall i | 0 <= i < |all| && all[i].Ran?
      ensures i > 0 && all[i - 1] == Accepted(all[i].steps)
      ensures Confirms(all[i].evidence, all[i].steps, all[i].applied) && all[i].ethernet
    {
      if i < |log| {
        assert log[i].Ran?;
      }
    }
  }

  function Count(log: seq<Entry>, runs: bool): nat {
    if log == [] then 0
    else
      var e := log[|log| - 1];
      Count(log[..|log| - 1], runs) + if (if runs then e.Ran? else e.Accepted?) then 1 else 0
  }

  /** So there are never more runs than accepted starts, and one fewer while a start is pending. */
  lemma {:induction false} RunsDoNotExceedStarts(log: seq<Entry>)
    requires Justified(log)
    ensures Count(log, true) <= Count(log, false)
    ensures log != [] && log[|log| - 1].Accepted? ==> Count(log, true) < Count(log, false)
    decreases |log|
  {
    if log != [] {
      var before := log[..|log| - 1];
      forall i | 0 <= i < |before| && before[i].Ran?
        ensures i > 0 && before[i - 1] == Accepted(before[i].steps)
             && Confirms(before[i].evidence, before[i].steps, before[i].applied) && before[i].ethernet
      {
        assert log[i].Ran?;
      }
      RunsDoNotExceedStarts(before);
      if log[|log| - 1].Ran? {
        assert before[|before| - 1] == Accepted(log[|log| - 1].steps);
      }
    }
  }

  /** Signed positions from the operator's text, already read as a number. */
  function ParseSteps(value: Option<nat>, reverse: bool): (r: Option<int>)
    ensures r.Some? <==> value.Some? && 1 <= value.value <= 1000
    ensures r.Some? ==> Abs(r.value) == value.value && (r.value < 0 <==> reverse)
  {
    if value.None? || !(1 <= value.value <= 1000) then None
    else
      var n: int := value.value;
      Some(if reverse then -n else n)
  }

  datatype Desk = Desk(
    consoleUp: bool, ethernetUp: bool, receiverConfirmed: bool, faultLatched: bool, board: BoardState, phase: Phase,
    cycle: nat, ddr: nat, requested: int, stored: bool, deadline: real, lastStatus: real, lastQuery: real,
    applied: Option<Audio>, reported: Option<Report>)

  const OFFLINE := Desk(false, false, false, false, Unknown, Resting, 0, 0, 0, false, 0.0, 0.0, 0.0, None, None)

  predicate CanConfigure(d: Desk, now: real) {
    && d.consoleUp && d.ethernetUp && d.receiverConfirmed && !d.faultLatched && d.phase == Resting
    && IdleState(d.board) && now - d.lastStatus < FRESH
  }

  predicate AudioMatches(d: Desk) {
    d.applied.Some? && d.reported.Some? && d.reported.value.ready && d.applied.value == d.reported.value.audio
  }

  predicate CanStart(d: Desk, now: real) {
    CanConfigure(d, now) && AudioMatches(d) && d.ddr == 0
  }

  /** Between an accepted start and its run the operator's start is under way. */
  predicate Pending(p: Phase) {
    p == Prompt || p == Value
  }

  /** With this line an accepted start has its number stored and awaits its confirmation. */
  predicate Awaits(d: Desk, t: Text) {
    && (d.phase == Value || (d.phase == Prompt && t.prompt && d.ethernetUp)) && (d.stored || t.stored)
    && !t.init && !t.fault && !t.rejected
  }

  function Runs(sent: seq<Command>): nat {
    if sent == [] then 0 else Runs(sent[..|sent| - 1]) + if sent[|sent| - 1] == RunScan then 1 else 0
  }

  lemma RunsMore(sent: seq<Command>, c: Command)
    ensures Runs(sent + [c]) == Runs(sent) + if c == RunScan then 1 else 0
  {
    assert (sent + [c])[..|sent|] == sent;
  }

  lemma CountMore(log: seq<Entry>, e: Entry)
    ensures Count(log + [e], true) == Count(log, true) + if e.Ran? then 1 else 0
  {
    assert (log + [e])[..|log|] == log;
  }

  class Control {
    var d: Desk

    ghost var sent: seq<Command>
    ghost var log: seq<Entry>

    /** History and commands agree: as many runs were sent as are justified. */
    ghost predicate Recorded()
      reads this`sent, this`log
    {
      Justified(log) && Runs(sent) == Count(log, true)
    }

    /** A start that has been accepted and not answered is the last thing in the history. */
    ghost predicate Valid()
      reads this
    {
      && Recorded()
      && (Pending(d.phase) ==> log != [] && log[|log| - 1] == Accepted(d.requested))
      && (d.phase != Resting ==> d.consoleUp)
    }

    constructor ()
      ensures Valid() && log == [] && sent == [] && d == OFFLINE
    {
      d, sent, log := OFFLINE, [], [];
    }

    method Send(c: Command)
      requires c != RunScan && Recorded()
      modifies this`sent
      ensures sent == old(sent) + [c] && Recorded()
    {
      hide Justified, Count;
      RunsMore(sent, c);
      sent := sent + [c];
    }

    /** Whatever start was pending is over. */
    ghost method Break()
      requires Recorded()
      modifies this`log
      ensures log == old(log) + [Broken] && Recorded() && Count(log, true) == Count(old(log), true)
    {
      hide Justified, Count;
      JustifiedMore(log, Broken);
      CountMore(log, Broken);
      log := log + [Broken];
    }

    method ApplyAudio(value: Option<Audio>)
      requires Valid()
      modifies this`d
      ensures Valid() && d == old(d).(applied := value, lastStatus := if value.Some? then 0.0 else old(d).lastStatus)
    {
      d := d.(applied := value);
      if value.Some? {
        d := d.(lastStatus := 0.0);
      }
    }

    method ConsoleConnection(up: bool, now: real)
      requires Valid()
      modifies this
      ensures Valid() && log == old(log) + [Broken] && sent == old(sent) + if up then [Query] else []
      ensures d == old(d).(applied := None, reported := None, consoleUp := up, board := Unknown, phase := Resting,
                           receiverConfirmed := false, lastStatus := 0.0, faultLatched := old(d).faultLatched && !up,
                           lastQuery := if up then now else old(d).lastQuery)
      ensures Count(log, true) == Count(old(log), true)
    {
      hide Justified, Count, Runs;
      Break();
      d := d.(applied := None, reported := None, consoleUp := up, board := Unknown, phase := Resting,
              receiverConfirmed := false, lastStatus := 0.0);
      if up {
        d := d.(faultLatched := false, lastQuery := now);
        Send(Query);
      }
    }

    /** A lost data connection cancels a start under way; the console it needs for that is up. */
    method EthernetConnection(up: bool, now: real)
      requires Valid()
      modifies this
      ensures Valid() && d.ethernetUp == up && Count(log, true) == Count(old(log), true)
      ensures !up && (Pending(old(d).phase) || old(d).phase == Starting) ==>
        && d == old(d).(ethernetUp := false, applied := None, phase := Stopping, deadline := now + WAIT,
                        lastQuery := 0.0)
        && log == old(log) + [Broken] && sent == old(sent) + [Halt]
      ensures up || !(Pending(old(d).phase) || old(d).phase == Starting) ==>
        d == old(d).(ethernetUp := up, applied := if up then old(d).applied else None) && sent == old(sent)
    {
      hide Justified, Count, Runs;
      d := d.(ethernetUp := up);
      if !up {
        ApplyAudio(None);
        if Pending(d.phase) || d.phase == Starting {
          var _ := Stop(now);
        }
      }
    }

    /** Accepts only on fresh, matching confirmations and an empty queue. */
    method Start(value: Option<nat>, reverse: bool, now: real) returns (ok: bool)
      requires Valid()
      modifies this
      ensures Valid() && Count(log, true) == Count(old(log), true)
      ensures ok <==>
        && value.Some? && 1 <= value.value <= 1000
        && old(d).consoleUp && old(d).ethernetUp && old(d).receiverConfirmed && !old(d).faultLatched
        && old(d).phase == Resting && (old(d).board == Idle || old(d).board == Stopped) && now - old(d).lastStatus < 4.0
        && old(d).applied.Some? && old(d).reported == Some(Report(old(d).applied.value, true)) && old(d).ddr == 0
      ensures ok ==> d.requested == if reverse then 0 - value.value else value.value
      ensures ok ==> d == old(d).(requested := d.requested, stored := false, phase := Prompt, deadline := now + WAIT)
      ensures ok ==> log == old(log) + [Accepted(d.requested)] && sent == old(sent) + [AskPositions]
      ensures !ok ==> d == old(d) && log == old(log) && sent == old(sent)
    {
      hide Justified, Count, Runs;
      var steps := ParseSteps(value, reverse);
      if steps.None? || !CanStart(d, now) {
        return false;
      }
      JustifiedMore(log, Accepted(steps.value));
      CountMore(log, Accepted(steps.value));
      log := log + [Accepted(steps.value)];
      d := d.(requested := steps.value, stored := false, phase := Prompt, deadline := now + WAIT);
      Send(AskPositions);
      return true;
    }

    method Stop(now: real) returns (ok: bool)
      requires Valid()
      modifies this
      ensures Valid() && ok == d.consoleUp && Count(log, true) == Count(old(log), true)
      ensures ok ==> d == old(d).(phase := Stopping, deadline := now + WAIT, lastQuery := 0.0)
      ensures ok ==> log == old(log) + [Broken] && sent == old(sent) + [Halt]
      ensures !ok ==> d == old(d) && log == old(log) && sent == old(sent)
    {
      hide Justified, Count, Runs;
      if !d.consoleUp {
        return false;
      }
      Break();
      d := d.(phase := Stopping, deadline := now + WAIT, lastQuery := 0.0);
      Send(Halt);
      return true;
    }

    /**
     One console line. It sends a run exactly when it is a status line that confirms the accepted start, whose number
     has been stored; then the start is answered. A status line that does not confirm it, or a rejection, stops instead.
     */
    method Line(t: Text, prepared: bool, now: real)
      requires Valid()
      modifies this
      ensures Valid() && Count(old(log), true) <= Count(log, true) <= Count(old(log), true) + 1
      ensures Count(log, true) != Count(old(log), true) <==>
        && Awaits(old(d), t) && t.status.Some? && prepared && old(d).ethernetUp
        && var s := t.status.value;
           && (s.state == Idle || s.state == Stopped) && s.steps == old(d).requested && s.receiver && s.ddr == 0
           && s.cycle >= old(d).cycle
           && old(d).applied.Some? && s.audio == Some(Report(old(d).applied.value, true))
      ensures Count(log, true) != Count(old(log), true) ==>
        d.phase == Starting && sent != [] && sent[|sent| - 1] == RunScan
      ensures Count(log, true) == Count(old(log), true) && Awaits(old(d), t) && t.status.Some? ==>
        if t.status.value.state == Fault then d.phase == Resting && d.faultLatched
        else d.phase == Stopping && sent != [] && sent[|sent| - 1] == Halt
      ensures (t.rejected && (Pending(old(d).phase) || old(d).phase == Starting) && !t.init && !t.fault) ==>
        d.phase == Stopping && sent != [] && sent[|sent| - 1] == Halt
      ensures old(d).phase == Prompt && t.prompt && old(d).ethernetUp && !t.init && !t.fault ==>
        |sent| > |old(sent)| && sent[|old(sent)|] == Positions(old(d).requested)
      ensures old(d).phase == Prompt && t.prompt && !old(d).ethernetUp && !t.init && !t.fault ==>
        d.phase == Stopping && sent == old(sent) + [Halt]
      ensures t.status.None? && !t.init && !t.fault && !t.rejected
              && (old(d).phase == Value || (old(d).phase == Prompt && t.prompt && old(d).ethernetUp)) ==>
        d.phase == Value && d.stored == (old(d).stored || t.stored)
      ensures old(sent) <= sent && (t.fault && !t.init ==> d.faultLatched && d.phase == Resting && d.board == Fault)
      ensures t.init ==> d.phase == Resting && d.applied.None? && !d.faultLatched && d.board == Unknown
    {
      hide Justified, Count, Runs;
      if t.init {
        Break();
        d := d.(applied := None, reported := None, board := Unknown, phase := Resting, receiverConfirmed := false,
                faultLatched := false, lastStatus := 0.0);
        return;
      }
      if t.fault {
        Break();
        d := d.(faultLatched := true, board := Fault, phase := Resting);
        return;
      }
      var over := OnAnswer(t, now);
      if !over && t.status.Some? {
        OnStatus(t.status.value, prepared, now);
      }
    }

    /** The board's answers to a start under way: its prompt, that the number is stored, or a rejection. */
    method OnAnswer(t: Text, now: real) returns (over: bool)
      requires Valid()
      modifies this
      ensures Valid() && Count(log, true) == Count(old(log), true)
      ensures over <==>
        || (old(d).phase == Prompt && t.prompt && !old(d).ethernetUp)
        || ((Pending(old(d).phase) || old(d).phase == Starting) && t.rejected)
      ensures over ==> d.phase == Stopping && sent != [] && sent[|sent| - 1] == Halt
      ensures var asked := old(d).phase == Prompt && t.prompt && old(d).ethernetUp;
        sent == old(sent) + (if asked then [Positions(old(d).requested)] else []) + (if over then [Halt] else [])
      ensures !over ==>
        var asked := old(d).phase == Prompt && t.prompt;
        d == old(d).(phase := if asked then Value else old(d).phase,
                     deadline := if asked then now + WAIT else old(d).deadline,
                     stored := old(d).stored || ((asked || old(d).phase == Value) && t.stored))
    {
      hide Justified, Count, Runs, Confirms;
      if d.phase == Prompt && t.prompt {
        if !d.ethernetUp {
          var _ := Stop(now);
          return true;
        }
        Send(Positions(d.requested));
        d := d.(phase := Value, deadline := now + WAIT);
      }
      if d.phase == Value && t.stored {
        d := d.(stored := true);
      }
      if (Pending(d.phase) || d.phase == Starting) && t.rejected {
        var _ := Stop(now);
        return true;
      }
      return false;
    }

    method OnStatus(s: Status, prepared: bool, now: real)
      requires Valid()
      modifies this
      ensures Valid() && Count(old(log), true) <= Count(log, true) <= Count(old(log), true) + 1
      ensures Count(log, true) != Count(old(log), true) <==>
        && old(d).phase == Value && old(d).stored && prepared && old(d).ethernetUp && s.cycle >= old(d).cycle
        && Confirms(s, old(d).requested, old(d).applied)
      ensures old(sent) <= sent
      ensures Count(log, true) != Count(old(log), true) ==> d.phase == Starting && sent == old(sent) + [RunScan]
      ensures Count(log, true) == Count(old(log), true) && old(d).phase == Value && old(d).stored ==>
        if s.state == Fault then d.phase == Resting && d.faultLatched
        else d.phase == Stopping && sent == old(sent) + [Halt]
      ensures d.board == s.state && d.cycle == s.cycle && d.ddr == s.ddr && d.reported == s.audio && d.lastStatus == now
      ensures d.receiverConfirmed == s.receiver
      ensures old(d).phase == Starting && s.state != Fault ==>
        d.phase == if IdleState(s.state) then Starting else Resting
      ensures old(d).phase == Stopping && s.state != Fault ==>
        d.phase == if s.state == Stopped then Resting else Stopping
    {
      hide Justified, Count, Runs;
      if s.cycle < d.cycle {
        ApplyAudio(None);
      }
      d := d.(reported := s.audio, board := s.state, cycle := s.cycle, ddr := s.ddr, receiverConfirmed := s.receiver,
              lastStatus := now);
      if s.state == Fault {
        Break();
        d := d.(faultLatched := true, phase := Resting);
      } else if d.phase == Value && d.stored {
        if !IdleState(s.state) || s.steps != d.requested || !d.ethernetUp || !s.receiver || !AudioMatches(d)
           || d.ddr != 0 || !prepared {
          var _ := Stop(now);
        } else {
          SendRun(s, now);
        }
      } else if d.phase == Starting && !IdleState(s.state) {
        d := d.(phase := Resting);
      } else if d.phase == Stopping && s.state == Stopped {
        d := d.(phase := Resting);
      }
    }

    method SendRun(s: Status, now: real)
      requires Valid() && d.phase == Value && Confirms(s, d.requested, d.applied) && d.ethernetUp
      modifies this
      ensures Valid() && Count(log, true) == Count(old(log), true) + 1 && sent == old(sent) + [RunScan]
      ensures d == old(d).(phase := Starting, deadline := now + WAIT)
    {
      hide Justified, Count, Runs, Confirms;
      ghost var e := Ran(d.requested, s, d.applied, d.ethernetUp);
      JustifiedMore(log, e);
      CountMore(log, e);
      RunsMore(sent, RunScan);
      log, sent := log + [e], sent + [RunScan];
      d := d.(phase := Starting, deadline := now + WAIT);
    }

    /** Asks for status, and stops what the board did not confirm in time; never a run. */
    method Tick(now: real)
      requires Valid()
      modifies this
      ensures Valid() && Count(log, true) == Count(old(log), true)
      ensures var asks := old(d).consoleUp && !Pending(old(d).phase) && now - old(d).lastQuery >= QUERY;
        var late := old(d).phase != Resting && now >= old(d).deadline;
        && sent == old(sent) + (if asks then [Query] else [])
                   + (if late && old(d).phase != Stopping then [Halt] else [])
        && (!late ==> d == old(d).(lastQuery := if asks then now else old(d).lastQuery))
        && (late ==> d.phase == (if old(d).phase == Stopping then Resting else Stopping))
        && (late && old(d).phase == Stopping ==> d.board == Unknown)
        && (late && old(d).phase != Stopping ==> d.deadline == now + WAIT)
    {
      hide Justified, Count, Runs;
      if d.consoleUp && !Pending(d.phase) && now - d.lastQuery >= QUERY {
        Send(Query);
        d := d.(lastQuery := now);
      }
      if d.phase != Resting && now >= d.deadline {
        if d.phase == Stopping {
          d := d.(phase := Resting, board := Unknown);
        } else {
          var _ := Stop(now);
        }
      }
    }
  }
}
