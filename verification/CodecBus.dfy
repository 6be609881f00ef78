/**
 The two-byte write transport to the codec: START with the address, then both data bytes and STOP once
 the bus is seen busy. `pushed` is every word ever put into the transmit FIFO.
 */
module CodecBus {
  import opened MachineIntegers
  import opened Options

  const ADDRESS := 0x1a
  const START_WORD := 0x100 + 2 * ADDRESS
  const STOP_FLAG := 0x200

  /** One look at the interrupt and status registers: error bits, bus-not-busy, bus busy, FIFO empty. */
  datatype Reading = Reading(error: bool, notBusy: bool, busy: bool, empty: bool)
  /** What proves a write: no error, and the bus was given up with everything sent. */
  predicate Proves(r: Reading) {
    !r.error && r.notBusy && r.empty && !r.busy
  }

  datatype Completion = Completion(token: uint32, acknowledged: bool)
  datatype Bytes = Bytes(first: uint8, second: uint8)

  datatype BusFields = BusFields(token: uint32, bytes: Bytes, active: bool, waitingForBusy: bool, terminal: bool,
                                 quarantined: bool)

  /** The three FIFO words of one write. */
  function WordsOf(b: Bytes): seq<nat> {
    [START_WORD, b.first, STOP_FLAG + b.second]
  }

  class Bus {
    var f: BusFields
    ghost var pushed: seq<nat>

    /** `reset` says whether the controller came up idle. */
    constructor (reset: bool)
      ensures pushed == [] && f == BusFields(0, Bytes(0, 0), false, false, false, !reset)
    {
      f := BusFields(0, Bytes(0, 0), false, false, false, !reset);
      pushed := [];
    }

    /** Starts a write on an idle bus; anything else is refused without effect. */
    method Write(bytes: Bytes, token: uint32, idle: bool) returns (ok: bool)
      modifies this
      ensures ok == (token != 0 && !old(f).active && !old(f).quarantined && idle)
      ensures ok ==> f == BusFields(token, bytes, true, true, false, false) && pushed == old(pushed) + [START_WORD]
      ensures !ok ==> f == old(f) && pushed == old(pushed)
    {
      if token == 0 || f.active || f.quarantined || !idle {
        return false;
      }
      f := f.(bytes := bytes, token := token, active := true, terminal := false, waitingForBusy := true);
      pushed := pushed + [START_WORD];
      return true;
    }

    /** Acknowledged means the bus became busy, both bytes and STOP were queued after that, and it is idle again. */
    method Event(r: Reading) returns (event: Option<Completion>)
      modifies this
      ensures !old(f).active || old(f).terminal ==> event.None? && f == old(f) && pushed == old(pushed)
      ensures event.Some? ==>
        event.value.token == old(f).token && old(f).active && !old(f).terminal && pushed == old(pushed)
      ensures event.Some? && event.value.acknowledged ==> f == old(f).(active := false) && !old(f).waitingForBusy
      ensures event.Some? && !event.value.acknowledged ==> f == old(f).(terminal := true)
      ensures old(f).active && !old(f).terminal && r.error ==> event == Some(Completion(old(f).token, false))
      ensures event.Some? ==> (if event.value.acknowledged then Proves(r) else r.error)
      ensures old(f).active && !old(f).terminal && !old(f).waitingForBusy && Proves(r) ==> event.Some?
      ensures pushed != old(pushed) ==> r.busy && !r.error
      ensures event.None? && f == old(f) ==> pushed == old(pushed)
      ensures (event.None? && f != old(f)) <==>
        old(f).active && !old(f).terminal && old(f).waitingForBusy && r.busy && !r.error
      ensures event.None? && f != old(f) ==>
        && old(f).active && !old(f).terminal && old(f).waitingForBusy && f == old(f).(waitingForBusy := false)
        && pushed == old(pushed) + WordsOf(f.bytes)[1..]
    {
      if !f.active || f.terminal {
        return None;
      }
      if r.error {
        f := f.(terminal := true);
        return Some(Completion(f.token, false));
      }
      if f.waitingForBusy {
        if !r.busy {
          return None;
        }
        pushed := pushed + [f.bytes.first];
        pushed := pushed + [STOP_FLAG + f.bytes.second];
        f := f.(waitingForBusy := false);
        return None;
      }
      if r.notBusy && r.empty && !r.busy {
        f := f.(active := false);
        return Some(Completion(f.token, true));
      }
      return None;
    }

    /** A controller that does not reset is quarantined for good. */
    method Abort(reset: bool) returns (ok: bool)
      modifies this
      ensures pushed == old(pushed) && ok == (!old(f).quarantined && reset)
      ensures f == if old(f).quarantined then old(f)
                   else if reset then old(f).(active := false, terminal := false) else old(f).(quarantined := true)
    {
      if f.quarantined {
        return false;
      }
      if !reset {
        f := f.(quarantined := true);
        return false;
      }
      f := f.(active := false, terminal := false);
      return true;
    }
  }
}
