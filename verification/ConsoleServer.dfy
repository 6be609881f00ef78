/** The board's serving loop: it composes each packet in one buffer, from the ring of history. */
module ConsoleServer {
  import opened MachineIntegers
  import opened LittleEndian
  import opened ConsoleBuffer
  import opened ConsoleFrames
  import ConsoleLog

  class Connection {
    const ring: Ring
    const packet: array<uint8>
    const historyEnd: nat

    var cursor: nat
    var live: bool
    var size: nat
    ghost var packets: seq<Packet>

    ghost predicate Valid()
      reads this, ring, ring.data
    {
      ring.Valid() && packet.Length == 4 + MAX_PAYLOAD && packet != ring.data && cursor <= |ring.log|
    }

    ghost function State(): ConsoleLog.State
      reads this, ring
    {
      ConsoleLog.State(ring.log, cursor, historyEnd, live, packets)
    }

    /** A new connection starts at the beginning of the log; what is complete now is its history. */
    constructor (ring: Ring)
      requires ring.Valid()
      ensures Valid() && State() == ConsoleLog.Connected(ring.log) && ConsoleLog.Invariant(State())
      ensures this.ring == ring && fresh(packet)
    {
      this.ring := ring;
      packet := new uint8[4 + MAX_PAYLOAD];
      historyEnd := ring.complete;
      cursor, live, size, packets := 0, false, 0, [];
      new;
      ConsoleLog.ConnectedInvariant(ring.log);
    }

    /** Puts the header in front of a payload that is already in place. */
    method PutHeader(kind: uint8, count: nat, ghost p: Packet)
      requires packet.Length == 4 + MAX_PAYLOAD && Sendable(p)
      requires kind == Kind(p) && count == |Payload(p)| && packet[4..4 + count] == Payload(p)
      modifies packet
      ensures packet[..4 + count] == Encode(p)
    {
      hide Put;
      ghost var payload := packet[4..4 + count];
      packet[0], packet[1] := MAGIC, kind;
      packet[2], packet[3] := count % 0x100, count / 0x100 % 0x100;
      assert packet[4..4 + count] == payload;
      assert packet[..4 + count] == packet[..4] + payload;
    }

    /** The payload of a gap report: its length, least significant byte first. */
    method PutNumber(n: nat, width: nat)
      requires packet.Length == 4 + MAX_PAYLOAD && width <= MAX_PAYLOAD
      modifies packet
      ensures packet[4..4 + width] == Put(n, width)
    {
      var rest := n;
      var i := 0;
      while i < width
        invariant 0 <= i <= width
        invariant Put(n, width) == packet[4..4 + i] + Put(rest, width - i)
      {
        ghost var before := packet[4..4 + i];
        packet[4 + i] := rest % 0x100;
        assert packet[4..4 + i + 1] == before + [rest % 0x100];
        assert Put(rest, width - i) == [rest % 0x100] + Put(rest / 0x100, width - i - 1);
        rest := rest / 0x100;
        i := i + 1;
      }
    }

    /** One pass once the previous packet is out. What is composed is the encoding of the packet that is due. */
    method Compose() returns (composed: bool)
      requires Valid() && ConsoleLog.Invariant(State()) && |ring.log| < 0x1_0000_0000_0000_0000
      modifies this`cursor, this`live, this`size, this`packets, packet
      ensures Valid() && ConsoleLog.Invariant(State())
      ensures State() == ConsoleLog.SendNext(old(State()))
      ensures composed == (packets != old(packets))
      ensures composed ==> 4 <= size <= packet.Length && Sendable(packets[|packets| - 1])
      ensures composed ==> packet[..size] == Encode(packets[|packets| - 1])
    {
      hide ConsoleLog.Invariant, Ring.Valid, Put, Encode, ReadFrom;
      ConsoleLog.StepKeepsInvariant(State(), ConsoleLog.Send);
      var through := if live then ring.written else historyEnd;
      assert ring.written == |ring.log| by {
        RingCounts();
      }
      ReadStays(ring.log, cursor, if live then |ring.log| else historyEnd);
      var count, next, lost := ring.ReadText(cursor, through, packet, 4, MAX_PAYLOAD);
      cursor := next;
      ghost var p := Boundary;
      var kind: uint8 := if live then 'L' as int else 'H' as int;
      if lost != 0 {
        p := Gap(lost);
        kind, count := 'G' as int, 8;
        PutNumber(lost, 8);
      } else if !live && count == 0 && cursor >= historyEnd {
        kind, live := 'R' as int, true;
      } else if count == 0 {
        return false;
      } else {
        p := Text(live, packet[4..4 + count]);
      }
      PutHeader(kind, count, p);
      size := count + 4;
      packets := packets + [p];
      return true;
    }

    static lemma ReadStays(log: seq<uint8>, cursor: nat, through: nat)
      requires cursor <= |log|
      ensures match ReadFrom(log, cursor, through, MAX_PAYLOAD)
              case Lost(n) => 0 < n && cursor + n <= |log|
              case Read(text) => cursor + |text| <= |log| && |text| <= MAX_PAYLOAD
    {
    }

    lemma RingCounts()
      requires ring.Valid()
      ensures ring.written == |ring.log|
    {
    }
  }
}
