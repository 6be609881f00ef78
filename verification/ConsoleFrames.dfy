/** Console packets on the wire, and the host's incremental decoder. */
module ConsoleFrames {
  import opened MachineIntegers
  import opened LittleEndian
  import opened ConsoleBuffer

  const MAX_PAYLOAD := 512
  const MAX_LINE := 8192
  const CARRIAGE_RETURN := 13
  const MAGIC: uint8 := 0x43

  datatype Packet = Text(live: bool, bytes: seq<uint8>) | Gap(lost: nat) | Boundary
  datatype Event = Line(text: seq<uint8>) | History(text: seq<uint8>) | Overwritten(lost: nat) | BecameLive

  /** The decoder's state between packets, and with the bytes of an unfinished packet. */
  datatype Core = Core(line: seq<uint8>, live: bool, discard: bool)
  datatype Decoder = Decoder(pending: seq<uint8>, core: Core)

  datatype Outcome<S> = Rejected | Accepted(state: S, events: seq<Event>)

  const FRESH := Core([], false, false)

  function Strip(line: seq<uint8>): seq<uint8> {
    if line != [] && line[|line| - 1] == CARRIAGE_RETURN then Strip(line[..|line| - 1]) else line
  }

  /** `text` is `line` without the carriage returns at its end. */
  predicate Stripped(text: seq<uint8>, line: seq<uint8>) {
    && text <= line && (forall i :: |text| <= i < |line| ==> line[i] == 13)
    && (text == [] || text[|text| - 1] != 13)
  }

  lemma {:induction false} StripStrips(line: seq<uint8>)
    ensures Stripped(Strip(line), line)
    decreases |line|
  {
    if line != [] && line[|line| - 1] == CARRIAGE_RETURN {
      StripStrips(line[..|line| - 1]);
    }
  }

  lemma StrippedOnce(a: seq<uint8>, b: seq<uint8>, line: seq<uint8>)
    requires Stripped(a, line) && Stripped(b, line)
    ensures a == b
  {
    assert |a| > 0 ==> a[|a| - 1] == line[|a| - 1];
    assert |b| > 0 ==> b[|b| - 1] == line[|b| - 1];
  }

  function TakeByte(c: Core, value: uint8): Outcome<Core> {
    if c.discard then Accepted(if value == NEWLINE then c.(discard := false) else c, [])
    else if value == NEWLINE then
      Accepted(c.(line := []), [if c.live then Line(Strip(c.line)) else History(Strip(c.line))])
    else if |c.line| + 1 > MAX_LINE then Rejected
    else Accepted(c.(line := c.line + [value]), [])
  }

  /** `next` after `first`, with the events of both. */
  function After<S>(first: seq<Event>, next: Outcome<S>): Outcome<S> {
    if next.Rejected? then Rejected else Accepted(next.state, first + next.events)
  }

  function TakeText(c: Core, bytes: seq<uint8>): Outcome<Core>
    decreases |bytes|
  {
    if bytes == [] then Accepted(c, [])
    else
      var r := TakeByte(c, bytes[0]);
      if r.Rejected? then Rejected else After(r.events, TakeText(r.state, bytes[1..]))
  }

  lemma AfterTwice<S>(a: seq<Event>, b: seq<Event>, next: Outcome<S>)
    ensures After(a, After(b, next)) == After(a + b, next)
  {
    if next.Accepted? {
      assert a + (b + next.events) == a + b + next.events;
    }
  }

  lemma AfterNothing<S>(next: Outcome<S>)
    ensures After([], next) == next
  {
  }

  /** One byte at position `i` of a payload. */
  lemma TextStep(start: Core, c: Core, payload: seq<uint8>, i: nat, events: seq<Event>)
    requires i < |payload| && TakeText(start, payload) == After(events, TakeText(c, payload[i..]))
    ensures var r := TakeByte(c, payload[i]);
      TakeText(start, payload) ==
        if r.Rejected? then Rejected else After(events + r.events, TakeText(r.state, payload[i + 1..]))
  {
    hide TakeByte;
    assert payload[i..][1..] == payload[i + 1..];
    var r := TakeByte(c, payload[i]);
    if r.Accepted? {
      AfterTwice(events, r.events, TakeText(r.state, payload[i + 1..]));
    }
  }

  lemma TextEnds(c: Core, events: seq<Event>)
    ensures After(events, TakeText(c, [])) == Accepted(c, events)
  {
  }

  function Handle(c: Core, kind: uint8, payload: seq<uint8>): Outcome<Core> {
    if kind == 'R' as int then
      if payload != [] || c.live || c.line != [] then Rejected else Accepted(c.(live := true), [BecameLive])
    else if kind == 'G' as int then
      if |payload| != 8 || c.live then Rejected
      else Accepted(c.(line := [], discard := true), [Overwritten(Little(payload))])
    else if (kind == 'L' as int) != c.live then Rejected
    else TakeText(c, payload)
  }

  predicate KnownKind(kind: uint8) {
    kind == 'H' as int || kind == 'L' as int || kind == 'R' as int || kind == 'G' as int
  }

  /** Handles every complete packet that is pending. */
  function Drain(d: Decoder): Outcome<Decoder>
    decreases |d.pending|
  {
    if |d.pending| < 4 then Accepted(d, [])
    else
      var kind, length := d.pending[1], U16(d.pending, 2);
      if d.pending[0] != MAGIC || length > MAX_PAYLOAD || !KnownKind(kind) then Rejected
      else if |d.pending| < 4 + length then Accepted(d, [])
      else
        var r := Handle(d.core, kind, d.pending[4..4 + length]);
        if r.Rejected? then Rejected else After(r.events, Drain(Decoder(d.pending[4 + length..], r.state)))
  }

  function FeedBytes(d: Decoder, data: seq<uint8>): Outcome<Decoder> {
    Drain(d.(pending := d.pending + data))
  }

  function FeedAll(d: Decoder, chunks: seq<seq<uint8>>): Outcome<Decoder>
    decreases |chunks|
  {
    if chunks == [] then Accepted(d, [])
    else
      var r := FeedBytes(d, chunks[0]);
      if r.Rejected? then Rejected else After(r.events, FeedAll(r.state, chunks[1..]))
  }

  function Joined(chunks: seq<seq<uint8>>): seq<uint8>
    decreases |chunks|
  {
    if chunks == [] then [] else chunks[0] + Joined(chunks[1..])
  }

  /** Nothing is pending that could be handled. */
  predicate Drained(d: Decoder) {
    Drain(d) == Accepted(d, [])
  }

  lemma {:induction false} DrainDrains(d: Decoder)
    ensures Drain(d).Accepted? ==> Drained(Drain(d).state)
    decreases |d.pending|
  {
    hide Handle;
    if |d.pending| >= 4 {
      var length := U16(d.pending, 2);
      if |d.pending| >= 4 + length {
        var r := Handle(d.core, d.pending[1], d.pending[4..4 + length]);
        if r.Accepted? {
          DrainDrains(Decoder(d.pending[4 + length..], r.state));
        }
      }
    }
  }

  /** The header, and a complete packet, read the same with more bytes behind them. */
  lemma HeaderStays(pending: seq<uint8>, more: seq<uint8>)
    requires |pending| >= 4
    ensures var all, n := pending + more, U16(pending, 2);
      && all[0] == pending[0] && all[1] == pending[1] && U16(all, 2) == n
      && (|pending| >= 4 + n ==> all[4..4 + n] == pending[4..4 + n] && all[4 + n..] == pending[4 + n..] + more)
  {
    hide Little;
    var all := pending + more;
    assert all[2..4] == pending[2..4];
  }

  lemma DrainOne(d: Decoder)
    requires |d.pending| >= 4
    ensures var n, kind := U16(d.pending, 2), d.pending[1];
      if d.pending[0] != MAGIC || n > MAX_PAYLOAD || !KnownKind(kind) then Drain(d) == Rejected
      else if |d.pending| < 4 + n then Drain(d) == Accepted(d, [])
      else
        var r := Handle(d.core, kind, d.pending[4..4 + n]);
        Drain(d) == if r.Rejected? then Rejected else After(r.events, Drain(Decoder(d.pending[4 + n..], r.state)))
  {
    hide Little, Handle, KnownKind;
  }

  /** More bytes do not change what was handled before them. */
  lemma {:induction false} DrainThenMore(d: Decoder, more: seq<uint8>)
    ensures var r := Drain(d);
      FeedBytes(d, more) == if r.Rejected? then Rejected else After(r.events, FeedBytes(r.state, more))
    decreases |d.pending|
  {
    hide Handle, KnownKind, Little, Drain;
    if |d.pending| < 4 {
      assert Drain(d) == Accepted(d, []) by {
        ShortWaits(d);
      }
      AfterNothing(FeedBytes(d, more));
    } else {
      var e := d.(pending := d.pending + more);
      HeaderStays(d.pending, more);
      DrainOne(d);
      DrainOne(e);
      var n := U16(d.pending, 2);
      if d.pending[0] == MAGIC && n <= MAX_PAYLOAD && KnownKind(d.pending[1]) {
        if |d.pending| < 4 + n {
          AfterNothing(FeedBytes(d, more));
        } else {
          var r := Handle(d.core, d.pending[1], d.pending[4..4 + n]);
          if r.Accepted? {
            var f := Decoder(d.pending[4 + n..], r.state);
            DrainThenMore(f, more);
            if Drain(f).Accepted? {
              AfterTwice(r.events, Drain(f).events, FeedBytes(Drain(f).state, more));
            }
          }
        }
      }
    }
  }

  /** What is never accepted, as soon as four bytes are there: a wrong first byte, an unknown kind, over 512 bytes. */
  lemma BadHeaders(d: Decoder)
    requires |d.pending| >= 4
    ensures var b := d.pending; var length := b[2] as int + 0x100 * b[3] as int;
      && (b[0] != 67 || b[1] !in {72, 76, 82, 71} || length > 512 ==> Drain(d) == Rejected)
      && (b[0] == 67 && b[1] in {72, 76, 82, 71} && |b| - 4 < length <= 512 ==> Drain(d) == Accepted(d, []))
  {
    hide Little, Handle, Drain;
    DrainOne(d);
    assert d.pending[2..4] == [d.pending[2], d.pending[3]];
    TwoBytes(d.pending[2], d.pending[3]);
  }

  lemma TwoBytes(low: uint8, high: uint8)
    ensures Little([low, high]) == low as int + 0x100 * high as int
  {
    assert [low, high][1..] == [high] && [high][1..] == [];
    assert Little([]) == 0 && Little([high]) == high;
  }

  /** Which complete packets are refused whatever they carry, and what a text's kind demands. */
  lemma RefusedPackets(c: Core, kind: uint8, payload: seq<uint8>)
    requires kind in {72, 76, 82, 71}
    ensures kind == 82 ==> (Handle(c, kind, payload).Rejected? <==> payload != [] || c.live || c.line != [])
    ensures kind == 71 ==> (Handle(c, kind, payload).Rejected? <==> |payload| != 8 || c.live)
    ensures kind == 72 ==> Handle(c, kind, payload) == if c.live then Rejected else TakeText(c, payload)
    ensures kind == 76 ==> Handle(c, kind, payload) == if c.live then TakeText(c, payload) else Rejected
  {
    hide TakeText, Little;
  }

  /** A complete packet is handled and the rest is drained after it. */
  lemma DrainStep(d: Decoder, events: seq<Event>, all: Outcome<Decoder>)
    requires |d.pending| >= 4 && all == After(events, Drain(d))
    ensures var n, kind := U16(d.pending, 2), d.pending[1];
      if d.pending[0] != MAGIC || n > MAX_PAYLOAD || !KnownKind(kind) then all == Rejected
      else if |d.pending| < 4 + n then all == Accepted(d, events)
      else
        var r := Handle(d.core, kind, d.pending[4..4 + n]);
        all == if r.Rejected? then Rejected else After(events + r.events, Drain(Decoder(d.pending[4 + n..], r.state)))
  {
    hide Little, Handle, KnownKind, Drain;
    DrainOne(d);
    var n := U16(d.pending, 2);
    if d.pending[0] == MAGIC && n <= MAX_PAYLOAD && KnownKind(d.pending[1]) && |d.pending| >= 4 + n {
      var r := Handle(d.core, d.pending[1], d.pending[4..4 + n]);
      if r.Accepted? {
        AfterTwice(events, r.events, Drain(Decoder(d.pending[4 + n..], r.state)));
      }
    }
  }

  lemma ShortWaits(d: Decoder)
    requires |d.pending| < 4
    ensures Drain(d) == Accepted(d, [])
  {
  }

  /** However TCP fragments the stream, the decoder ends in the same state with the same events. */
  lemma {:induction false} FragmentsDoNotMatter(d: Decoder, chunks: seq<seq<uint8>>)
    requires Drained(d)
    ensures FeedAll(d, chunks) == FeedBytes(d, Joined(chunks))
    decreases |chunks|
  {
    hide Drain;
    if chunks == [] {
      assert d.pending + [] == d.pending;
      assert Drained(d);
    } else {
      var r := FeedBytes(d, chunks[0]);
      var here := d.(pending := d.pending + chunks[0]);
      assert d.pending + Joined(chunks) == here.pending + Joined(chunks[1..]);
      DrainThenMore(here, Joined(chunks[1..]));
      if r.Accepted? {
        DrainDrains(here);
        FragmentsDoNotMatter(r.state, chunks[1..]);
      }
    }
  }

  // Encoding

  function Kind(p: Packet): uint8 {
    match p
    case Text(live, _) => if live then 'L' as int else 'H' as int
    case Gap(_) => 'G' as int
    case Boundary => 'R' as int
  }

  function Payload(p: Packet): seq<uint8> {
    match p
    case Text(_, bytes) => bytes
    case Gap(lost) => Put(lost, 8)
    case Boundary => []
  }

  predicate Sendable(p: Packet) {
    (p.Text? ==> |p.bytes| <= MAX_PAYLOAD) && (p.Gap? ==> p.lost < 0x1_0000_0000_0000_0000)
  }

  function Encode(p: Packet): seq<uint8>
    requires Sendable(p)
  {
    [MAGIC, Kind(p), |Payload(p)| % 0x100, |Payload(p)| / 0x100 % 0x100] + Payload(p)
  }

  function Deliver(c: Core, p: Packet): Outcome<Core> {
    Handle(c, Kind(p), Payload(p))
  }

  lemma EncodedHeader(p: Packet, rest: seq<uint8>)
    requires Sendable(p)
    ensures var raw := Encode(p) + rest;
      && |raw| >= 4 + |Payload(p)| && raw[0] == MAGIC && raw[1] == Kind(p) && U16(raw, 2) == |Payload(p)| <= MAX_PAYLOAD
      && raw[4..4 + |Payload(p)|] == Payload(p) && raw[4 + |Payload(p)|..] == rest
  {
    var raw := Encode(p) + rest;
    var n := |Payload(p)|;
    var length := raw[2..4];
    assert length == [n % 0x100, n / 0x100];
    assert length[1..] == [n / 0x100] && length[1..][1..] == [];
    assert Little(length[1..][1..]) == 0;
    assert Little(length[1..]) == n / 0x100;
    assert Little(length) == n;
  }

  /** A packet that arrives whole is handled as it was sent. */
  lemma PacketRoundTrip(c: Core, p: Packet, rest: seq<uint8>)
    requires Sendable(p)
    ensures var r := Deliver(c, p);
      Drain(Decoder(Encode(p) + rest, c)) ==
        if r.Rejected? then Rejected else After(r.events, Drain(Decoder(rest, r.state)))
  {
    hide Handle;
    EncodedHeader(p, rest);
    assert KnownKind(Kind(p));
  }

  /** Until a packet is complete nothing is handled, and what arrived is not rejected. */
  lemma PartialPacketWaits(c: Core, p: Packet, k: nat)
    requires Sendable(p) && k < |Encode(p)|
    ensures Drained(Decoder(Encode(p)[..k], c))
  {
    EncodedHeader(p, []);
    var raw := Encode(p);
    assert raw + [] == raw;
    if k >= 4 {
      assert raw[..k][2..4] == raw[2..4];
      assert KnownKind(Kind(p));
    }
  }

  /** A gap report carries its number through the eight bytes. */
  lemma GapRoundTrip(c: Core, lost: nat)
    requires lost < 0x1_0000_0000_0000_0000
    ensures Deliver(c, Gap(lost)) ==
            if c.live then Rejected else Accepted(c.(line := [], discard := true), [Overwritten(lost)])
  {
    Pow2Values();
    Pow2Add(32, 32);
    LittleOfPut(lost, 8);
  }

  class ConsoleDecoder {
    var d: Decoder

    constructor ()
      ensures d == Decoder([], FRESH)
    {
      d := Decoder([], FRESH);
    }

    method TakePayload(payload: seq<uint8>) returns (ok: bool, events: seq<Event>)
      modifies this
      ensures ok == TakeText(old(d).core, payload).Accepted?
      ensures ok ==> TakeText(old(d).core, payload) == Accepted(d.core, events) && d.pending == old(d).pending
    {
      hide TakeText, After;
      events := [];
      var i := 0;
      assert payload[0..] == payload;
      AfterNothing(TakeText(d.core, payload));
      while i < |payload|
        invariant 0 <= i <= |payload| && d.pending == old(d).pending
        invariant TakeText(old(d).core, payload) == After(events, TakeText(d.core, payload[i..]))
      {
        var value := payload[i];
        var c := d.core;
        TextStep(old(d).core, c, payload, i, events);
        i := i + 1;
        if c.discard {
          if value == NEWLINE {
            d := d.(core := c.(discard := false));
          }
          assert events + [] == events;
        } else if value == NEWLINE {
          events := events + [if c.live then Line(Strip(c.line)) else History(Strip(c.line))];
          d := d.(core := c.(line := []));
        } else {
          if |c.line| + 1 > MAX_LINE {
            return false, events;
          }
          d := d.(core := c.(line := c.line + [value]));
          assert events + [] == events;
        }
      }
      assert payload[i..] == [];
      TextEnds(d.core, events);
      return true, events;
    }

    method Feed(data: seq<uint8>) returns (ok: bool, events: seq<Event>)
      modifies this
      ensures ok == FeedBytes(old(d), data).Accepted?
      ensures ok ==> FeedBytes(old(d), data) == Accepted(d, events)
    {
      hide TakeText, Drain, After, Little;
      d := d.(pending := d.pending + data);
      ghost var all := Drain(d);
      events := [];
      AfterNothing(all);
      while |d.pending| >= 4
        invariant all == After(events, Drain(d))
        decreases |d.pending|
      {
        DrainStep(d, events, all);
        var kind, length := d.pending[1], U16(d.pending, 2);
        if d.pending[0] != MAGIC || length > MAX_PAYLOAD || !KnownKind(kind) {
          return false, events;
        }
        if |d.pending| < 4 + length {
          return true, events;
        }
        var payload := d.pending[4..4 + length];
        d := d.(pending := d.pending[4 + length..]);
        var handled, more := HandlePacket(kind, payload);
        if !handled {
          return false, events;
        }
        events := events + more;
      }
      ShortWaits(d);
      NoMore(d, events);
      return true, events;
    }

    method HandlePacket(kind: uint8, payload: seq<uint8>) returns (ok: bool, events: seq<Event>)
      requires KnownKind(kind)
      modifies this
      ensures ok == Handle(old(d).core, kind, payload).Accepted?
      ensures ok ==> Handle(old(d).core, kind, payload) == Accepted(d.core, events) && d.pending == old(d).pending
    {
      hide TakeText, Little;
      var c := d.core;
      if kind == 'R' as int {
        if payload != [] || c.live || c.line != [] {
          return false, [];
        }
        d := d.(core := c.(live := true));
        return true, [BecameLive];
      }
      if kind == 'G' as int {
        if |payload| != 8 || c.live {
          return false, [];
        }
        d := d.(core := c.(line := [], discard := true));
        return true, [Overwritten(Little(payload))];
      }
      if (kind == 'L' as int) != c.live {
        return false, [];
      }
      ok, events := TakePayload(payload);
    }
  }

  lemma NoMore(d: Decoder, events: seq<Event>)
    requires Drain(d) == Accepted(d, [])
    ensures After(events, Drain(d)) == Accepted(d, events)
  {
    hide Drain;
  }
}
