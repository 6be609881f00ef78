/**
 The console as a whole: the board appends to its log, serves it through packets, and the host's decoder
 turns them back into lines. Positions in the log say which lines those are.
 */
module ConsoleLog {
  import opened MachineIntegers
  import opened ConsoleBuffer
  import opened ConsoleFrames

  // Lines of the log

  predicate LineStart(log: seq<uint8>, x: nat)
    requires x <= |log|
  {
    x == 0 || log[x - 1] == NEWLINE
  }

  ghost predicate NoNewline(log: seq<uint8>, x: nat, y: nat)
    requires x <= y <= |log|
  {
    forall k :: x <= k < y ==> log[k] != NEWLINE
  }

  /** A line with its newline at `y`. */
  ghost predicate WholeLine(log: seq<uint8>, x: nat, y: nat) {
    x <= y < |log| && log[y] == NEWLINE && LineStart(log, x) && NoNewline(log, x, y)
  }

  /** The line that begins at `x` is longer than the host's limit. */
  ghost predicate Overlong(log: seq<uint8>, x: nat) {
    x + MAX_LINE < |log| && LineStart(log, x) && NoNewline(log, x, x + MAX_LINE + 1)
  }

  lemma OneLinePerNewline(log: seq<uint8>, x: nat, z: nat, y: nat)
    requires WholeLine(log, x, y) && z <= y && NoNewline(log, z, y)
    ensures x <= z
    ensures LineStart(log, z) ==> x == z
  {
  }

  // Where the host stands

  /** What the host reports: a whole line of the log, a skipped stretch of it, or the live boundary. */
  datatype Mark = Whole(from: nat, to: nat, live: bool) | Skipped(from: nat, to: nat) | Turned

  /**
   `at` is the log position reached; `start` is where the current line began or, while the rest of a
   damaged line is being discarded, where the last gap ended.
   */
  datatype Track = Track(at: nat, start: nat, discard: bool, live: bool, marks: seq<Mark>)

  const ORIGIN := Track(0, 0, false, false, [])

  function TrackByte(t: Track, value: uint8): Track {
    if t.discard then
      if value == NEWLINE then t.(at := t.at + 1, discard := false, start := t.at + 1) else t.(at := t.at + 1)
    else if value == NEWLINE then
      t.(at := t.at + 1, start := t.at + 1, marks := t.marks + [Whole(t.start, t.at, t.live)])
    else t.(at := t.at + 1)
  }

  function TrackText(t: Track, log: seq<uint8>, n: nat): Track
    requires t.at + n <= |log|
    decreases n
  {
    if n == 0 then t else TrackText(TrackByte(t, log[t.at]), log, n - 1)
  }

  function TrackPacket(t: Track, log: seq<uint8>, p: Packet): Track {
    match p
    case Text(_, bytes) => if t.at + |bytes| <= |log| then TrackText(t, log, |bytes|) else t
    case Gap(lost) => t.(at := t.at + lost, start := t.at + lost, discard := true,
                         marks := t.marks + [Skipped(t.at, t.at + lost)])
    case Boundary => t.(live := true, marks := t.marks + [Turned])
  }

  function Follow(log: seq<uint8>, packets: seq<Packet>): Track {
    if packets == [] then ORIGIN else TrackPacket(Follow(log, packets[..|packets| - 1]), log, packets[|packets| - 1])
  }

  predicate Emitted(marks: seq<Mark>, x: nat, y: nat) {
    exists i :: 0 <= i < |marks| && marks[i].Whole? && marks[i].from == x && marks[i].to == y
  }

  /** No gap overlaps the line, and none ends where it begins. */
  predicate Untouched(marks: seq<Mark>, x: nat, y: nat) {
    forall i :: 0 <= i < |marks| && marks[i].Skipped? ==> y < marks[i].from || marks[i].to < x
  }

  /** More bytes of one line than the host keeps have been delivered, with no gap in them or where the line begins. */
  ghost predicate TooLong(t: Track, log: seq<uint8>) {
    exists x: nat :: Overlong(log, x) && x + MAX_LINE < t.at && Untouched(t.marks, x, x + MAX_LINE)
  }

  ghost predicate Ascending(marks: seq<Mark>) {
    forall i, j :: 0 <= i < j < |marks| && marks[i].Whole? && marks[j].Whole? ==> marks[i].to < marks[j].from
  }

  /** Everything reported lies before the current line, or is the gap that is being discarded. */
  ghost predicate Behind(t: Track) {
    && (forall i :: 0 <= i < |t.marks| && t.marks[i].Whole? ==> t.marks[i].to < t.start)
    && (forall i :: 0 <= i < |t.marks| && t.marks[i].Skipped? ==> t.marks[i].from < t.marks[i].to <= t.start)
    && (!t.discard ==> forall i :: 0 <= i < |t.marks| && t.marks[i].Skipped? ==> t.marks[i].to < t.start)
    && (t.discard ==> exists i :: 0 <= i < |t.marks| && t.marks[i].Skipped? && t.marks[i].to == t.start)
  }

  /** What is reported is sound and, up to the current position, complete. */
  ghost predicate Sound(t: Track, log: seq<uint8>) {
    && t.start <= t.at <= |log| && NoNewline(log, t.start, t.at) && (!t.discard ==> LineStart(log, t.start))
    && Behind(t) && Ascending(t.marks)
    && (forall i :: 0 <= i < |t.marks| && t.marks[i].Whole? ==> WholeLine(log, t.marks[i].from, t.marks[i].to))
    && Reported(t, log)
  }

  ghost predicate Reported(t: Track, log: seq<uint8>) {
    forall x: nat, y: nat :: WholeLine(log, x, y) && y < t.at ==> (Emitted(t.marks, x, y) <==> Untouched(t.marks, x, y))
  }

  lemma ByteKeepsSound(t: Track, log: seq<uint8>)
    requires Sound(t, log) && t.at < |log|
    ensures Sound(TrackByte(t, log[t.at]), log)
  {
    var u := TrackByte(t, log[t.at]);
    if log[t.at] == NEWLINE && !t.discard {
      LineEmitted(t, u, log);
    } else {
      forall x: nat, y: nat | WholeLine(log, x, y) && y < u.at
        ensures Emitted(u.marks, x, y) <==> Untouched(u.marks, x, y)
      {
        if y == t.at {
          OneLinePerNewline(log, x, t.start, y);
        }
      }
    }
  }

  lemma LineEmitted(t: Track, u: Track, log: seq<uint8>)
    requires Sound(t, log) && t.at < |log| && log[t.at] == NEWLINE && !t.discard
    requires u == t.(at := t.at + 1, start := t.at + 1, marks := t.marks + [Whole(t.start, t.at, t.live)])
    ensures Sound(u, log)
  {
    var n := |t.marks|;
    assert u.marks[n] == Whole(t.start, t.at, t.live);
    forall x: nat, y: nat | WholeLine(log, x, y) && y < u.at
      ensures Emitted(u.marks, x, y) <==> Untouched(u.marks, x, y)
    {
      MarksExtend(t.marks, Whole(t.start, t.at, t.live), x, y);
      if y == t.at {
        OneLinePerNewline(log, x, t.start, y);
      }
    }
    assert Behind(u);
    assert Ascending(u.marks);
  }

  lemma MarksExtend(marks: seq<Mark>, m: Mark, x: nat, y: nat)
    ensures Emitted(marks + [m], x, y) <==> Emitted(marks, x, y) || (m.Whole? && m.from == x && m.to == y)
    ensures Untouched(marks + [m], x, y) <==> Untouched(marks, x, y) && (m.Skipped? ==> y < m.from || m.to < x)
  {
    var all := marks + [m];
    assert all[|marks|] == m;
    if Emitted(marks, x, y) {
      var i :| 0 <= i < |marks| && marks[i].Whole? && marks[i].from == x && marks[i].to == y;
      assert all[i] == marks[i];
    }
    if Untouched(all, x, y) {
      forall i | 0 <= i < |marks| && marks[i].Skipped? ensures y < marks[i].from || marks[i].to < x {
        assert all[i] == marks[i];
      }
    }
  }

  lemma GapKeepsSound(t: Track, log: seq<uint8>, lost: nat)
    requires Sound(t, log) && 0 < lost && t.at + lost <= |log|
    ensures Sound(TrackPacket(t, log, Gap(lost)), log)
  {
    var u := TrackPacket(t, log, Gap(lost));
    var m := Skipped(t.at, t.at + lost);
    assert u.marks[|t.marks|] == m;
    forall x: nat, y: nat | WholeLine(log, x, y) && y < u.at
      ensures Emitted(u.marks, x, y) <==> Untouched(u.marks, x, y)
    {
      MarksExtend(t.marks, m, x, y);
    }
    assert Behind(u);
  }

  lemma TurnKeepsSound(t: Track, log: seq<uint8>)
    requires Sound(t, log)
    ensures Sound(TrackPacket(t, log, Boundary), log)
  {
    var u := TrackPacket(t, log, Boundary);
    forall x: nat, y: nat | WholeLine(log, x, y) && y < u.at
      ensures Emitted(u.marks, x, y) <==> Untouched(u.marks, x, y)
    {
      MarksExtend(t.marks, Turned, x, y);
    }
    assert u.marks[..|t.marks|] == t.marks;
    if t.discard {
      var i :| 0 <= i < |t.marks| && t.marks[i].Skipped? && t.marks[i].to == t.start;
      assert u.marks[i] == t.marks[i];
    }
    assert Behind(u);
  }

  // The decoder agrees

  ghost predicate Agrees(t: Track, c: Core, log: seq<uint8>) {
    && c.discard == t.discard && c.live == t.live && t.start <= t.at <= |log|
    && c.line == if t.discard then [] else log[t.start..t.at]
  }

  function Render(log: seq<uint8>, m: Mark): Event {
    match m
    case Whole(x, y, live) =>
      var text := if x <= y <= |log| then Strip(log[x..y]) else [];
      if live then Line(text) else History(text)
    case Skipped(x, y) => Overwritten(if x <= y then y - x else 0)
    case Turned => BecameLive
  }

  function RenderAll(log: seq<uint8>, marks: seq<Mark>): seq<Event> {
    if marks == [] then [] else RenderAll(log, marks[..|marks| - 1]) + [Render(log, marks[|marks| - 1])]
  }

  lemma RenderMore(log: seq<uint8>, marks: seq<Mark>, m: Mark)
    ensures RenderAll(log, marks + [m]) == RenderAll(log, marks) + [Render(log, m)]
  {
    assert (marks + [m])[..|marks|] == marks;
  }

  /** What the host reports for a mark: the line's bytes without carriage returns at its end, or the gap's length. */
  ghost predicate Shows(log: seq<uint8>, m: Mark, e: Event) {
    match m
    case Whole(x, y, live) =>
      && x <= y <= |log| && (if live then e.Line? else e.History?)
      && Stripped(e.text, log[x..y])
    case Skipped(x, y) => x <= y && e == Overwritten(y - x)
    case Turned => e == BecameLive
  }

  /** One event for each mark, in order. */
  ghost predicate ShowsAll(log: seq<uint8>, marks: seq<Mark>, events: seq<Event>) {
    |events| == |marks| && forall i :: 0 <= i < |marks| ==> Shows(log, marks[i], events[i])
  }

  lemma {:induction false} RenderedIsShown(log: seq<uint8>, marks: seq<Mark>)
    requires forall i :: 0 <= i < |marks| ==> marks[i].Turned? || (marks[i].from <= marks[i].to <= |log|)
    ensures ShowsAll(log, marks, RenderAll(log, marks))
    decreases |marks|
  {
    hide Stripped, Strip;
    if marks != [] {
      var m := marks[|marks| - 1];
      RenderedIsShown(log, marks[..|marks| - 1]);
      if m.Whole? {
        StripStrips(log[m.from..m.to]);
      }
      assert Shows(log, m, Render(log, m));
    }
  }

  lemma MarksInside(t: Track, log: seq<uint8>)
    requires Sound(t, log)
    ensures forall i :: 0 <= i < |t.marks| ==> t.marks[i].Turned? || t.marks[i].from <= t.marks[i].to <= |log|
  {
    hide Reported, Ascending;
  }

  lemma NewlineAgrees(t: Track, c: Core, log: seq<uint8>)
    requires Agrees(t, c, log) && t.at < |log| && !t.discard && log[t.at] == NEWLINE
    ensures var u, r := TrackByte(t, NEWLINE), TakeByte(c, NEWLINE);
      r.Accepted? && Agrees(u, r.state, log) && RenderAll(log, u.marks) == RenderAll(log, t.marks) + r.events
  {
    hide Strip, RenderAll, Render;
    var m := Whole(t.start, t.at, t.live);
    RenderMore(log, t.marks, m);
    assert TakeByte(c, NEWLINE).events == [Render(log, m)] by {
      RenderLine(log, t.start, t.at, t.live);
    }
  }

  lemma RenderLine(log: seq<uint8>, x: nat, y: nat, live: bool)
    requires x <= y <= |log|
    ensures Render(log, Whole(x, y, live)) == if live then Line(Strip(log[x..y])) else History(Strip(log[x..y]))
  {
    hide Strip;
  }

  lemma LetterAgrees(t: Track, c: Core, log: seq<uint8>)
    requires Agrees(t, c, log) && t.at < |log| && !t.discard && log[t.at] != NEWLINE
    ensures var u, r := TrackByte(t, log[t.at]), TakeByte(c, log[t.at]);
      && (r.Rejected? <==> t.at - t.start >= MAX_LINE)
      && (r.Accepted? ==> r.events == [] && Agrees(u, r.state, log) && u.marks == t.marks)
  {
    assert log[t.start..t.at + 1] == log[t.start..t.at] + [log[t.at]];
  }

  /** A byte makes a line too long exactly when the host has no room for it. */
  lemma ByteTooLong(t: Track, log: seq<uint8>)
    requires Sound(t, log) && t.at < |log|
    ensures TooLong(TrackByte(t, log[t.at]), log) <==>
            TooLong(t, log) || (!t.discard && log[t.at] != NEWLINE && t.at - t.start >= MAX_LINE)
  {
    hide Ascending, Reported, WholeLine;
    var u := TrackByte(t, log[t.at]);
    forall x: nat | Overlong(log, x)
      ensures Untouched(u.marks, x, x + MAX_LINE) <==> Untouched(t.marks, x, x + MAX_LINE)
    {
      MarksExtend(t.marks, Whole(t.start, t.at, t.live), x, x + MAX_LINE);
    }
    if TooLong(u, log) && !TooLong(t, log) {
      var x: nat :| Overlong(log, x) && x + MAX_LINE < u.at && Untouched(t.marks, x, x + MAX_LINE);
      assert x + MAX_LINE == t.at;
      NoRoom(t, log, x);
    }
    if !t.discard && log[t.at] != NEWLINE && t.at - t.start >= MAX_LINE {
      assert Overlong(log, t.start);
    }
  }

  /** A line whose limit is reached at the current position is the current line. */
  lemma NoRoom(t: Track, log: seq<uint8>, x: nat)
    requires Sound(t, log) && Overlong(log, x) && x + MAX_LINE == t.at && Untouched(t.marks, x, t.at)
    ensures !t.discard && log[t.at] != NEWLINE && x == t.start
  {
    hide Ascending, Reported, WholeLine;
    assert x <= t.start;
  }

  /** One byte: unless it is one too many, the decoder and the tracker move together, and the event is the mark's. */
  lemma ByteAgrees(t: Track, c: Core, log: seq<uint8>)
    requires Sound(t, log) && Agrees(t, c, log) && t.at < |log| && !TooLong(t, log)
    ensures var u, r := TrackByte(t, log[t.at]), TakeByte(c, log[t.at]);
      && (r.Rejected? <==> TooLong(u, log))
      && (r.Accepted? ==> Agrees(u, r.state, log) && RenderAll(log, u.marks) == RenderAll(log, t.marks) + r.events)
  {
    hide Strip, Sound, TooLong, RenderAll, Render;
    ByteTooLong(t, log);
    if !t.discard && log[t.at] == NEWLINE {
      NewlineAgrees(t, c, log);
    } else if !t.discard {
      LetterAgrees(t, c, log);
    }
  }

  lemma {:induction false} TextAgrees(t: Track, c: Core, log: seq<uint8>, n: nat)
    requires Sound(t, log) && Agrees(t, c, log) && t.at + n <= |log| && !TooLong(t, log)
    ensures var u, r := TrackText(t, log, n), TakeText(c, log[t.at..t.at + n]);
      && (r.Rejected? <==> TooLong(u, log))
      && (r.Accepted? ==> Agrees(u, r.state, log) && RenderAll(log, u.marks) == RenderAll(log, t.marks) + r.events)
    decreases n
  {
    hide Sound, Agrees, TakeByte, TrackByte, RenderAll, TooLong;
    var bytes := log[t.at..t.at + n];
    if n > 0 {
      ByteKeepsSound(t, log);
      ByteAgrees(t, c, log);
      ByteMoves(t, log[t.at]);
      var u, r := TrackByte(t, log[t.at]), TakeByte(c, log[t.at]);
      assert bytes[0] == log[t.at] && bytes[1..] == log[u.at..u.at + (n - 1)];
      if r.Accepted? {
        TextAgrees(u, r.state, log, n - 1);
      } else {
        StaysTooLong(u, log, n - 1);
      }
    }
  }

  lemma {:induction false} StaysTooLong(t: Track, log: seq<uint8>, n: nat)
    requires Sound(t, log) && t.at + n <= |log| && TooLong(t, log)
    ensures TooLong(TrackText(t, log, n), log)
    decreases n
  {
    hide Sound, TrackByte, TooLong;
    if n > 0 {
      ByteKeepsSound(t, log);
      ByteTooLong(t, log);
      ByteMoves(t, log[t.at]);
      StaysTooLong(TrackByte(t, log[t.at]), log, n - 1);
    }
  }

  /** Neither a gap nor the boundary changes which lines were too long. */
  lemma GapTooLong(t: Track, log: seq<uint8>, lost: nat)
    requires 0 < lost
    ensures TooLong(TrackPacket(t, log, Gap(lost)), log) <==> TooLong(t, log)
  {
    hide Overlong;
    forall x: nat | Overlong(log, x)
      ensures Untouched(t.marks + [Skipped(t.at, t.at + lost)], x, x + MAX_LINE) <==>
              Untouched(t.marks, x, x + MAX_LINE) && (x + MAX_LINE < t.at || t.at + lost < x)
    {
      MarksExtend(t.marks, Skipped(t.at, t.at + lost), x, x + MAX_LINE);
    }
  }

  lemma TurnTooLong(t: Track, log: seq<uint8>)
    ensures TooLong(TrackPacket(t, log, Boundary), log) <==> TooLong(t, log)
  {
    hide Overlong;
    forall x: nat | Overlong(log, x)
      ensures Untouched(t.marks + [Turned], x, x + MAX_LINE) <==>
              Untouched(t.marks, x, x + MAX_LINE)
    {
      MarksExtend(t.marks, Turned, x, x + MAX_LINE);
    }
  }

  lemma ByteMoves(t: Track, value: uint8)
    ensures TrackByte(t, value).at == t.at + 1 && TrackByte(t, value).live == t.live
  {
  }

  // The board's side

  /** `historyEnd` is where the log's complete lines ended when the connection was accepted. */
  datatype State = State(log: seq<uint8>, cursor: nat, historyEnd: nat, live: bool, packets: seq<Packet>)

  datatype Action = Write(value: uint8) | Send

  /** One pass of the serving loop once the previous packet is out: at most one more packet. */
  function SendNext(s: State): State
    requires s.cursor <= |s.log|
  {
    match ReadFrom(s.log, s.cursor, if s.live then |s.log| else s.historyEnd, MAX_PAYLOAD)
    case Lost(n) => s.(cursor := s.cursor + n, packets := s.packets + [Gap(n)])
    case Read(text) =>
      if !s.live && text == [] && s.cursor >= s.historyEnd then s.(live := true, packets := s.packets + [Boundary])
      else if text == [] then s
      else s.(cursor := s.cursor + |text|, packets := s.packets + [Text(s.live, text)])
  }

  function Step(s: State, a: Action): State
    requires s.cursor <= |s.log|
  {
    match a
    case Write(value) => s.(log := s.log + [value])
    case Send => SendNext(s)
  }

  predicate LiveAfter(packets: seq<Packet>) {
    Boundary in packets
  }

  /** A gap behind the live boundary, which the host answers by reconnecting. */
  predicate LiveGap(packets: seq<Packet>) {
    exists i, j :: 0 <= i < j < |packets| && packets[i] == Boundary && packets[j].Gap?
  }

  function DeliverAll(c: Core, packets: seq<Packet>): Outcome<Core> {
    if packets == [] then Accepted(c, [])
    else
      var r := DeliverAll(c, packets[..|packets| - 1]);
      if r.Rejected? then Rejected else After(r.events, Deliver(r.state, packets[|packets| - 1]))
  }

  /** Every text packet is the stretch of the log where it stands, and every gap stays inside the log. */
  ghost predicate Covers(log: seq<uint8>, packets: seq<Packet>) {
    packets == [] ||
    (Covers(log, packets[..|packets| - 1]) && Fits(log, Follow(log, packets[..|packets| - 1]), packets[|packets| - 1]))
  }

  predicate Fits(log: seq<uint8>, t: Track, p: Packet) {
    match p
    case Text(live, bytes) => live == t.live && t.at + |bytes| <= |log| && bytes == log[t.at..t.at + |bytes|]
    case Gap(lost) => 0 < lost && t.at + lost <= |log|
    case Boundary => !t.live && t.at <= |log| && (t.discard || t.start == t.at)
  }

  /** What the host has after the packets sent: accepted unless a gap came after the boundary or a line is too long. */
  ghost predicate Understood(log: seq<uint8>, packets: seq<Packet>) {
    var t, r := Follow(log, packets), DeliverAll(FRESH, packets);
    && Sound(t, log)
    && (r.Rejected? <==> LiveGap(packets) || TooLong(t, log))
    && (r.Accepted? ==> Agrees(t, r.state, log) && r.events == RenderAll(log, t.marks))
  }

  ghost predicate Invariant(s: State) {
    var t := Follow(s.log, s.packets);
    && s.cursor <= |s.log| && Covers(s.log, s.packets)
    && t.at == s.cursor && t.live == s.live && Sound(t, s.log)
    && (s.live <==> LiveAfter(s.packets))
    && s.historyEnd <= CompleteBytes(s.log) && LineStart(s.log, s.historyEnd)
    && (!s.live && s.cursor > s.historyEnd ==> t.discard)
    && forall i :: 0 <= i < |s.packets| ==> PayloadFits(s.packets[i])
  }

  predicate PayloadFits(p: Packet) {
    p.Text? ==> |p.bytes| <= MAX_PAYLOAD
  }

  /** A connection begins with any log already there. */
  function Connected(log: seq<uint8>): State {
    State(log, 0, CompleteBytes(log), false, [])
  }

  lemma ConnectedInvariant(log: seq<uint8>)
    ensures Invariant(Connected(log))
  {
  }

  // Writing keeps what was sent

  lemma {:induction false} LongerLogSameTrack(log: seq<uint8>, more: seq<uint8>, t: Track, n: nat)
    requires t.at + n <= |log|
    ensures TrackText(t, log + more, n) == TrackText(t, log, n)
    decreases n
  {
    if n > 0 {
      LongerLogSameTrack(log, more, TrackByte(t, log[t.at]), n - 1);
    }
  }

  lemma {:induction false} LongerLogSameFollow(log: seq<uint8>, more: seq<uint8>, packets: seq<Packet>)
    requires Covers(log, packets)
    ensures Follow(log + more, packets) == Follow(log, packets) && Covers(log + more, packets)
    decreases |packets|
  {
    hide TrackText;
    if packets != [] {
      var before, p := packets[..|packets| - 1], packets[|packets| - 1];
      LongerLogSameFollow(log, more, before);
      var t := Follow(log, before);
      if p.Text? {
        LongerLogSameTrack(log, more, t, |p.bytes|);
        assert (log + more)[t.at..t.at + |p.bytes|] == log[t.at..t.at + |p.bytes|];
      }
    }
  }

  lemma WholeLineStays(log: seq<uint8>, value: uint8, x: nat, y: nat)
    requires y < |log|
    ensures WholeLine(log + [value], x, y) <==> WholeLine(log, x, y)
  {
    var longer := log + [value];
    if x <= y {
      assert forall k :: 0 <= k < |log| ==> longer[k] == log[k];
      assert WholeLine(longer, x, y) ==> forall k :: x <= k < y ==> longer[k] != NEWLINE;
    }
  }

  lemma SoundStays(t: Track, log: seq<uint8>, value: uint8)
    requires Sound(t, log)
    ensures Sound(t, log + [value])
  {
    hide WholeLine, Ascending, Behind;
    var longer := log + [value];
    forall x: nat, y: nat | WholeLine(longer, x, y) && y < t.at
      ensures Emitted(t.marks, x, y) <==> Untouched(t.marks, x, y)
    {
      WholeLineStays(log, value, x, y);
    }
    forall i | 0 <= i < |t.marks| && t.marks[i].Whole? ensures WholeLine(longer, t.marks[i].from, t.marks[i].to) {
      WholeLineInside(log, t.marks[i].from, t.marks[i].to);
      WholeLineStays(log, value, t.marks[i].from, t.marks[i].to);
    }
  }

  lemma WholeLineInside(log: seq<uint8>, x: nat, y: nat)
    requires WholeLine(log, x, y)
    ensures x <= y < |log|
  {
  }

  lemma WriteKeeps(s: State, value: uint8)
    requires Invariant(s)
    ensures Invariant(Step(s, Write(value)))
  {
    hide Sound, Covers, Follow;
    var longer := s.log + [value];
    LongerLogSameFollow(s.log, [value], s.packets);
    SoundStays(Follow(s.log, s.packets), s.log, value);
    assert longer[..|longer| - 1] == s.log;
    assert CompleteBytes(longer) >= CompleteBytes(s.log);
  }

  // Sending

  lemma FollowMore(log: seq<uint8>, packets: seq<Packet>, p: Packet)
    ensures Follow(log, packets + [p]) == TrackPacket(Follow(log, packets), log, p)
    ensures Covers(log, packets + [p]) <==> Covers(log, packets) && Fits(log, Follow(log, packets), p)
    ensures LiveAfter(packets + [p]) <==> LiveAfter(packets) || p == Boundary
  {
    assert (packets + [p])[..|packets|] == packets;
  }

  lemma {:induction false} TextMoves(t: Track, log: seq<uint8>, n: nat)
    requires Sound(t, log) && t.at + n <= |log|
    ensures Sound(TrackText(t, log, n), log) && TrackText(t, log, n).at == t.at + n
    ensures TrackText(t, log, n).live == t.live
    decreases n
  {
    hide Sound, TrackByte;
    if n > 0 {
      ByteKeepsSound(t, log);
      ByteMoves(t, log[t.at]);
      TextMoves(TrackByte(t, log[t.at]), log, n - 1);
    }
  }

  lemma SendGapKeeps(s: State, n: nat)
    requires Invariant(s) && 0 < n && s.cursor + n <= |s.log|
    ensures Invariant(s.(cursor := s.cursor + n, packets := s.packets + [Gap(n)]))
  {
    hide Sound, Covers, Follow, TrackText, LiveAfter;
    FollowMore(s.log, s.packets, Gap(n));
    GapKeepsSound(Follow(s.log, s.packets), s.log, n);
  }

  lemma SendBoundaryKeeps(s: State)
    requires Invariant(s) && !s.live && s.cursor >= s.historyEnd
    ensures Invariant(s.(live := true, packets := s.packets + [Boundary]))
  {
    hide Sound, Covers, Follow, TrackText, LiveAfter;
    FollowMore(s.log, s.packets, Boundary);
    AtBoundary(s);
    TurnKeepsSound(Follow(s.log, s.packets), s.log);
  }

  lemma SendTextKeeps(s: State, n: nat)
    requires Invariant(s) && 0 < n <= MAX_PAYLOAD && s.cursor + n <= |s.log| && (s.live || s.cursor + n <= s.historyEnd)
    ensures var text := s.log[s.cursor..s.cursor + n];
      Invariant(s.(cursor := s.cursor + n, packets := s.packets + [Text(s.live, text)]))
  {
    hide Sound, Covers, Follow, TrackText, LiveAfter;
    FollowMore(s.log, s.packets, Text(s.live, s.log[s.cursor..s.cursor + n]));
    TextMoves(Follow(s.log, s.packets), s.log, n);
  }

  lemma SendKeeps(s: State)
    requires Invariant(s)
    ensures Invariant(SendNext(s))
  {
    hide Sound, Covers, Follow, LiveAfter;
    var r := ReadFrom(s.log, s.cursor, if s.live then |s.log| else s.historyEnd, MAX_PAYLOAD);
    match r {
      case Lost(n) => SendGapKeeps(s, n);
      case Read(text) =>
        if !s.live && text == [] && s.cursor >= s.historyEnd {
          SendBoundaryKeeps(s);
        } else if text != [] {
          assert text == s.log[s.cursor..s.cursor + |text|];
          SendTextKeeps(s, |text|);
        }
    }
  }

  /** When history ends the host is between lines, or is discarding a damaged one. */
  lemma AtBoundary(s: State)
    requires Invariant(s) && !s.live && s.cursor >= s.historyEnd
    ensures var t := Follow(s.log, s.packets); t.discard || t.start == t.at
  {
    hide Covers, Follow, Behind, Ascending, Reported, WholeLine;
  }

  lemma StepKeepsInvariant(s: State, a: Action)
    requires Invariant(s)
    ensures Invariant(Step(s, a))
  {
    hide Invariant;
    match a {
      case Write(value) => WriteKeeps(s, value);
      case Send => SendKeeps(s);
    }
  }

  // The host understands what is sent

  /** The board counts the bytes written in 64 bits. */
  predicate Countable(log: seq<uint8>) {
    |log| < 0x1_0000_0000_0000_0000
  }

  lemma DeliverMore(packets: seq<Packet>, p: Packet)
    ensures DeliverAll(FRESH, packets + [p]) ==
            (var r := DeliverAll(FRESH, packets);
             if r.Rejected? then Rejected else After(r.events, Deliver(r.state, p)))
    ensures LiveGap(packets + [p]) <==> LiveGap(packets) || (LiveAfter(packets) && p.Gap?)
  {
    var all := packets + [p];
    assert all[..|packets|] == packets;
    if LiveGap(packets) {
      var i, j :| 0 <= i < j < |packets| && packets[i] == Boundary && packets[j].Gap?;
      assert all[i] == Boundary && all[j].Gap?;
    }
    if LiveAfter(packets) && p.Gap? {
      var i :| 0 <= i < |packets| && packets[i] == Boundary;
      assert all[i] == Boundary && all[|packets|].Gap?;
    }
    if LiveGap(all) {
      var i, j :| 0 <= i < j < |all| && all[i] == Boundary && all[j].Gap?;
      assert packets[i] == Boundary;
      if j < |packets| {
        assert packets[j].Gap?;
      }
    }
  }

  /** One more packet: the host rejects only a gap behind the boundary and a line that is too long. */
  lemma PacketUnderstood(log: seq<uint8>, packets: seq<Packet>, p: Packet)
    requires Understood(log, packets) && Covers(log, packets) && Fits(log, Follow(log, packets), p)
    requires p.Gap? ==> p.lost < 0x1_0000_0000_0000_0000
    requires Follow(log, packets).live <==> LiveAfter(packets)
    ensures Understood(log, packets + [p])
  {
    hide Sound, Handle, TrackText, Follow, Covers, DeliverAll, LiveGap, LiveAfter, TooLong, RenderAll, Render;
    var t, r := Follow(log, packets), DeliverAll(FRESH, packets);
    FollowMore(log, packets, p);
    DeliverMore(packets, p);
    match p {
      case Text(live, bytes) =>
        TextMoves(t, log, |bytes|);
        if r.Accepted? {
          TextAgrees(t, r.state, log, |bytes|);
          DeliverText(r.state, live, bytes);
        } else if TooLong(t, log) {
          StaysTooLong(t, log, |bytes|);
        }
      case Gap(lost) =>
        GapKeepsSound(t, log, lost);
        GapTooLong(t, log, lost);
        GapRoundTrip(FRESH, lost);
        if r.Accepted? {
          GapRoundTrip(r.state, lost);
          RenderMore(log, t.marks, Skipped(t.at, t.at + lost));
          assert Render(log, Skipped(t.at, t.at + lost)) == Overwritten(lost) by {
            RenderGap(log, t.at, lost);
          }
        }
      case Boundary =>
        TurnKeepsSound(t, log);
        TurnTooLong(t, log);
        if r.Accepted? {
          RenderMore(log, t.marks, Turned);
          RenderTurn(log);
          DeliverBoundary(r.state);
        }
    }
  }

  lemma RenderGap(log: seq<uint8>, at: nat, lost: nat)
    ensures Render(log, Skipped(at, at + lost)) == Overwritten(lost)
  {
  }

  lemma RenderTurn(log: seq<uint8>)
    ensures Render(log, Turned) == BecameLive
  {
  }

  lemma DeliverText(c: Core, live: bool, bytes: seq<uint8>)
    requires c.live == live
    ensures Deliver(c, Text(live, bytes)) == TakeText(c, bytes)
  {
    hide TakeText;
  }

  lemma DeliverBoundary(c: Core)
    requires !c.live && c.line == []
    ensures Deliver(c, Boundary) == Accepted(c.(live := true), [BecameLive])
  {
  }

  lemma {:induction false} AllUnderstood(log: seq<uint8>, packets: seq<Packet>)
    requires Covers(log, packets) && Countable(log)
    ensures Understood(log, packets) && (Follow(log, packets).live <==> LiveAfter(packets))
    decreases |packets|
  {
    hide Sound, TooLong;
    if packets == [] {
      OriginUnderstood(log);
    } else {
      var before, p := packets[..|packets| - 1], packets[|packets| - 1];
      assert before + [p] == packets;
      AllUnderstood(log, before);
      hide Understood, Follow, Covers;
      FollowMore(log, before, p);
      assert p.Gap? ==> p.lost < 0x1_0000_0000_0000_0000;
      PacketUnderstood(log, before, p);
      LiveFollows(log, before, p);
    }
  }

  lemma LiveFollows(log: seq<uint8>, before: seq<Packet>, p: Packet)
    requires Understood(log, before) && Fits(log, Follow(log, before), p)
    ensures TrackPacket(Follow(log, before), log, p).live <==> Follow(log, before).live || p == Boundary
  {
    hide Sound, Follow, TrackText;
    var t := Follow(log, before);
    if p.Text? {
      TextMoves(t, log, |p.bytes|);
    }
  }

  lemma OriginUnderstood(log: seq<uint8>)
    ensures Understood(log, []) && !LiveAfter([])
  {
  }

  // Whole runs

  function Run(s: State, actions: seq<Action>): (t: State)
    requires Invariant(s)
    ensures Invariant(t)
    decreases |actions|
  {
    if actions == [] then s
    else
      StepKeepsInvariant(s, actions[0]);
      Run(Step(s, actions[0]), actions[1..])
  }

  /** Nothing is left to send: live, and past every complete line. */
  predicate CaughtUp(s: State) {
    s.live && Oldest(s.log) <= s.cursor && CompleteBytes(s.log) <= s.cursor
  }

  /** A pass that is not idle gets further, and only a connection that has caught up is idle. */
  lemma PassAdvances(s: State)
    requires Invariant(s)
    ensures var t := SendNext(s);
      && t.log == s.log && s.cursor <= t.cursor <= |s.log| && (s.live ==> t.live)
      && (CaughtUp(s) <==> t == s)
      && (!CaughtUp(s) ==> s.cursor < t.cursor || (!s.live && t.live))
  {
    hide Covers, Sound, Follow;
  }

  /** With nothing more written, enough passes send everything there is, up to the last complete line. */
  lemma {:induction false} SendingCatchesUp(s: State) returns (actions: seq<Action>)
    requires Invariant(s)
    ensures (forall i :: 0 <= i < |actions| ==> actions[i] == Send)
    ensures CaughtUp(Run(s, actions)) && Run(s, actions).log == s.log
    decreases |s.log| - s.cursor + (if s.live then 0 else 1)
  {
    hide Invariant, SendNext;
    PassAdvances(s);
    if CaughtUp(s) {
      actions := [];
    } else {
      StepKeepsInvariant(s, Send);
      var rest := SendingCatchesUp(SendNext(s));
      actions := [Send] + rest;
      assert actions[1..] == rest;
    }
  }

  function Reached(log: seq<uint8>, actions: seq<Action>): (s: State)
    ensures Invariant(s)
  {
    ConnectedInvariant(log);
    Run(Connected(log), actions)
  }

  /**
   Whatever is written before and during a connection, and however the reads interleave: the host reports
   whole lines of the log, in order, and gaps where they are; of the lines it has passed it reports exactly
   those that no gap touches; and it rejects exactly a gap behind the live boundary and a line of which more bytes
   than it keeps arrived without a gap.
   */
  lemma HostSeesTheLog(log: seq<uint8>, actions: seq<Action>)
    requires Countable(Reached(log, actions).log)
    ensures var s := Reached(log, actions);
      var t, r := Follow(s.log, s.packets), DeliverAll(FRESH, s.packets);
      && t.at == s.cursor
      && (r.Rejected? <==> LiveGap(s.packets) || TooLong(t, s.log))
      && (r.Accepted? ==> ShowsAll(s.log, t.marks, r.events))
      && Ascending(t.marks)
      && (forall i :: 0 <= i < |t.marks| && t.marks[i].Whole? ==> WholeLine(s.log, t.marks[i].from, t.marks[i].to))
      && (forall x: nat, y: nat :: WholeLine(s.log, x, y) && y < s.cursor ==>
            (Emitted(t.marks, x, y) <==> Untouched(t.marks, x, y)))
  {
    hide Run, Covers, Follow, TooLong, DeliverAll, LiveGap, Behind, WholeLine;
    var s := Reached(log, actions);
    AllUnderstood(s.log, s.packets);
    MarksInside(Follow(s.log, s.packets), s.log);
    RenderedIsShown(s.log, Follow(s.log, s.packets).marks);
  }

  predicate Gapless(packets: seq<Packet>) {
    forall i :: 0 <= i < |packets| ==> !packets[i].Gap?
  }

  lemma {:induction false} GaplessMarks(log: seq<uint8>, packets: seq<Packet>)
    requires Covers(log, packets) && Gapless(packets)
    ensures forall i :: 0 <= i < |Follow(log, packets).marks| ==> !Follow(log, packets).marks[i].Skipped?
    decreases |packets|
  {
    hide TrackText;
    if packets != [] {
      var before := packets[..|packets| - 1];
      GaplessMarks(log, before);
      var p := packets[|packets| - 1];
      if p.Text? {
        TextSkipsNothing(Follow(log, before), log, |p.bytes|);
      }
    }
  }

  lemma {:induction false} TextSkipsNothing(t: Track, log: seq<uint8>, n: nat)
    requires t.at + n <= |log| && forall i :: 0 <= i < |t.marks| ==> !t.marks[i].Skipped?
    ensures forall i :: 0 <= i < |TrackText(t, log, n).marks| ==> !TrackText(t, log, n).marks[i].Skipped?
    decreases n
  {
    if n > 0 {
      TextSkipsNothing(TrackByte(t, log[t.at]), log, n - 1);
    }
  }

  /**
   With no gap reported nothing is missing: the host reports every whole line it has passed, and rejects exactly a
   line of which more bytes than it keeps were sent.
   */
  lemma WithoutGapsNothingIsMissing(log: seq<uint8>, actions: seq<Action>)
    requires Countable(Reached(log, actions).log) && Gapless(Reached(log, actions).packets)
    ensures var s := Reached(log, actions);
      && (DeliverAll(FRESH, s.packets).Rejected? <==>
           exists x: nat :: Overlong(s.log, x) && x + MAX_LINE < s.cursor)
      && (forall x: nat, y: nat :: WholeLine(s.log, x, y) && y < s.cursor ==>
            Emitted(Follow(s.log, s.packets).marks, x, y))
  {
    hide Run, Covers, Follow, DeliverAll, WholeLine, Overlong;
    var s := Reached(log, actions);
    HostSeesTheLog(log, actions);
    GaplessMarks(s.log, s.packets);
  }

  /** No byte of the line was overwritten. */
  predicate Intact(marks: seq<Mark>, x: nat, y: nat) {
    forall i :: 0 <= i < |marks| && marks[i].Skipped? ==> y < marks[i].from || marks[i].to <= x
  }

  predicate GapEndsAt(marks: seq<Mark>, x: nat) {
    exists i :: 0 <= i < |marks| && marks[i].Skipped? && marks[i].to == x
  }

  /**
   Nothing but the reported bytes should be missing, yet a line that survived whole is dropped exactly when
   a gap ends where it begins: the host discards up to the next newline in any case.
   */
  lemma IntactLineIsMissingOnlyAfterAGap(log: seq<uint8>, actions: seq<Action>, x: nat, y: nat)
    requires Countable(Reached(log, actions).log)
    requires var s := Reached(log, actions);
      WholeLine(s.log, x, y) && y < s.cursor && Intact(Follow(s.log, s.packets).marks, x, y)
    ensures var s := Reached(log, actions);
      !Emitted(Follow(s.log, s.packets).marks, x, y) <==> GapEndsAt(Follow(s.log, s.packets).marks, x)
  {
    hide Run, Covers, Follow, TooLong, DeliverAll, WholeLine, LiveGap, Emitted, Ascending;
    var s := Reached(log, actions);
    HostSeesTheLog(log, actions);
    var marks := Follow(s.log, s.packets).marks;
    if GapEndsAt(marks, x) {
      var i :| 0 <= i < |marks| && marks[i].Skipped? && marks[i].to == x;
      MarkedGapStarts(s, i);
      WholeLineInside(s.log, x, y);
      assert !(y < marks[i].from || marks[i].to < x);
    }
  }

  lemma MarkedGapStarts(s: State, i: nat)
    requires Invariant(s) && i < |Follow(s.log, s.packets).marks| && Follow(s.log, s.packets).marks[i].Skipped?
    ensures var m := Follow(s.log, s.packets).marks[i]; m.from < m.to
  {
    hide Covers, Follow, WholeLine, Ascending;
  }

  /** A log of one letter and newlines, two bytes longer than the buffer. */
  function Overrun(): seq<uint8> {
    seq(BUFFER_BYTES + 2, i => if i == 0 then 97 else NEWLINE)
  }

  lemma OverrunIsSent() returns (b: State)
    ensures b == Reached(Overrun(), [Send, Send])
    ensures b.log == Overrun() && b.cursor == 514 && b.packets == [Gap(2), Text(false, Overrun()[2..514])]
  {
    hide Invariant;
    var log := Overrun();
    ConnectedInvariant(log);
    var a := SendNext(Connected(log));
    assert CompleteBytes(log) == |log|;
    assert a.packets == [Gap(2)] && a.cursor == 2;
    StepKeepsInvariant(Connected(log), Send);
    b := SendNext(a);
    StepKeepsInvariant(a, Send);
    assert [Send, Send][1..] == [Send] && [Send][1..] == [];
    assert Run(b, []) == b;
    assert Run(a, [Send]) == b;
  }

  /** The empty line at position 2 was never overwritten, has been passed, and is not reported. */
  lemma IntactLineIsDropped()
    ensures var s := Reached(Overrun(), [Send, Send]);
      && s.packets[..1] == [Gap(2)] && s.cursor > 2
      && WholeLine(s.log, 2, 2) && Oldest(s.log) <= 2
      && !Emitted(Follow(s.log, s.packets).marks, 2, 2)
  {
    hide Sound, TrackText, Covers, Reached, Emitted, Invariant;
    var log := Overrun();
    var b := OverrunIsSent();
    var text := log[2..514];
    FollowMore(log, [], Gap(2));
    assert [] + [Gap(2)] == [Gap(2)];
    var t := Follow(log, [Gap(2)]);
    assert t.marks == [Skipped(0, 2)] && t.at == 2;
    FollowMore(log, [Gap(2)], Text(false, text));
    assert [Gap(2)] + [Text(false, text)] == b.packets;
    TextKeepsGap(t, log, 512);
    StillTouched(b, 2);
  }

  lemma {:induction false} TextKeepsGap(t: Track, log: seq<uint8>, n: nat)
    requires t.at + n <= |log| && |t.marks| > 0
    ensures var u := TrackText(t, log, n); |u.marks| > 0 && u.marks[0] == t.marks[0]
    decreases n
  {
    if n > 0 {
      TextKeepsGap(TrackByte(t, log[t.at]), log, n - 1);
    }
  }

  lemma StillTouched(s: State, x: nat)
    requires Invariant(s) && WholeLine(s.log, x, x) && x < s.cursor
    requires var marks := Follow(s.log, s.packets).marks; |marks| > 0 && marks[0] == Skipped(0, x)
    ensures !Emitted(Follow(s.log, s.packets).marks, x, x)
  {
    hide Covers, Follow, Emitted, WholeLine, Ascending, Behind;
    var marks := Follow(s.log, s.packets).marks;
    assert !Untouched(marks, x, x);
  }

  // Bytes on the wire

  function Stream(packets: seq<Packet>): seq<uint8>
    requires forall i :: 0 <= i < |packets| ==> Sendable(packets[i])
  {
    if packets == [] then [] else Stream(packets[..|packets| - 1]) + Encode(packets[|packets| - 1])
  }

  function Unfinished(r: Outcome<Core>, part: seq<uint8>): Outcome<Decoder> {
    if r.Rejected? then Rejected else Accepted(Decoder(part, r.state), r.events)
  }

  lemma {:induction false} StreamDecodes(packets: seq<Packet>, part: seq<uint8>)
    requires forall i :: 0 <= i < |packets| ==> Sendable(packets[i])
    requires forall c :: Drained(Decoder(part, c))
    ensures FeedBytes(Decoder([], FRESH), Stream(packets) + part) == Unfinished(DeliverAll(FRESH, packets), part)
    decreases |packets|
  {
    hide Drain, Encode, Deliver;
    if packets == [] {
      assert Drained(Decoder(part, FRESH));
      assert [] + ([] + part) == part;
    } else {
      hide Drained, After;
      var before, p := packets[..|packets| - 1], packets[|packets| - 1];
      forall c ensures Drained(Decoder([], c)) {
        ShortWaits(Decoder([], c));
      }
      StreamDecodes(before, []);
      var tail := Encode(p) + part;
      assert Stream(packets) + part == Stream(before) + tail;
      DrainsOn(Stream(before), tail, DeliverAll(FRESH, before));
      var r := DeliverAll(FRESH, before);
      if r.Accepted? {
        PacketRoundTrip(r.state, p, part);
        var q := Deliver(r.state, p);
        if q.Accepted? {
          LastPart(r.events, q.events, Decoder(part, q.state));
        }
      }
    }
  }

  /** After a stream of whole packets the rest is handled with what they left. */
  lemma DrainsOn(stream: seq<uint8>, tail: seq<uint8>, r: Outcome<Core>)
    requires FeedBytes(Decoder([], FRESH), stream + []) == Unfinished(r, [])
    ensures FeedBytes(Decoder([], FRESH), stream + tail) ==
            if r.Rejected? then Rejected else After(r.events, Drain(Decoder(tail, r.state)))
  {
    hide Drain;
    assert [] + (stream + []) == stream && [] + (stream + tail) == stream + tail && [] + tail == tail;
    DrainThenMore(Decoder(stream, FRESH), tail);
  }

  lemma LastPart(a: seq<Event>, b: seq<Event>, d: Decoder)
    requires Drained(d)
    ensures After(a, After(b, Drain(d))) == Accepted(d, a + b)
  {
    assert a + (b + []) == a + b;
  }

  /**
   However TCP cuts the stream, having received the first `k` packets, all of them perhaps, and a part of the next
   the host has handled exactly those `k` packets.
   */
  lemma AnyFragmentation(packets: seq<Packet>, k: nat, part: seq<uint8>, chunks: seq<seq<uint8>>)
    requires forall i :: 0 <= i < |packets| ==> Sendable(packets[i])
    requires k <= |packets| && (part == [] || (k < |packets| && part < Encode(packets[k])))
    requires Joined(chunks) == Stream(packets[..k]) + part
    ensures FeedAll(Decoder([], FRESH), chunks) == Unfinished(DeliverAll(FRESH, packets[..k]), part)
  {
    hide Drain, Encode, DeliverAll, Stream;
    ShortWaits(Decoder([], FRESH));
    FragmentsDoNotMatter(Decoder([], FRESH), chunks);
    forall c ensures Drained(Decoder(part, c)) {
      if part == [] {
        ShortWaits(Decoder(part, c));
      } else {
        PartialPacketWaits(c, packets[k], |part|);
        assert Encode(packets[k])[..|part|] == part;
      }
    }
    StreamDecodes(packets[..k], part);
  }

  /** Every packet the board sends can be encoded, and what precedes any point of the run is itself covered. */
  lemma {:induction false} PrefixCovered(log: seq<uint8>, packets: seq<Packet>, k: nat)
    requires Covers(log, packets) && k <= |packets|
    ensures Covers(log, packets[..k])
    decreases |packets|
  {
    if k == |packets| {
      assert packets[..k] == packets;
    } else {
      var before := packets[..|packets| - 1];
      PrefixCovered(log, before, k);
      assert before[..k] == packets[..k];
    }
  }

  /** At every moment of every connection the host's events show a prefix of what was sent. */
  lemma HostPrefix(log: seq<uint8>, actions: seq<Action>, k: nat)
    requires Countable(Reached(log, actions).log) && k <= |Reached(log, actions).packets|
    ensures var s := Reached(log, actions);
      var t, r := Follow(s.log, s.packets[..k]), DeliverAll(FRESH, s.packets[..k]);
      && Sound(t, s.log)
      && (r.Rejected? <==> LiveGap(s.packets[..k]) || TooLong(t, s.log))
      && (r.Accepted? ==> Agrees(t, r.state, s.log) && ShowsAll(s.log, t.marks, r.events))
  {
    hide Run, Follow, Sound, Agrees, LiveGap, TooLong, DeliverAll;
    var s := Reached(log, actions);
    PrefixCovered(s.log, s.packets, k);
    AllUnderstood(s.log, s.packets[..k]);
    MarksInside(Follow(s.log, s.packets[..k]), s.log);
    RenderedIsShown(s.log, Follow(s.log, s.packets[..k]).marks);
  }
}
