/**
 Delivery of captures as interleaved steps of the capture task, the sender task and the host over a
 connection that may be cut at any moment: nothing published is lost, nothing is freed unsaved.
 */
module CaptureDelivery {
  import opened MachineIntegers
  import opened Options
  import opened FramePool
  import opened HostStore
  import opened FiniteSets
  import Crc32

  datatype Frame = Frame(meta: Meta, payload: seq<uint8>)

  datatype Capture = NoCapture | Armed(slot: nat) | Recording(slot: nat)
  datatype Sender =
    | Offline | Between | SendingMarker(through: nat) | Choosing(through: nat) | SendingFrame(through: nat, slot: nat)
  datatype Record = Marker | Data(frame: Frame)
  datatype Ack = Ack(sequence: nat, crc: nat)
  datatype Link = Cut | Up(toHost: Option<Record>, toBoard: Option<Ack>)
  datatype Host =
    | Waiting | MarkerSeen | Received(frame: Frame) | Routed(frame: Frame) | AudioWritten(frame: Frame)
    | FrameSaved(frame: Frame)

  /** `payloads[i]` is what slot `i` converts to; the last four fields are history. */
  datatype State = State(
    boot: seq<uint32>, slots: seq<Slot>, payloads: seq<seq<uint8>>, cycle: nat,
    capture: Capture, sender: Sender, link: Link, host: Host, disk: Disk,
    published: seq<Frame>, acked: seq<nat>, sent: seq<nat>, batch: set<nat>)

  datatype Action =
    | AcquireSlot(i: nat)
    | CancelCapture
    | TriggerCapture
    | PublishCapture(meta: Meta, payload: seq<uint8>)
    | DiscardCapture
    | Connect
    | StartBatch(n: nat)
    | TakeFrame(i: nat)
    | FinishBatch
    | AckArrives
    | SendFails
    | CutLink
    | HostReceives
    | HostRoutes(folder: string)
    | HostWritesAudio
    | HostWritesNotes
    | HostAcknowledges
    | HostStops
    | HostBeginsTest(key: Key, folder: string)

  // ----- Steps

  function FrameAt(s: State, i: nat): Frame
    requires i < |s.slots| && i < |s.payloads|
  {
    Frame(s.slots[i].meta, s.payloads[i])
  }

  function AckFor(f: Frame): Ack {
    Ack(f.meta.sequence, Crc32.Crc(f.payload))
  }

  function SetState(s: State, i: nat, state: SlotState): seq<Slot>
    requires i < |s.slots|
  {
    s.slots[i := s.slots[i].(state := state)]
  }

  predicate Shape(s: State) {
    && |s.slots| == |s.payloads| == POOL_COUNT
    && (s.capture != NoCapture ==> s.capture.slot < POOL_COUNT)
    && (s.sender.SendingFrame? ==> s.sender.slot < POOL_COUNT)
  }

  /** A folder no route uses and nothing was ever written to. */
  predicate Unused(d: Disk, folder: string) {
    && folder !in d.index.Values
    && (forall a :: a in d.audio ==> a.path.folder != folder)
    && (forall p :: p in d.notes ==> p.folder != folder)
  }

  ghost predicate Enabled(s: State, a: Action) {
    && Shape(s)
    && match a
       case AcquireSlot(i) => s.capture == NoCapture && i < POOL_COUNT && IsFirstFree(s.slots, i)
       case CancelCapture => s.capture.Armed?
       case TriggerCapture => s.capture.Armed? && s.cycle < UINT32_MAX
       case PublishCapture(m, payload) =>
         s.capture.Recording? && m.sequence == s.cycle && m.bootId == s.boot && Identified(m) && payload != []
       case DiscardCapture => s.capture.Recording?
       case Connect => s.sender == Offline && s.host == Waiting && s.link == Cut
       case StartBatch(n) => s.sender == Between && IsLatest(s.slots, n) && s.link == Up(None, None)
       case TakeFrame(i) => s.sender.Choosing? && i < POOL_COUNT && IsOldest(s.slots, s.sender.through, i)
       case FinishBatch => s.sender.Choosing? && IsOldest(s.slots, s.sender.through, -1)
       case AckArrives => (s.sender.SendingMarker? || s.sender.SendingFrame?) && s.link.Up? && s.link.toBoard.Some?
       case SendFails => s.sender != Offline && !s.sender.Choosing?
       case CutLink => s.link.Up?
       case HostReceives => s.host == Waiting && s.link.Up? && s.link.toHost.Some?
       case HostRoutes(folder) => s.host.Received? && Unused(s.disk, folder)
       case HostWritesAudio =>
         s.host.Routed? && KeyOf(s.host.frame.meta) in s.disk.index
           && !Conflicts(s.disk, s.host.frame.meta, s.host.frame.payload)
       case HostWritesNotes => s.host.AudioWritten?
       case HostAcknowledges => s.host.MarkerSeen? || s.host.FrameSaved?
       case HostStops => true
       case HostBeginsTest(key, folder) =>
         IsIdentity(key.boot) && IsIdentity(key.test) && key !in s.disk.index && Unused(s.disk, folder)
  }

  /** Ending a transfer without an acknowledgement keeps the frame and drops the connection. */
  function GiveUp(s: State): State
    requires Shape(s)
  {
    var slots := if s.sender.SendingFrame? then SetState(s, s.sender.slot, Ready) else s.slots;
    s.(slots := slots, sender := Offline, link := Cut)
  }

  function Acknowledge(s: State): State
    requires Shape(s) && s.link.Up? && s.link.toBoard.Some?
  {
    var ack := s.link.toBoard.value;
    match s.sender
    case SendingMarker(through) =>
      if ack == Ack(0, 0) then s.(sender := Choosing(through), link := Up(None, None)) else GiveUp(s)
    case SendingFrame(through, i) =>
      if ack == AckFor(FrameAt(s, i))
      then s.(slots := SetState(s, i, Free), sender := Choosing(through), link := Up(None, None),
              acked := s.acked + [s.slots[i].meta.sequence])
      else GiveUp(s)
    case _ => s
  }

  /** Putting a record on the connection; a connection already cut swallows it. */
  function Transmit(l: Link, r: Record): Link {
    if l.Up? then Up(Some(r), None) else Cut
  }

  function Apply(s: State, a: Action): State
    requires Shape(s)
    requires a.TakeFrame? ==> s.sender.Choosing? && a.i < POOL_COUNT
    requires a.AcquireSlot? ==> a.i < POOL_COUNT
    requires a.CancelCapture? || a.TriggerCapture? || a.PublishCapture? || a.DiscardCapture? ==> s.capture != NoCapture
    requires a.AckArrives? ==> s.link.Up? && s.link.toBoard.Some?
    requires a.HostReceives? ==> s.link.Up? && s.link.toHost.Some?
    requires a.FinishBatch? ==> s.sender.Choosing?
    requires a.HostRoutes? ==> s.host.Received?
    requires a.HostWritesAudio? ==> s.host.Routed? && KeyOf(s.host.frame.meta) in s.disk.index
    requires a.HostWritesNotes? ==> s.host.AudioWritten? && KeyOf(s.host.frame.meta) in s.disk.index
    requires a.HostAcknowledges? ==> s.host.MarkerSeen? || s.host.FrameSaved?
  {
    match a
    case AcquireSlot(i) => s.(slots := SetState(s, i, Filling), capture := Armed(i))
    case CancelCapture => s.(slots := SetState(s, s.capture.slot, Free), capture := NoCapture)
    case TriggerCapture => s.(capture := Recording(s.capture.slot), cycle := s.cycle + 1)
    case PublishCapture(m, payload) =>
      var i := s.capture.slot;
      s.(slots := s.slots[i := Slot(Ready, m)], payloads := s.payloads[i := payload], capture := NoCapture,
         published := s.published + [Frame(m, payload)])
    case DiscardCapture => s.(slots := SetState(s, s.capture.slot, Free), capture := NoCapture)
    case Connect => s.(sender := Between, link := Up(None, None))
    case StartBatch(n) =>
      s.(sender := SendingMarker(n), link := Transmit(s.link, Marker), batch := ReadySequences(s.slots))
    case TakeFrame(i) =>
      s.(slots := SetState(s, i, Sending), sender := SendingFrame(s.sender.through, i),
         link := Transmit(s.link, Data(FrameAt(s, i))), sent := s.sent + [s.slots[i].meta.sequence])
    case FinishBatch => s.(sender := Between)
    case AckArrives => Acknowledge(s)
    case SendFails => GiveUp(s)
    case CutLink => s.(link := Cut)
    case HostReceives =>
      s.(host := if s.link.toHost.value.Marker? then MarkerSeen else Received(s.link.toHost.value.frame),
         link := s.link.(toHost := None))
    case HostRoutes(folder) => s.(disk := Route(s.disk, KeyOf(s.host.frame.meta), folder), host := Routed(s.host.frame))
    case HostWritesAudio =>
      s.(disk := WriteAudio(s.disk, s.host.frame.meta, s.host.frame.payload), host := AudioWritten(s.host.frame))
    case HostWritesNotes => s.(disk := WriteNotes(s.disk, s.host.frame.meta), host := FrameSaved(s.host.frame))
    case HostAcknowledges =>
      var ack := if s.host.MarkerSeen? then Ack(0, 0) else AckFor(s.host.frame);
      s.(host := Waiting, link := if s.link.Up? then s.link.(toBoard := Some(ack)) else Cut)
    case HostStops => s.(host := Waiting, link := Cut)
    case HostBeginsTest(key, folder) => s.(disk := Route(s.disk, key, folder))
  }

  function ReadySequences(slots: seq<Slot>): set<nat> {
    set i | 0 <= i < |slots| && slots[i].state == Ready :: slots[i].meta.sequence
  }

  // ----- Invariant

  function LastSequence(published: seq<Frame>): nat {
    if published == [] then 0 else published[|published| - 1].meta.sequence
  }

  predicate InPool(s: State, f: Frame)
    requires Shape(s)
  {
    exists i :: 0 <= i < POOL_COUNT && HoldsFrame(s, i) && FrameAt(s, i) == f
  }

  predicate HoldsFrame(s: State, i: nat)
    requires Shape(s) && i < POOL_COUNT
  {
    s.slots[i].state == Ready || s.slots[i].state == Sending
  }

  /** Slot ownership: the capture task owns FILLING, the sender owns SENDING, at most one each. */
  ghost predicate Ownership(s: State)
    requires Shape(s)
  {
    && (forall i :: 0 <= i < POOL_COUNT ==>
          (s.slots[i].state == Filling <==> s.capture != NoCapture && s.capture.slot == i))
    && (forall i :: 0 <= i < POOL_COUNT ==>
          (s.slots[i].state == Sending <==> s.sender.SendingFrame? && s.sender.slot == i))
  }

  /** Published sequences strictly increase and none is ahead of the cycle counter. */
  ghost predicate Numbered(s: State) {
    && s.cycle <= UINT32_MAX
    && (forall k, l :: 0 <= k < l < |s.published| ==> s.published[k].meta.sequence < s.published[l].meta.sequence)
    && (forall k :: 0 <= k < |s.published| ==>
          && 0 < s.published[k].meta.sequence <= s.cycle
          && s.published[k].meta.bootId == s.boot && Identified(s.published[k].meta))
    && (s.capture.Recording? ==> LastSequence(s.published) < s.cycle)
  }

  /** Frames in the pool are published ones, each in one slot. */
  ghost predicate PoolFrames(s: State)
    requires Shape(s)
  {
    && (forall i :: 0 <= i < POOL_COUNT && HoldsFrame(s, i) ==> FrameAt(s, i) in s.published)
    && (forall i, j :: 0 <= i < j < POOL_COUNT && HoldsFrame(s, i) && HoldsFrame(s, j) ==>
          s.slots[i].meta.sequence != s.slots[j].meta.sequence)
  }

  /** Nothing published is lost: a frame is in the pool, or acknowledged and stored. */
  ghost predicate NothingLost(s: State)
    requires Shape(s)
  {
    forall f :: f in s.published ==>
      InPool(s, f) || (f.meta.sequence in s.acked && Stored(s.disk, f.meta, f.payload))
  }

  /** Acknowledgements go up in sequence, and everything in the pool is still ahead of them. */
  ghost predicate AckOrder(s: State)
    requires Shape(s)
  {
    && (forall k, l :: 0 <= k < l < |s.acked| ==> s.acked[k] < s.acked[l])
    && (forall i :: 0 <= i < POOL_COUNT && HoldsFrame(s, i) ==>
          forall k :: 0 <= k < |s.acked| ==> s.acked[k] < s.slots[i].meta.sequence)
    && (forall k :: 0 <= k < |s.acked| ==> s.acked[k] <= LastSequence(s.published))
  }

  /** What is being sent is the oldest frame of all, and belonged to the batch when it began. */
  ghost predicate BatchOrder(s: State)
    requires Shape(s)
  {
    && (s.sender.SendingFrame? ==>
          && s.slots[s.sender.slot].meta.sequence in s.batch
          && forall i :: 0 <= i < POOL_COUNT && HoldsFrame(s, i) ==>
               s.slots[s.sender.slot].meta.sequence <= s.slots[i].meta.sequence)
    && (s.sender.SendingMarker? || s.sender.Choosing? || s.sender.SendingFrame? ==>
          && s.sender.through <= LastSequence(s.published)
          && forall i :: 0 <= i < POOL_COUNT && Eligible(s.slots[i], s.sender.through) ==>
               s.slots[i].meta.sequence in s.batch)
  }

  /** Whatever travels or is being saved is the frame being sent, and an acknowledgement means it is stored. */
  ghost predicate Conversation(s: State)
    requires Shape(s)
  {
    && (s.link.Up? ==>
          && s.sender != Offline
          && (s.link.toHost.Some? ==> s.link.toBoard.None? && s.host == Waiting)
          && (s.link.toBoard.Some? ==> s.host == Waiting)
          && (s.link.toHost == Some(Marker) ==> s.sender.SendingMarker?)
          && (s.link.toHost.Some? && s.link.toHost.value.Data? ==>
                s.sender.SendingFrame? && s.link.toHost.value.frame == FrameAt(s, s.sender.slot))
          && (s.host == MarkerSeen ==> s.sender.SendingMarker?)
          && (HasFrame(s.host) ==> s.sender.SendingFrame? && s.host.frame == FrameAt(s, s.sender.slot))
          && (s.link.toBoard.Some? ==>
                || (s.sender.SendingMarker? && s.link.toBoard.value == Ack(0, 0))
                || (s.sender.SendingFrame? && s.link.toBoard.value == AckFor(FrameAt(s, s.sender.slot))
                      && Stored(s.disk, s.slots[s.sender.slot].meta, s.payloads[s.sender.slot]))))
    && (HasFrame(s.host) ==> s.host.frame in s.published)
    && (s.host.Routed? || s.host.AudioWritten? || s.host.FrameSaved? ==> KeyOf(s.host.frame.meta) in s.disk.index)
    && (s.host.AudioWritten? || s.host.FrameSaved? ==>
          var a := AudioOf(s.disk, s.host.frame.meta, s.host.frame.payload);
          a in s.disk.audio && s.disk.audio[a] == s.host.frame.payload)
    && (s.host.FrameSaved? ==> Stored(s.disk, s.host.frame.meta, s.host.frame.payload))
  }

  predicate HasFrame(h: Host) {
    h.Received? || h.Routed? || h.AudioWritten? || h.FrameSaved?
  }

  /** Folders of distinct identities differ; files in this boot's folders are those of published frames. */
  ghost predicate DiskSound(s: State) {
    && (forall k, l :: k in s.disk.index && l in s.disk.index && k != l ==> s.disk.index[k] != s.disk.index[l])
    && (forall k, a ::
          k in s.disk.index && k.boot == s.boot && a in s.disk.audio && a.path.folder == s.disk.index[k] ==>
          exists f :: f in s.published && KeyOf(f.meta) == k && a == AudioIn(a.path.folder, f.meta, f.payload)
                        && s.disk.audio[a] == f.payload)
    && (forall k, p :: k in s.disk.index && k.boot == s.boot && p in s.disk.notes && p.folder == s.disk.index[k] ==>
          exists f :: f in s.published && KeyOf(f.meta) == k && p == PathIn(p.folder, f.meta)
                        && s.disk.notes[p] == f.meta)
  }

  ghost predicate Invariant(s: State) {
    && Shape(s) && Ownership(s) && Numbered(s) && PoolFrames(s) && NothingLost(s)
    && AckOrder(s) && BatchOrder(s) && Conversation(s) && DiskSound(s)
  }

  /** A board just reset, and a store that has never seen this boot's identity. */
  ghost predicate Initial(s: State) {
    && IsIdentity(s.boot)
    && |s.slots| == |s.payloads| == POOL_COUNT && (forall i :: 0 <= i < POOL_COUNT ==> s.slots[i].state == Free)
    && s.cycle == 0 && s.capture == NoCapture && s.sender == Offline && s.link == Cut && s.host == Waiting
    && s.published == [] && s.acked == [] && s.sent == []
    && (forall k, l :: k in s.disk.index && l in s.disk.index && k != l ==> s.disk.index[k] != s.disk.index[l])
    && (forall k :: k in s.disk.index ==> k.boot != s.boot)
  }

  lemma InitialInvariant(s: State)
    requires Initial(s)
    ensures Invariant(s)
  {
  }

  // ----- Every step keeps the invariant

  /** The conditions Apply needs follow from enabledness. */
  lemma EnabledApplies(s: State, a: Action)
    requires Invariant(s) && Enabled(s, a)
    ensures a.HostWritesAudio? || a.HostWritesNotes? ==> KeyOf(s.host.frame.meta) in s.disk.index
  {
  }

  ghost function Next(s: State, a: Action): State
    requires Invariant(s) && Enabled(s, a)
  {
    EnabledApplies(s, a);
    Apply(s, a)
  }

  /** Every published frame, and so every frame in the pool, is at most the last published. */
  lemma PublishedUpToLast(s: State)
    requires Shape(s) && Numbered(s) && PoolFrames(s)
    ensures forall f :: f in s.published ==> 0 < f.meta.sequence <= LastSequence(s.published)
    ensures forall i :: 0 <= i < POOL_COUNT && HoldsFrame(s, i) ==>
      0 < s.slots[i].meta.sequence <= LastSequence(s.published)
  {
    forall i | 0 <= i < POOL_COUNT && HoldsFrame(s, i)
      ensures 0 < s.slots[i].meta.sequence <= LastSequence(s.published)
    {
      assert FrameAt(s, i) in s.published;
    }
  }

  /** The frame is not the one in slot `except`, if that names a slot with a frame. */
  predicate Elsewhere(s: State, except: int, f: Frame)
    requires Shape(s)
  {
    except < 0 || except >= POOL_COUNT || !HoldsFrame(s, except) || f != FrameAt(s, except)
  }

  /** A frame stays in the pool when its slot keeps it. */
  lemma StaysInPool(s: State, t: State, except: int)
    requires Shape(s) && Shape(t)
    requires forall i :: 0 <= i < POOL_COUNT && i != except && HoldsFrame(s, i) ==>
      HoldsFrame(t, i) && FrameAt(t, i) == FrameAt(s, i)
    ensures forall f :: InPool(s, f) && Elsewhere(s, except, f) ==> InPool(t, f)
  {
    forall f | InPool(s, f) && Elsewhere(s, except, f) ensures InPool(t, f) {
      var i :| 0 <= i < POOL_COUNT && HoldsFrame(s, i) && FrameAt(s, i) == f;
      assert HoldsFrame(t, i) && FrameAt(t, i) == f;
    }
  }

  // ----- What steps elsewhere leave alone

  lemma DiskAlone(s: State, t: State)
    requires DiskSound(s) && t.disk == s.disk && t.boot == s.boot
    requires forall f :: f in s.published ==> f in t.published
    ensures DiskSound(t)
  {
  }

  lemma FramesAlone(s: State, t: State)
    requires Shape(s) && Shape(t) && NothingLost(s) && t.disk == s.disk
    requires forall f :: f in t.published ==> f in s.published
    requires forall n :: n in s.acked ==> n in t.acked
    requires forall f :: InPool(s, f) ==> InPool(t, f)
    ensures NothingLost(t)
  {
    hide Stored, InPool;
  }

  /** Steps of the host and of the connection touch neither slots nor history. */
  lemma PoolAlone(s: State, t: State)
    requires Invariant(s)
    requires t == s.(host := t.host, link := t.link, disk := t.disk)
    ensures Ownership(t) && Numbered(t) && PoolFrames(t) && AckOrder(t) && BatchOrder(t)
    ensures forall f :: InPool(s, f) ==> InPool(t, f)
  {
    hide NothingLost, Conversation, DiskSound;
    StaysInPool(s, t, -1);
  }

  /** The disk only grew, so what was stored still is. */
  lemma LossAlone(s: State, t: State)
    requires Invariant(s) && Extends(t.disk, s.disk)
    requires t == s.(host := t.host, link := t.link, disk := t.disk)
    ensures NothingLost(t)
  {
    hide Ownership, Numbered, PoolFrames, AckOrder, BatchOrder, Conversation, DiskSound, Stored;
    StillStored(s, t);
    StaysInPool(s, t, -1);
  }

  lemma AcquireKeeps(s: State, t: State, i: nat)
    requires Invariant(s)
    requires s.capture == NoCapture && i < POOL_COUNT && IsFirstFree(s.slots, i)
    requires t == s.(slots := SetState(s, i, Filling), capture := Armed(i))
    ensures Invariant(t)
  {
    hide Crc32.Crc, IsWav, Stored, IsIdentity, PathOf, AudioOf, Conflicts, DiskSound, NothingLost;
    StaysInPool(s, t, -1);
    DiskAlone(s, t);
    FramesAlone(s, t);
    assert Ownership(t);
    assert Numbered(t);
    assert PoolFrames(t);
    assert NothingLost(t);
    assert AckOrder(t);
    assert BatchOrder(t);
    assert Conversation(t);
    assert DiskSound(t);
  }

  /** A cancelled or discarded capture gives its slot back. */
  lemma ReleaseKeeps(s: State, t: State)
    requires Invariant(s)
    requires s.capture != NoCapture
    requires t == s.(slots := SetState(s, s.capture.slot, Free), capture := NoCapture)
    ensures Invariant(t)
  {
    hide Crc32.Crc, IsWav, Stored, IsIdentity, PathOf, AudioOf, Conflicts, DiskSound, NothingLost;
    StaysInPool(s, t, -1);
    DiskAlone(s, t);
    FramesAlone(s, t);
    assert Ownership(t);
    assert Numbered(t);
    assert PoolFrames(t);
    assert NothingLost(t);
    assert AckOrder(t);
    assert BatchOrder(t);
    assert Conversation(t);
    assert DiskSound(t);
  }

  lemma TriggerKeeps(s: State, t: State)
    requires Invariant(s)
    requires s.capture.Armed? && s.cycle < UINT32_MAX
    requires t == s.(capture := Recording(s.capture.slot), cycle := s.cycle + 1)
    ensures Invariant(t)
  {
    hide Crc32.Crc, IsWav, Stored, IsIdentity, PathOf, AudioOf, Conflicts, DiskSound, NothingLost;
    StaysInPool(s, t, -1);
    DiskAlone(s, t);
    FramesAlone(s, t);
    NextNumber(s, t);
    hide Ownership, PoolFrames, AckOrder, BatchOrder, Numbered, Conversation;
  }

  lemma NextNumber(s: State, t: State)
    requires Invariant(s)
    requires s.capture.Armed? && s.cycle < UINT32_MAX
    requires t == s.(capture := Recording(s.capture.slot), cycle := s.cycle + 1)
    ensures Numbered(t)
  {
    hide NothingLost, DiskSound, PoolFrames, AckOrder, BatchOrder, Conversation;
    PublishedUpToLast(s);
  }

  /** A newly published frame is ahead of every other, of the batch and of every acknowledgement. */
  lemma PublishIsNewest(s: State, t: State, f: Frame)
    requires Invariant(s) && s.capture.Recording? && f.meta.sequence == s.cycle
    requires t == s.(slots := s.slots[s.capture.slot := Slot(Ready, f.meta)],
                     payloads := s.payloads[s.capture.slot := f.payload],
                     capture := NoCapture, published := s.published + [f])
    ensures PoolFrames(t) && AckOrder(t) && BatchOrder(t)
  {
    hide NothingLost, Conversation, DiskSound, Identified;
    PublishedUpToLast(s);
    PublishJoinsPool(s, t, f);
    assert LastSequence(t.published) == s.cycle > LastSequence(s.published);
    assert AckOrder(t);
    assert BatchOrder(t);
  }

  lemma PublishJoinsPool(s: State, t: State, f: Frame)
    requires Invariant(s) && s.capture.Recording? && f.meta.sequence == s.cycle
    requires t == s.(slots := s.slots[s.capture.slot := Slot(Ready, f.meta)],
                     payloads := s.payloads[s.capture.slot := f.payload],
                     capture := NoCapture, published := s.published + [f])
    ensures PoolFrames(t)
  {
    hide NothingLost, Conversation, DiskSound, AckOrder, BatchOrder, Identified;
    PublishedUpToLast(s);
    assert t.published[|s.published|] == f;
    forall i | 0 <= i < POOL_COUNT && HoldsFrame(t, i) ensures FrameAt(t, i) in t.published {
      if i != s.capture.slot {
        assert HoldsFrame(s, i) && FrameAt(s, i) == FrameAt(t, i);
      }
    }
  }

  lemma PublishLosesNothing(s: State, t: State, f: Frame)
    requires Shape(s) && Shape(t) && NothingLost(s) && t.disk == s.disk && t.acked == s.acked
    requires forall g :: g in t.published <==> g in s.published || g == f
    requires forall g :: InPool(s, g) ==> InPool(t, g)
    requires InPool(t, f)
    ensures NothingLost(t)
  {
    hide Stored, InPool;
  }

  /** A published frame is the newest, in its slot, and unlike anything on the host's disk. */
  lemma PublishKeeps(s: State, t: State, f: Frame)
    requires Invariant(s)
    requires s.capture.Recording? && f.meta.sequence == s.cycle && f.meta.bootId == s.boot && Identified(f.meta)
    requires t == s.(slots := s.slots[s.capture.slot := Slot(Ready, f.meta)],
                     payloads := s.payloads[s.capture.slot := f.payload],
                  capture := NoCapture, published := s.published + [f])
    ensures Invariant(t)
  {
    hide Crc32.Crc, IsWav, Stored, IsIdentity, PathOf, AudioOf, Conflicts;
    hide DiskSound, NothingLost, PoolFrames, AckOrder, BatchOrder;
    var c := s.capture.slot;
    PublishIsNewest(s, t, f);
    StaysInPool(s, t, -1);
    assert t.published[|s.published|] == f;
    assert HoldsFrame(t, c) && FrameAt(t, c) == f;
    assert forall g :: g in t.published <==> g in s.published || g == f;
    DiskAlone(s, t);
    PublishLosesNothing(s, t, f);
    assert Ownership(t);
    assert Numbered(t);
    assert PoolFrames(t);
    assert NothingLost(t);
    assert AckOrder(t);
    assert BatchOrder(t);
    assert Conversation(t);
    assert DiskSound(t);
  }

  lemma ConnectKeeps(s: State, t: State)
    requires Invariant(s)
    requires s.sender == Offline && s.host == Waiting && s.link == Cut
    requires t == s.(sender := Between, link := Up(None, None))
    ensures Invariant(t)
  {
    hide Crc32.Crc, IsWav, Stored, IsIdentity, PathOf, AudioOf, Conflicts, DiskSound, NothingLost;
    StaysInPool(s, t, -1);
    DiskAlone(s, t);
    FramesAlone(s, t);
    assert Ownership(t);
    assert Numbered(t);
    assert PoolFrames(t);
    assert NothingLost(t);
    assert AckOrder(t);
    assert BatchOrder(t);
    assert Conversation(t);
    assert DiskSound(t);
  }

  /** Beginning a batch: everything ready now is the batch, and nothing newer can be below its limit. */
  lemma StartKeeps(s: State, t: State, n: nat)
    requires Invariant(s)
    requires s.sender == Between && IsLatest(s.slots, n) && s.link == Up(None, None)
    requires t == s.(sender := SendingMarker(n), link := Up(Some(Marker), None), batch := ReadySequences(s.slots))
    ensures Invariant(t)
  {
    hide Crc32.Crc, IsWav, Stored, IsIdentity, PathOf, AudioOf, Conflicts, DiskSound, NothingLost;
    StaysInPool(s, t, -1);
    DiskAlone(s, t);
    FramesAlone(s, t);
    PublishedUpToLast(s);
    assert n <= LastSequence(s.published) by {
      if n != 0 {
        var k :| 0 <= k < |s.slots| && s.slots[k].state == Ready && s.slots[k].meta.sequence == n;
        assert HoldsFrame(s, k);
      }
    }
    assert s.host == Waiting;
    assert Ownership(t);
    assert Numbered(t);
    assert PoolFrames(t);
    assert NothingLost(t);
    assert AckOrder(t);
    assert BatchOrder(t);
    assert Conversation(t);
    assert DiskSound(t);
  }

  lemma FinishKeeps(s: State, t: State)
    requires Invariant(s)
    requires s.sender.Choosing?
    requires t == s.(sender := Between)
    ensures Invariant(t)
  {
    hide Crc32.Crc, IsWav, Stored, IsIdentity, PathOf, AudioOf, Conflicts, DiskSound, NothingLost;
    StaysInPool(s, t, -1);
    DiskAlone(s, t);
    FramesAlone(s, t);
    assert Ownership(t);
    assert Numbered(t);
    assert PoolFrames(t);
    assert NothingLost(t);
    assert AckOrder(t);
    assert BatchOrder(t);
    assert Conversation(t);
    assert DiskSound(t);
  }

  lemma CutKeeps(s: State, t: State)
    requires Invariant(s)
    requires s.link.Up?
    requires t == s.(link := Cut)
    ensures Invariant(t)
  {
    hide Crc32.Crc, IsWav, Stored, IsIdentity, PathOf, AudioOf, Conflicts, DiskSound, NothingLost;
    StaysInPool(s, t, -1);
    DiskAlone(s, t);
    FramesAlone(s, t);
    assert Ownership(t);
    assert Numbered(t);
    assert PoolFrames(t);
    assert NothingLost(t);
    assert AckOrder(t);
    assert BatchOrder(t);
    assert Conversation(t);
    assert DiskSound(t);
  }

  lemma TakeKeeps(s: State, t: State, i: nat)
    requires Invariant(s)
    requires s.sender.Choosing? && i < POOL_COUNT && IsOldest(s.slots, s.sender.through, i)
    requires t == s.(slots := SetState(s, i, Sending), sender := SendingFrame(s.sender.through, i),
                  link := Transmit(s.link, Data(FrameAt(s, i))), sent := s.sent + [s.slots[i].meta.sequence])
    ensures Invariant(t)
  {
    hide Crc32.Crc, IsWav, Stored, IsIdentity, PathOf, AudioOf, Conflicts, DiskSound, NothingLost;
    StaysInPool(s, t, -1);
    DiskAlone(s, t);
    FramesAlone(s, t);
    assert Eligible(s.slots[i], s.sender.through);
    forall j | 0 <= j < POOL_COUNT && HoldsFrame(t, j) ensures t.slots[i].meta.sequence <= t.slots[j].meta.sequence {
      if s.slots[j].state == Ready && s.slots[j].meta.sequence <= s.sender.through {
        assert Eligible(s.slots[j], s.sender.through);
      }
    }
    assert s.link.Up? ==> s.host == Waiting;
    assert Ownership(t);
    assert Numbered(t);
    assert PoolFrames(t);
    assert NothingLost(t);
    assert AckOrder(t);
    assert BatchOrder(t);
    assert Conversation(t);
    assert DiskSound(t);
  }

  lemma GiveUpKeeps(s: State, t: State)
    requires Invariant(s)
    requires s.sender != Offline && !s.sender.Choosing?
    requires t == GiveUp(s)
    ensures Invariant(t)
  {
    hide Crc32.Crc, IsWav, Stored, IsIdentity, PathOf, AudioOf, Conflicts, DiskSound, NothingLost;
    StaysInPool(s, t, -1);
    DiskAlone(s, t);
    FramesAlone(s, t);
    assert Ownership(t);
    assert Numbered(t);
    assert PoolFrames(t);
    assert NothingLost(t);
    assert AckOrder(t);
    assert BatchOrder(t);
    assert Conversation(t);
    assert DiskSound(t);
  }

  lemma FreeLosesNothing(s: State, t: State, i: nat)
    requires Shape(s) && Shape(t) && NothingLost(s) && t.disk == s.disk && t.published == s.published
    requires i < POOL_COUNT && Stored(s.disk, s.slots[i].meta, s.payloads[i])
    requires t.acked == s.acked + [s.slots[i].meta.sequence]
    requires forall f :: InPool(s, f) && f != FrameAt(s, i) ==> InPool(t, f)
    ensures NothingLost(t)
  {
    hide Stored, InPool;
    assert forall n :: n in s.acked ==> n in t.acked;
    assert t.acked[|s.acked|] == s.slots[i].meta.sequence;
  }

  /** The freed frame was the oldest: what is left is newer than its acknowledgement, and still in the batch. */
  lemma FreeKeepsOrder(s: State, t: State, i: nat)
    requires Invariant(s) && Shape(t)
    requires s.sender.SendingFrame? && s.sender.slot == i
    requires t == s.(slots := SetState(s, i, Free), sender := Choosing(s.sender.through), link := Up(None, None),
                     acked := s.acked + [s.slots[i].meta.sequence])
    ensures AckOrder(t) && BatchOrder(t)
  {
    hide NothingLost, Conversation, DiskSound;
    PublishedUpToLast(s);
    assert HoldsFrame(s, i) && FrameAt(s, i) in s.published;
    forall j | 0 <= j < POOL_COUNT && HoldsFrame(t, j) ensures HoldsFrame(s, j) && t.slots[j] == s.slots[j] && j != i {
    }
    assert AckOrder(t);
    assert BatchOrder(t);
  }

  /** Freeing the acknowledged slot: the frame is stored. */
  lemma FreeKeeps(s: State, t: State, i: nat)
    requires Invariant(s)
    requires s.sender.SendingFrame? && s.sender.slot == i
    requires s.link.Up? && s.link.toBoard == Some(AckFor(FrameAt(s, i)))
    requires t == s.(slots := SetState(s, i, Free), sender := Choosing(s.sender.through), link := Up(None, None),
                  acked := s.acked + [s.slots[i].meta.sequence])
    ensures Invariant(t)
  {
    hide Crc32.Crc, IsWav, Stored, IsIdentity, PathOf, AudioOf, Conflicts, DiskSound, NothingLost, AckOrder, BatchOrder;
    FreeKeepsOrder(s, t, i);
    StaysInPool(s, t, i);
    assert HoldsFrame(s, i);
    assert Stored(s.disk, s.slots[i].meta, s.payloads[i]);
    assert forall k :: k in s.acked ==> k in t.acked;
    DiskAlone(s, t);
    FreeLosesNothing(s, t, i);
    assert t.acked[|s.acked|] == s.slots[i].meta.sequence;
    assert Ownership(t);
    assert Numbered(t);
    assert PoolFrames(t);
    assert NothingLost(t);
    assert Conversation(t);
    assert DiskSound(t);
  }

  lemma MarkerKeeps(s: State, t: State)
    requires Invariant(s)
    requires s.sender.SendingMarker? && s.link.Up? && s.link.toBoard.Some?
    requires t == s.(sender := Choosing(s.sender.through), link := Up(None, None))
    ensures Invariant(t)
  {
    hide Crc32.Crc, IsWav, Stored, IsIdentity, PathOf, AudioOf, Conflicts, DiskSound, NothingLost;
    StaysInPool(s, t, -1);
    DiskAlone(s, t);
    FramesAlone(s, t);
    assert s.host == Waiting;
    assert Ownership(t);
    assert Numbered(t);
    assert PoolFrames(t);
    assert NothingLost(t);
    assert AckOrder(t);
    assert BatchOrder(t);
    assert Conversation(t);
    assert DiskSound(t);
  }

  // ----- The host

  /** Two published frames with the same path are the same frame. */
  lemma PathIdentifiesFrame(s: State, f: Frame, g: Frame, folder: string)
    requires Numbered(s) && f in s.published && g in s.published
    requires PathIn(folder, f.meta) == PathIn(folder, g.meta)
    ensures f == g
  {
    var k :| 0 <= k < |s.published| && s.published[k] == f;
    var l :| 0 <= l < |s.published| && s.published[l] == g;
    assert s.published[k].meta.sequence == s.published[l].meta.sequence;
  }

  /** The host never finds a conflicting file: a redelivered frame meets only itself. */
  lemma NeverConflicts(s: State, f: Frame)
    requires Numbered(s) && DiskSound(s) && f in s.published && KeyOf(f.meta) in s.disk.index
    ensures !Conflicts(s.disk, f.meta, f.payload)
  {
    hide IsWav;
    var p, a := PathOf(s.disk, f.meta), AudioOf(s.disk, f.meta, f.payload);
    assert KeyOf(f.meta).boot == s.boot;
    forall b | b in s.disk.audio && b.path == p ensures b == a && s.disk.audio[b] == f.payload {
      var g :| g in s.published && KeyOf(g.meta) == KeyOf(f.meta) && b == AudioIn(b.path.folder, g.meta, g.payload)
               && s.disk.audio[b] == g.payload;
      PathIdentifiesFrame(s, f, g, p.folder);
    }
    if p in s.disk.notes {
      var g :| g in s.published && KeyOf(g.meta) == KeyOf(f.meta) && p == PathIn(p.folder, g.meta)
               && s.disk.notes[p] == g.meta;
      PathIdentifiesFrame(s, f, g, p.folder);
    }
  }

  lemma StillStored(s: State, t: State)
    requires Shape(s) && Shape(t) && Extends(t.disk, s.disk)
    ensures forall f: Frame :: Stored(s.disk, f.meta, f.payload) ==> Stored(t.disk, f.meta, f.payload)
  {
    forall f: Frame | Stored(s.disk, f.meta, f.payload) ensures Stored(t.disk, f.meta, f.payload) {
      StoredStays(t.disk, s.disk, f.meta, f.payload);
    }
  }

  /** A file of this frame's folder belongs to this frame's identity. */
  lemma FoldersDiffer(s: State, f: Frame)
    requires DiskSound(s) && KeyOf(f.meta) in s.disk.index
    ensures forall k :: k in s.disk.index && s.disk.index[k] == PathOf(s.disk, f.meta).folder ==> k == KeyOf(f.meta)
  {
  }

  lemma ReceiveKeeps(s: State, t: State)
    requires Invariant(s)
    requires s.host == Waiting && s.link.Up? && s.link.toHost.Some?
    requires t == s.(host := if s.link.toHost.value.Marker? then MarkerSeen else Received(s.link.toHost.value.frame),
                  link := s.link.(toHost := None))
    ensures Invariant(t)
  {
    hide Crc32.Crc, IsWav, IsIdentity, Stored, PathOf, AudioOf, Numbered, AckOrder, BatchOrder, NothingLost, DiskSound;
    PoolAlone(s, t);
    LossAlone(s, t);
    DiskAlone(s, t);
    if s.link.toHost.value.Data? {
      assert HoldsFrame(s, s.sender.slot);
    }
    assert Ownership(t);
    assert Numbered(t);
    assert PoolFrames(t);
    assert NothingLost(t);
    assert AckOrder(t);
    assert BatchOrder(t);
    assert Conversation(t);
    assert DiskSound(t);
  }

  lemma ReplyKeeps(s: State, t: State)
    requires Invariant(s)
    requires s.host.MarkerSeen? || s.host.FrameSaved?
    requires var ack := if s.host.MarkerSeen? then Ack(0, 0) else AckFor(s.host.frame);
      t == s.(host := Waiting, link := if s.link.Up? then s.link.(toBoard := Some(ack)) else Cut)
    ensures Invariant(t)
  {
    hide Crc32.Crc, IsWav, IsIdentity, Stored, PathOf, AudioOf, Ownership;
    hide Numbered, PoolFrames, AckOrder, BatchOrder, NothingLost, DiskSound;
    PoolAlone(s, t);
    LossAlone(s, t);
    DiskAlone(s, t);
    assert Ownership(t);
    assert Numbered(t);
    assert PoolFrames(t);
    assert NothingLost(t);
    assert AckOrder(t);
    assert BatchOrder(t);
    assert Conversation(t);
    assert DiskSound(t);
  }

  lemma StopKeeps(s: State, t: State)
    requires Invariant(s)
    requires t == s.(host := Waiting, link := Cut)
    ensures Invariant(t)
  {
    hide Crc32.Crc, IsWav, IsIdentity, Stored, PathOf, AudioOf, Ownership;
    hide Numbered, PoolFrames, AckOrder, BatchOrder, NothingLost, DiskSound;
    PoolAlone(s, t);
    LossAlone(s, t);
    DiskAlone(s, t);
    assert Ownership(t);
    assert Numbered(t);
    assert PoolFrames(t);
    assert NothingLost(t);
    assert AckOrder(t);
    assert BatchOrder(t);
    assert Conversation(t);
    assert DiskSound(t);
  }

  /** A new route uses an unused folder; an existing one is left alone. */
  lemma RouteKeeps(s: State, t: State, key: Key, folder: string)
    requires Invariant(s)
    requires key in s.disk.index || Unused(s.disk, folder)
    requires s.host.Received? ==>
      t.host == s.host || (key == KeyOf(s.host.frame.meta) && t.host == Routed(s.host.frame))
    requires !s.host.Received? ==> t.host == s.host
    requires t == s.(disk := Route(s.disk, key, folder), host := t.host)
    ensures Invariant(t)
  {
    hide Crc32.Crc, IsWav, IsIdentity, Ownership, PoolFrames, AckOrder, BatchOrder;
    hide NothingLost, Stored, DiskSound, PathOf, AudioOf, Unused;
    RouteKeepsPaths(s.disk, t.disk, key, folder);
    PoolAlone(s, t);
    LossAlone(s, t);
    StillStored(s, t);
    RouteSound(s, t, key, folder);
    assert Ownership(t);
    assert Numbered(t);
    assert PoolFrames(t);
    assert NothingLost(t);
    assert AckOrder(t);
    assert BatchOrder(t);
    assert Conversation(t);
    assert DiskSound(t);
  }

  lemma RouteSound(s: State, t: State, key: Key, folder: string)
    requires DiskSound(s) && (key in s.disk.index || Unused(s.disk, folder))
    requires t == s.(disk := Route(s.disk, key, folder), host := t.host)
    ensures DiskSound(t)
  {
    hide Crc32.Crc, IsWav;
  }

  lemma RouteKeepsPaths(d: Disk, e: Disk, key: Key, folder: string)
    requires e == Route(d, key, folder)
    ensures Extends(e, d) && e.audio == d.audio && e.notes == d.notes
    ensures forall m: Meta :: KeyOf(m) in d.index ==> PathOf(e, m) == PathOf(d, m)
    ensures forall m: Meta, payload :: KeyOf(m) in d.index ==> AudioOf(e, m, payload) == AudioOf(d, m, payload)
  {
  }

  lemma AudioKeeps(s: State, t: State, f: Frame)
    requires Invariant(s)
    requires s.host == Routed(f)
    requires t == s.(disk := WriteAudio(s.disk, f.meta, f.payload), host := AudioWritten(f))
    ensures Invariant(t)
  {
    hide Crc32.Crc, IsWav, IsIdentity, Ownership, PoolFrames, AckOrder, BatchOrder, NothingLost, Stored;
    NeverConflicts(s, f);
    assert Extends(t.disk, s.disk);
    PoolAlone(s, t);
    LossAlone(s, t);
    StillStored(s, t);
    FoldersDiffer(s, f);
    assert Ownership(t);
    assert Numbered(t);
    assert PoolFrames(t);
    assert NothingLost(t);
    assert AckOrder(t);
    assert BatchOrder(t);
    assert Conversation(t);
    assert DiskSound(t);
  }

  lemma NotesKeeps(s: State, t: State, f: Frame)
    requires Invariant(s)
    requires s.host == AudioWritten(f)
    requires t == s.(disk := WriteNotes(s.disk, f.meta), host := FrameSaved(f))
    ensures Invariant(t)
  {
    hide Crc32.Crc, IsWav, IsIdentity, Ownership, PoolFrames, AckOrder, BatchOrder, NothingLost, Stored;
    NeverConflicts(s, f);
    assert Extends(t.disk, s.disk);
    PoolAlone(s, t);
    LossAlone(s, t);
    StillStored(s, t);
    FoldersDiffer(s, f);
    assert Stored(t.disk, f.meta, f.payload) by { WrittenIsStored(s.disk, f); }
    assert Ownership(t);
    assert Numbered(t);
    assert PoolFrames(t);
    assert NothingLost(t);
    assert AckOrder(t);
    assert BatchOrder(t);
    assert Conversation(t);
    assert DiskSound(t);
  }

  lemma WrittenIsStored(d: Disk, f: Frame)
    requires KeyOf(f.meta) in d.index && AudioOf(d, f.meta, f.payload) in d.audio
    requires d.audio[AudioOf(d, f.meta, f.payload)] == f.payload
    ensures Stored(WriteNotes(d, f.meta), f.meta, f.payload)
  {
  }

  // ----- Every step, every run

  lemma AckKeeps(s: State)
    requires Invariant(s) && (s.sender.SendingMarker? || s.sender.SendingFrame?) && s.link.Up? && s.link.toBoard.Some?
    ensures Invariant(Acknowledge(s))
  {
    hide Ownership, Numbered, PoolFrames, NothingLost, AckOrder, BatchOrder, DiskSound, Crc32.Crc;
    GiveUpKeeps(s, GiveUp(s));
    if s.sender.SendingFrame? {
      FreeKeeps(s, Acknowledge(s), s.sender.slot);
    } else {
      MarkerKeeps(s, Acknowledge(s));
    }
  }

  /** Whatever step any task takes, the invariant survives. */
  lemma StepKeepsInvariant(s: State, a: Action)
    requires Invariant(s) && Enabled(s, a)
    ensures Invariant(Next(s, a))
  {
    hide Ownership, Numbered, PoolFrames, NothingLost, AckOrder, BatchOrder, DiskSound, Crc32.Crc, GiveUp, Acknowledge;
    var t := Next(s, a);
    match a {
      case AcquireSlot(i) => AcquireKeeps(s, t, i);
      case CancelCapture => ReleaseKeeps(s, t);
      case DiscardCapture => ReleaseKeeps(s, t);
      case TriggerCapture => TriggerKeeps(s, t);
      case PublishCapture(m, payload) => PublishKeeps(s, t, Frame(m, payload));
      case Connect => ConnectKeeps(s, t);
      case StartBatch(n) => StartKeeps(s, t, n);
      case FinishBatch => FinishKeeps(s, t);
      case CutLink => CutKeeps(s, t);
      case TakeFrame(i) => TakeKeeps(s, t, i);
      case AckArrives => AckKeeps(s);
      case SendFails => GiveUpKeeps(s, t);
      case HostReceives => ReceiveKeeps(s, t);
      case HostAcknowledges => ReplyKeeps(s, t);
      case HostStops => StopKeeps(s, t);
      case HostRoutes(folder) => RouteKeeps(s, t, KeyOf(s.host.frame.meta), folder);
      case HostBeginsTest(key, folder) => RouteKeeps(s, t, key, folder);
      case HostWritesAudio => AudioKeeps(s, t, s.host.frame);
      case HostWritesNotes => NotesKeeps(s, t, s.host.frame);
    }
  }

  /** What the host does to its disk only ever adds. */
  lemma StepExtendsDisk(s: State, a: Action)
    requires Invariant(s) && Enabled(s, a)
    ensures Extends(Next(s, a).disk, s.disk)
  {
    hide Ownership, PoolFrames, NothingLost, AckOrder, BatchOrder, Crc32.Crc;
    hide Numbered, DiskSound, IsFirstFree, IsOldest, IsLatest;
    if a.HostWritesNotes? {
      NeverConflicts(s, s.host.frame);
    }
  }

  /** `t` is reached from `s` by the steps of `run`, in that order. */
  ghost predicate Reaches(s: State, run: seq<Action>, t: State)
    requires Invariant(s)
    decreases |run|
  {
    if run == [] then t == s
    else Enabled(s, run[0]) && (StepKeepsInvariant(s, run[0]); Reaches(Next(s, run[0]), run[1..], t))
  }

  lemma {:induction false} RunKeepsInvariant(s: State, run: seq<Action>, t: State)
    requires Invariant(s) && Reaches(s, run, t)
    ensures Invariant(t)
    decreases |run|
  {
    hide Invariant, Enabled;
    if run != [] {
      StepKeepsInvariant(s, run[0]);
      RunKeepsInvariant(Next(s, run[0]), run[1..], t);
    }
  }

  /** In every run every published capture is in a slot or durably stored, and acknowledgements go up. */
  lemma NoCaptureIsLost(s: State, run: seq<Action>, t: State)
    requires Initial(s) && (InitialInvariant(s); Reaches(s, run, t))
    ensures Shape(t) && forall f :: f in t.published ==> InPool(t, f) || Stored(t.disk, f.meta, f.payload)
    ensures forall k, l :: 0 <= k < l < |t.acked| ==> t.acked[k] < t.acked[l]
  {
    InitialInvariant(s);
    RunKeepsInvariant(s, run, t);
  }

  /** A slot leaves the sender's hands for the free list only when its frame is on the host's disk. */
  lemma FreedOnlyWhenStored(s: State, a: Action, i: nat)
    requires Invariant(s) && Enabled(s, a) && i < POOL_COUNT
    requires s.slots[i].state == Sending && Next(s, a).slots[i].state == Free
    ensures Stored(s.disk, s.slots[i].meta, s.payloads[i]) && a == AckArrives
  {
    hide Numbered, PoolFrames, NothingLost, AckOrder, BatchOrder, DiskSound, Crc32.Crc, Stored;
  }

  /** An acknowledgement that arrives is the one expected: the mismatch branch is never taken. */
  lemma AcknowledgementMatches(s: State)
    requires Invariant(s) && Enabled(s, AckArrives)
    ensures Next(s, AckArrives).sender.Choosing?
    ensures s.sender.SendingFrame? ==>
      && s.link.toBoard == Some(Ack(s.slots[s.sender.slot].meta.sequence, Crc32.Crc(s.payloads[s.sender.slot])))
      && Next(s, AckArrives).acked == s.acked + [s.slots[s.sender.slot].meta.sequence]
  {
    hide Numbered, PoolFrames, NothingLost, AckOrder, BatchOrder, DiskSound, Crc32.Crc, Stored;
  }

  /** Whatever arrives, only number and checksum of the frame being sent free its slot; otherwise the frame is kept. */
  lemma OnlyItsAcknowledgementFrees(s: State)
    requires Shape(s) && s.sender.SendingFrame? && s.link.Up? && s.link.toBoard.Some?
    ensures var i, ack := s.sender.slot, s.link.toBoard.value;
      Acknowledge(s).slots[i].state ==
        if ack.sequence == s.slots[i].meta.sequence && ack.crc == Crc32.Crc(s.payloads[i]) then Free else Ready
  {
    hide Crc32.Crc;
  }

  /** Once stored, a capture stays stored under the same path, whatever follows, restarts included. */
  lemma {:induction false} DeliveredStaysDelivered(s: State, run: seq<Action>, t: State, f: Frame)
    requires Invariant(s) && Reaches(s, run, t) && KeyOf(f.meta) in s.disk.index
    ensures KeyOf(f.meta) in t.disk.index && PathOf(t.disk, f.meta) == PathOf(s.disk, f.meta)
    ensures Stored(s.disk, f.meta, f.payload) ==> Stored(t.disk, f.meta, f.payload)
    decreases |run|
  {
    hide Invariant, Enabled;
    if run != [] {
      var u := Next(s, run[0]);
      StepKeepsInvariant(s, run[0]);
      StepExtendsDisk(s, run[0]);
      DeliveredStaysDelivered(u, run[1..], t, f);
    }
  }

  // ----- The order of the wire

  /** What is put on the wire never goes back, and stays at or before everything in the pool. */
  ghost predicate SentInOrder(s: State)
    requires Shape(s)
  {
    && (forall k, l :: 0 <= k < l < |s.sent| ==> s.sent[k] <= s.sent[l])
    && (forall k, i :: 0 <= k < |s.sent| && 0 <= i < POOL_COUNT && HoldsFrame(s, i) ==>
          s.sent[k] <= s.slots[i].meta.sequence)
    && (forall k :: 0 <= k < |s.sent| ==> s.sent[k] <= LastSequence(s.published))
  }

  /** The frame chosen is the oldest published one not yet acknowledged. */
  lemma TakesOldestUnacknowledged(s: State, i: nat)
    requires Invariant(s) && Enabled(s, TakeFrame(i))
    ensures FrameAt(s, i) in s.published
    ensures s.slots[i].meta.sequence !in s.acked
    ensures forall g :: g in s.published && g.meta.sequence < s.slots[i].meta.sequence ==> g.meta.sequence in s.acked
    ensures forall j :: 0 <= j < POOL_COUNT && HoldsFrame(s, j) ==> s.slots[i].meta.sequence <= s.slots[j].meta.sequence
  {
    hide Conversation, DiskSound, Stored, Numbered, Crc32.Crc;
    assert Eligible(s.slots[i], s.sender.through);
    forall j | 0 <= j < POOL_COUNT && HoldsFrame(s, j)
      ensures s.slots[i].meta.sequence <= s.slots[j].meta.sequence
    {
      assert s.slots[j].meta.sequence <= s.sender.through ==> Eligible(s.slots[j], s.sender.through);
    }
    forall g | g in s.published && g.meta.sequence < s.slots[i].meta.sequence ensures g.meta.sequence in s.acked {
      assert !InPool(s, g);
    }
    assert HoldsFrame(s, i);
  }

  lemma StepKeepsWireOrder(s: State, a: Action)
    requires Invariant(s) && SentInOrder(s) && Enabled(s, a)
    ensures Shape(Next(s, a)) && SentInOrder(Next(s, a))
  {
    StepKeepsInvariant(s, a);
    if a.TakeFrame? {
      TakesOldestUnacknowledged(s, a.i);
    }
    WireOrderStep(s, a);
  }

  /** A step that publishes and sends nothing keeps the order, whatever it frees or takes back. */
  lemma WireAlone(s: State, t: State)
    requires Shape(s) && Shape(t) && SentInOrder(s) && t.sent == s.sent && t.published == s.published
    requires forall i :: 0 <= i < POOL_COUNT && HoldsFrame(t, i) ==>
      HoldsFrame(s, i) && t.slots[i].meta == s.slots[i].meta
    ensures SentInOrder(t)
  {
  }

  lemma WirePublish(s: State, t: State, c: nat)
    requires Shape(s) && Shape(t) && SentInOrder(s) && t.sent == s.sent && c < POOL_COUNT
    requires LastSequence(s.published) < t.slots[c].meta.sequence == LastSequence(t.published)
    requires forall i :: 0 <= i < POOL_COUNT && i != c && HoldsFrame(t, i) ==>
      HoldsFrame(s, i) && t.slots[i].meta == s.slots[i].meta
    ensures SentInOrder(t)
  {
  }

  lemma WireTake(s: State, t: State, i: nat)
    requires Shape(s) && Shape(t) && SentInOrder(s) && t.published == s.published && i < POOL_COUNT
    requires HoldsFrame(s, i) && t.sent == s.sent + [s.slots[i].meta.sequence]
    requires forall j :: 0 <= j < POOL_COUNT && HoldsFrame(t, j) ==>
      HoldsFrame(s, j) && t.slots[j].meta == s.slots[j].meta
    requires forall j :: 0 <= j < POOL_COUNT && HoldsFrame(s, j) ==>
      s.slots[i].meta.sequence <= s.slots[j].meta.sequence
    requires s.slots[i].meta.sequence <= LastSequence(s.published)
    ensures SentInOrder(t)
  {
  }

  lemma WireOrderStep(s: State, a: Action)
    requires Invariant(s) && SentInOrder(s) && Enabled(s, a) && Shape(Next(s, a))
    requires a.TakeFrame? ==> forall j :: 0 <= j < POOL_COUNT && HoldsFrame(s, j) ==>
      s.slots[a.i].meta.sequence <= s.slots[j].meta.sequence
    ensures SentInOrder(Next(s, a))
  {
    hide NothingLost, AckOrder, BatchOrder, Conversation, DiskSound, Stored, Crc32.Crc, Conflicts;
    hide Unused, Route, WriteAudio, WriteNotes, SentInOrder, GiveUp, Acknowledge;
    var t := Next(s, a);
    PublishedUpToLast(s);
    if a.TakeFrame? {
      assert Eligible(s.slots[a.i], s.sender.through);
      WireTake(s, t, a.i);
    } else if a.PublishCapture? {
      WirePublish(s, t, s.capture.slot);
    } else if a.AckArrives? || a.SendFails? {
      TransferEnds(s, a);
      WireAlone(s, t);
    } else {
      WireAlone(s, t);
    }
  }

  lemma TransferEnds(s: State, a: Action)
    requires Invariant(s) && Enabled(s, a) && (a.AckArrives? || a.SendFails?)
    ensures Next(s, a).sent == s.sent && Next(s, a).published == s.published && Shape(Next(s, a))
    ensures forall i :: 0 <= i < POOL_COUNT && HoldsFrame(Next(s, a), i) ==>
      HoldsFrame(s, i) && Next(s, a).slots[i].meta == s.slots[i].meta
  {
    hide Numbered, PoolFrames, NothingLost, AckOrder, BatchOrder, Conversation, DiskSound, Stored, Crc32.Crc;
  }

  lemma AcksAscend(s: State)
    requires Invariant(s)
    ensures forall k, l :: 0 <= k < l < |s.acked| ==> s.acked[k] < s.acked[l]
  {
  }

  /**
   Over a whole boot the sequences on the wire never decrease, so only the oldest outstanding frame repeats, and
   acknowledged sequences strictly increase.
   */
  lemma {:induction false} WireNeverGoesBack(s: State, run: seq<Action>, t: State)
    requires Invariant(s) && SentInOrder(s) && Reaches(s, run, t)
    ensures forall k, l :: 0 <= k < l < |t.sent| ==> t.sent[k] <= t.sent[l]
    ensures forall k, l :: 0 <= k < l < |t.acked| ==> t.acked[k] < t.acked[l]
    decreases |run|
  {
    hide Invariant, Enabled;
    if run == [] {
      AcksAscend(s);
    } else {
      StepKeepsInvariant(s, run[0]);
      StepKeepsWireOrder(s, run[0]);
      WireNeverGoesBack(Next(s, run[0]), run[1..], t);
    }
  }

  // ----- Batches end

  predicate InBatch(s: State) {
    s.sender.Choosing? || s.sender.SendingFrame?
  }

  /** Slots the batch in progress may still take. */
  ghost function StillEligible(s: State): set<int>
    requires InBatch(s)
  {
    set i | 0 <= i < |s.slots| && Eligible(s.slots[i], s.sender.through)
  }

  /** Inside a batch the eligible slots only shrink, however many captures are published meanwhile. */
  lemma BatchShrinks(s: State, a: Action)
    requires Invariant(s) && Enabled(s, a) && InBatch(s) && InBatch(Next(s, a))
    ensures StillEligible(Next(s, a)) <= StillEligible(s)
    ensures a.TakeFrame? ==> |StillEligible(Next(s, a))| < |StillEligible(s)|
  {
    hide PoolFrames, NothingLost, AckOrder, Conversation, DiskSound, Stored, Crc32.Crc;
    hide Conflicts, Unused, Route, WriteAudio, WriteNotes;
    PublishedBelowCycle(s);
    var before, after := StillEligible(s), StillEligible(Next(s, a));
    if a.TakeFrame? {
      assert Eligible(s.slots[a.i], s.sender.through);
      assert a.i in before && a.i !in after;
      SmallerSubset(after, before, a.i);
    }
  }

  lemma PublishedBelowCycle(s: State)
    requires Numbered(s)
    ensures s.capture.Recording? ==> LastSequence(s.published) < s.cycle
  {
  }

  /** Takes in a run that stays inside one batch. */
  function Takes(run: seq<Action>): nat {
    if run == [] then 0 else (if run[0].TakeFrame? then 1 else 0) + Takes(run[1..])
  }

  ghost predicate StaysInBatch(s: State, run: seq<Action>)
    requires Invariant(s)
    decreases |run|
  {
    && InBatch(s)
    && (run == [] ||
          (Enabled(s, run[0]) && (StepKeepsInvariant(s, run[0]); StaysInBatch(Next(s, run[0]), run[1..]))))
  }

  /** A batch sends at most as many frames as were eligible when it began, never more than the pool holds. */
  lemma {:induction false} BatchIsBounded(s: State, run: seq<Action>)
    requires Invariant(s) && StaysInBatch(s, run)
    ensures Takes(run) <= |StillEligible(s)| <= POOL_COUNT
    decreases |run|
  {
    hide Invariant, Enabled, Eligible;
    ShapeHolds(s);
    SubsetSize(StillEligible(s), Below(POOL_COUNT));
    if run != [] {
      var t := Next(s, run[0]);
      StepKeepsInvariant(s, run[0]);
      BatchShrinks(s, run[0]);
      SubsetSize(StillEligible(t), StillEligible(s));
      BatchIsBounded(t, run[1..]);
    }
  }

  lemma ShapeHolds(s: State)
    requires Invariant(s)
    ensures Shape(s)
  {
  }

  /** A batch is what was ready when it began. */
  lemma BatchIsWhatWasReady(s: State, n: nat)
    requires Invariant(s) && Enabled(s, StartBatch(n))
    ensures forall k: nat :: k in Next(s, StartBatch(n)).batch <==>
      exists i :: 0 <= i < POOL_COUNT && s.slots[i].state == Ready && s.slots[i].meta.sequence == k
  {
    hide Ownership, Numbered, PoolFrames, NothingLost, AckOrder, BatchOrder, Conversation, DiskSound;
    var t := Next(s, StartBatch(n));
    assert t.batch == ReadySequences(s.slots);
  }

  /** While a frame is on its way, it is one that was ready when the batch began. */
  lemma OnlyBatchFramesAreSent(s: State)
    requires Invariant(s) && s.sender.SendingFrame?
    ensures s.slots[s.sender.slot].meta.sequence in s.batch
  {
  }

  // ----- Progress

  /** With the connection up and nobody failing, the next frame of a batch is saved, acknowledged and freed. */
  lemma NextFrameIsDelivered(s: State, i: nat, folder: string) returns (t: State)
    requires Invariant(s) && s.sender.Choosing? && s.link == Up(None, None) && s.host == Waiting
    requires Enabled(s, TakeFrame(i)) && Unused(s.disk, folder)
    ensures Reaches(s, [TakeFrame(i), HostReceives, HostRoutes(folder), HostWritesAudio, HostWritesNotes,
                       HostAcknowledges, AckArrives], t)
    ensures t == s.(slots := SetState(s, i, Free), acked := s.acked + [s.slots[i].meta.sequence],
                    sent := s.sent + [s.slots[i].meta.sequence], disk := t.disk)
    ensures Stored(t.disk, s.slots[i].meta, s.payloads[i])
  {
    hide Numbered, PoolFrames, NothingLost, AckOrder, BatchOrder, DiskSound, Crc32.Crc, Conversation;
    var f := FrameAt(s, i);
    var taken := TakeStep(s, i);
    var saved := SaveSteps(taken, f, folder);
    var save := [HostReceives, HostRoutes(folder), HostWritesAudio, HostWritesNotes];
    var reply := [HostAcknowledges, AckArrives];
    var steps := [TakeFrame(i)] + (save + reply);
    t := AcknowledgeSteps(saved, i);
    ReachesInOrder(taken, [HostReceives, HostRoutes(folder), HostWritesAudio, HostWritesNotes], saved,
                   [HostAcknowledges, AckArrives], t);
    ReachesInOrder(s, [TakeFrame(i)], taken, save + reply, t);
    assert steps == [TakeFrame(i), HostReceives, HostRoutes(folder), HostWritesAudio, HostWritesNotes,
                     HostAcknowledges, AckArrives];
  }

  lemma {:induction false} ReachesInOrder(s: State, a: seq<Action>, t: State, b: seq<Action>, u: State)
    requires Invariant(s) && Reaches(s, a, t)
    requires Invariant(t) && Reaches(t, b, u)
    ensures Reaches(s, a + b, u)
    decreases |a|
  {
    hide Invariant, Enabled;
    if a == [] {
      assert a + b == b;
    } else {
      StepKeepsInvariant(s, a[0]);
      assert (a + b)[1..] == a[1..] + b;
      ReachesInOrder(Next(s, a[0]), a[1..], t, b, u);
    }
  }

  lemma ReachesOne(s: State, a: Action)
    requires Invariant(s) && Enabled(s, a)
    ensures Reaches(s, [a], Next(s, a)) && Invariant(Next(s, a))
  {
    hide Invariant, Enabled;
    StepKeepsInvariant(s, a);
    assert [a][1..] == [];
  }

  lemma TakeStep(s: State, i: nat) returns (t: State)
    requires Invariant(s) && s.sender.Choosing? && s.link == Up(None, None) && s.host == Waiting
    requires Enabled(s, TakeFrame(i))
    ensures Invariant(t) && Reaches(s, [TakeFrame(i)], t)
    ensures t == s.(slots := SetState(s, i, Sending), sender := SendingFrame(s.sender.through, i),
                    link := Up(Some(Data(FrameAt(s, i))), None), sent := s.sent + [s.slots[i].meta.sequence])
  {
    t := Next(s, TakeFrame(i));
    ReachesOne(s, TakeFrame(i));
  }

  lemma RouteSteps(s: State, f: Frame, folder: string) returns (t: State)
    requires Invariant(s) && s.host == Waiting && s.link == Up(Some(Data(f)), None) && Unused(s.disk, folder)
    ensures Invariant(t) && Reaches(s, [HostReceives, HostRoutes(folder)], t)
    ensures t == s.(host := Routed(f), link := Up(None, None), disk := Route(s.disk, KeyOf(f.meta), folder))
  {
    hide Ownership, Numbered, PoolFrames, NothingLost, AckOrder, BatchOrder;
    hide DiskSound, Conversation, Unused, Crc32.Crc, Route;
    var a := Next(s, HostReceives);
    ReachesOne(s, HostReceives);
    t := Next(a, HostRoutes(folder));
    ReachesOne(a, HostRoutes(folder));
    ReachesInOrder(s, [HostReceives], a, [HostRoutes(folder)], t);
    assert [HostReceives] + [HostRoutes(folder)] == [HostReceives, HostRoutes(folder)];
  }

  lemma RoutedHasFolder(s: State, f: Frame)
    requires Invariant(s) && s.host == Routed(f)
    ensures KeyOf(f.meta) in s.disk.index && !Conflicts(s.disk, f.meta, f.payload)
  {
    hide Ownership, PoolFrames, NothingLost, AckOrder, BatchOrder, Conflicts;
    NeverConflicts(s, f);
  }

  lemma WriteSteps(s: State, f: Frame) returns (t: State)
    requires Invariant(s) && s.host == Routed(f)
    ensures Invariant(t) && Reaches(s, [HostWritesAudio, HostWritesNotes], t)
    ensures t == s.(host := FrameSaved(f), disk := t.disk) && Stored(t.disk, f.meta, f.payload)
  {
    hide Ownership, Numbered, PoolFrames, NothingLost, AckOrder, BatchOrder, DiskSound, Conversation, Stored, Conflicts;
    RoutedHasFolder(s, f);
    var a := Next(s, HostWritesAudio);
    ReachesOne(s, HostWritesAudio);
    t := Next(a, HostWritesNotes);
    ReachesOne(a, HostWritesNotes);
    WrittenIsStored(a.disk, f);
    ReachesInOrder(s, [HostWritesAudio], a, [HostWritesNotes], t);
    assert [HostWritesAudio] + [HostWritesNotes] == [HostWritesAudio, HostWritesNotes];
  }

  lemma SaveSteps(s: State, f: Frame, folder: string) returns (t: State)
    requires Invariant(s) && s.host == Waiting && s.link == Up(Some(Data(f)), None) && Unused(s.disk, folder)
    ensures Invariant(t) && Reaches(s, [HostReceives, HostRoutes(folder), HostWritesAudio, HostWritesNotes], t)
    ensures t == s.(host := FrameSaved(f), link := Up(None, None), disk := t.disk) && Stored(t.disk, f.meta, f.payload)
  {
    hide Invariant, Enabled, Unused, Route, Stored;
    var a := RouteSteps(s, f, folder);
    t := WriteSteps(a, f);
    ReachesInOrder(s, [HostReceives, HostRoutes(folder)], a, [HostWritesAudio, HostWritesNotes], t);
    assert [HostReceives, HostRoutes(folder)] + [HostWritesAudio, HostWritesNotes]
        == [HostReceives, HostRoutes(folder), HostWritesAudio, HostWritesNotes];
  }

  lemma AcknowledgeSteps(s: State, i: nat) returns (t: State)
    requires Invariant(s) && s.link == Up(None, None) && s.sender.SendingFrame? && s.sender.slot == i
    requires s.host == FrameSaved(FrameAt(s, i))
    ensures Reaches(s, [HostAcknowledges, AckArrives], t)
    ensures t == s.(host := Waiting, slots := SetState(s, i, Free), sender := Choosing(s.sender.through),
                    acked := s.acked + [s.slots[i].meta.sequence])
  {
    hide Numbered, PoolFrames, NothingLost, AckOrder, BatchOrder, DiskSound, Crc32.Crc;
    var a := Next(s, HostAcknowledges);
    ReachesOne(s, HostAcknowledges);
    t := Next(a, AckArrives);
    ReachesOne(a, AckArrives);
    ReachesInOrder(s, [HostAcknowledges], a, [AckArrives], t);
    assert [HostAcknowledges] + [AckArrives] == [HostAcknowledges, AckArrives];
  }
}
