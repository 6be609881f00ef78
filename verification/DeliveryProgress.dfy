/** Nothing in the delivery protocol gets stuck: from any state all that is published can still be stored. */
module DeliveryProgress {
  import opened MachineIntegers
  import opened Options
  import opened FramePool
  import opened HostStore
  import opened FiniteSets
  import opened CaptureDelivery

  // Choices that always exist

  lemma {:induction false} OldestExists(slots: seq<Slot>, through: nat, n: nat) returns (i: int)
    requires n <= |slots|
    ensures -1 <= i < n && IsOldest(slots[..n], through, i)
    decreases n
  {
    if n == 0 {
      i := -1;
    } else {
      i := OldestExists(slots, through, n - 1);
      assert slots[..n - 1] == slots[..n][..n - 1];
      var last := slots[n - 1];
      if Eligible(last, through) && (i < 0 || last.meta.sequence < slots[i].meta.sequence) {
        i := n - 1;
      }
    }
  }

  lemma {:induction false} LatestExists(slots: seq<Slot>, k: nat) returns (n: nat)
    requires k <= |slots|
    ensures IsLatest(slots[..k], n)
    decreases k
  {
    if k == 0 {
      n := 0;
    } else {
      n := LatestExists(slots, k - 1);
      assert slots[..k - 1] == slots[..k][..k - 1];
      var last := slots[k - 1];
      if last.state == Ready && last.meta.sequence > n {
        n := last.meta.sequence;
        assert slots[..k][k - 1] == last;
      } else if n != 0 {
        var j :| 0 <= j < |slots[..k - 1]| && slots[..k - 1][j].state == Ready && slots[..k - 1][j].meta.sequence == n;
        assert slots[..k][j].state == Ready && slots[..k][j].meta.sequence == n;
      }
    }
  }

  /** A name longer than every name in use. */
  lemma {:induction false} LongerThanAll(names: set<string>) returns (n: nat)
    ensures forall x :: x in names ==> |x| < n
    decreases |names|
  {
    if names == {} {
      n := 0;
    } else {
      var x :| x in names;
      var m := LongerThanAll(names - {x});
      n := if m > |x| then m else |x| + 1;
    }
  }

  function Name(n: nat): (s: string)
    ensures |s| == n
  {
    seq(n, _ => 'a')
  }

  lemma UnusedFolder(d: Disk) returns (folder: string)
    ensures Unused(d, folder)
  {
    var used := d.index.Values + (set a | a in d.audio :: a.path.folder) + (set p | p in d.notes :: p.folder);
    var n := LongerThanAll(used);
    folder := Name(n);
    assert forall a :: a in d.audio ==> a.path.folder in used;
    assert forall p :: p in d.notes ==> p.folder in used;
  }

  /** A run that neither captures nor publishes: steps of sender, connection and host. */
  predicate Delivers(run: seq<Action>) {
    forall i :: 0 <= i < |run| ==>
      && !run[i].AcquireSlot? && !run[i].CancelCapture? && !run[i].TriggerCapture? && !run[i].PublishCapture?
      && !run[i].DiscardCapture?
  }

  /** From `s` such a run leads to `t`. */
  ghost predicate Leads(s: State, run: seq<Action>, t: State)
    requires Invariant(s)
  {
    Reaches(s, run, t) && Delivers(run) && Invariant(t) && t.published == s.published
  }

  lemma LeadsOn(s: State, a: seq<Action>, t: State, b: seq<Action>, u: State)
    requires Invariant(s) && Leads(s, a, t) && Leads(t, b, u)
    ensures Leads(s, a + b, u)
  {
    hide Invariant, Reaches;
    ReachesInOrder(s, a, t, b, u);
  }

  /** One step of sender, connection or host. */
  lemma LeadsOne(s: State, a: Action)
    requires Invariant(s) && Enabled(s, a) && Delivers([a])
    ensures Leads(s, [a], Next(s, a))
  {
    hide Invariant, Enabled;
    ReachesOne(s, a);
    SamePublished(s, a);
  }

  lemma SamePublished(s: State, a: Action)
    requires Invariant(s) && Enabled(s, a) && Delivers([a])
    ensures Next(s, a).published == s.published
  {
    hide Ownership, Numbered, PoolFrames, NothingLost, AckOrder, BatchOrder, Conversation, DiskSound;
    assert Delivers([a]) ==> ![a][0].PublishCapture?;
  }

  // Starting over

  /** Whatever is under way, host, connection and sender can be brought to rest. */
  lemma Rest(s: State) returns (run: seq<Action>, t: State)
    requires Invariant(s)
    ensures Leads(s, run, t) && t.sender == Offline && t.link == Cut && t.host == Waiting
  {
    hide Invariant, Leads;
    StopsAtOnce(s);
    LeadsOne(s, HostStops);
    var a := Next(s, HostStops);
    assert a.link == Cut && a.host == Waiting;
    LeadsSound(s, [HostStops], a);
    var rest;
    rest, t := SenderRests(a);
    run := [HostStops] + rest;
    LeadsOn(s, [HostStops], a, rest, t);
  }

  lemma StopsAtOnce(s: State)
    requires Invariant(s)
    ensures Enabled(s, HostStops) && Next(s, HostStops) == s.(host := Waiting, link := Cut)
  {
    hide Ownership, Numbered, PoolFrames, NothingLost, AckOrder, BatchOrder, Conversation, DiskSound;
  }

  lemma LeadsSound(s: State, run: seq<Action>, t: State)
    requires Invariant(s) && Leads(s, run, t)
    ensures Invariant(t) && t.published == s.published
  {
    hide Invariant, Reaches;
  }

  lemma NothingLeads(s: State)
    requires Invariant(s)
    ensures Leads(s, [], s)
  {
    hide Invariant;
  }

  lemma SenderRests(s: State) returns (run: seq<Action>, t: State)
    requires Invariant(s) && s.link == Cut && s.host == Waiting
    ensures Leads(s, run, t) && t.sender == Offline && t.link == Cut && t.host == Waiting
  {
    hide Invariant, Leads;
    if s.sender == Offline {
      NothingLeads(s);
      run, t := [], s;
    } else if s.sender.Choosing? {
      var a, first := LeaveChoice(s);
      LeadsSound(s, [first], a);
      var fails := GivesUp(a);
      LeadsOn(s, [first], a, [SendFails], fails);
      run, t := [first] + [SendFails], fails;
    } else {
      t := GivesUp(s);
      run := [SendFails];
    }
  }

  /** A sender choosing its next frame has one to take or none left. */
  lemma LeaveChoice(s: State) returns (t: State, a: Action)
    requires Invariant(s) && s.sender.Choosing? && s.link == Cut && s.host == Waiting
    ensures Leads(s, [a], t) && t.sender != Offline && !t.sender.Choosing? && t.link == Cut && t.host == Waiting
  {
    hide Numbered, PoolFrames, NothingLost, AckOrder, BatchOrder, Conversation, DiskSound, Leads;
    var i := OldestExists(s.slots, s.sender.through, |s.slots|);
    assert s.slots[..|s.slots|] == s.slots;
    a := if i < 0 then FinishBatch else TakeFrame(i);
    assert Enabled(s, a);
    LeadsOne(s, a);
    t := Next(s, a);
  }

  lemma GivesUp(s: State) returns (t: State)
    requires Invariant(s) && s.sender != Offline && !s.sender.Choosing? && s.host == Waiting
    ensures Leads(s, [SendFails], t) && t.sender == Offline && t.link == Cut && t.host == Waiting
  {
    hide Numbered, PoolFrames, NothingLost, AckOrder, BatchOrder, Conversation, DiskSound, Leads;
    LeadsOne(s, SendFails);
    t := Next(s, SendFails);
  }

  // A batch of everything

  /** From rest a connection opens a batch in which every ready frame is eligible. */
  lemma OpenBatch(s: State) returns (run: seq<Action>, t: State)
    requires Invariant(s) && s.sender == Offline && s.link == Cut && s.host == Waiting
    ensures Leads(s, run, t) && t.sender.Choosing? && t.link == Up(None, None) && t.host == Waiting
    ensures t.slots == s.slots && IsLatest(t.slots, t.sender.through)
  {
    hide Ownership, Numbered, PoolFrames, NothingLost, AckOrder, BatchOrder, DiskSound, Leads, IsLatest;
    hide Conversation;
    var n := LatestExists(s.slots, |s.slots|);
    assert s.slots[..|s.slots|] == s.slots;
    LeadsOne(s, Connect);
    var a := Next(s, Connect);
    LeadsSound(s, [Connect], a);
    LeadsOne(a, StartBatch(n));
    var b := Next(a, StartBatch(n));
    LeadsOn(s, [Connect], a, [StartBatch(n)], b);
    LeadsSound(a, [StartBatch(n)], b);
    var c;
    c := MarkerPasses(b);
    run, t := [Connect] + [StartBatch(n)] + [HostReceives, HostAcknowledges, AckArrives], c;
    LeadsOn(s, [Connect] + [StartBatch(n)], b, [HostReceives, HostAcknowledges, AckArrives], c);
  }

  lemma MarkerPasses(s: State) returns (t: State)
    requires Invariant(s) && s.sender.SendingMarker? && s.link == Up(Some(Marker), None) && s.host == Waiting
    ensures Leads(s, [HostReceives, HostAcknowledges, AckArrives], t)
    ensures t == s.(sender := Choosing(s.sender.through), link := Up(None, None))
  {
    hide Ownership, Numbered, PoolFrames, NothingLost, AckOrder, BatchOrder, DiskSound, Leads, Conversation;
    LeadsOne(s, HostReceives);
    var a := Next(s, HostReceives);
    LeadsSound(s, [HostReceives], a);
    LeadsOne(a, HostAcknowledges);
    var b := Next(a, HostAcknowledges);
    LeadsOn(s, [HostReceives], a, [HostAcknowledges], b);
    LeadsSound(a, [HostAcknowledges], b);
    LeadsOne(b, AckArrives);
    t := Next(b, AckArrives);
    LeadsOn(s, [HostReceives] + [HostAcknowledges], b, [AckArrives], t);
    assert [HostReceives] + [HostAcknowledges] + [AckArrives] == [HostReceives, HostAcknowledges, AckArrives];
  }

  /** Every ready frame belongs to the batch. */
  predicate AllDue(slots: seq<Slot>, through: nat) {
    forall i :: 0 <= i < |slots| && slots[i].state == Ready ==> slots[i].meta.sequence <= through
  }

  /** Frame by frame the batch is emptied. */
  lemma {:induction false} EmptyBatch(s: State, left: nat) returns (run: seq<Action>, t: State)
    requires Invariant(s) && s.sender.Choosing? && s.link == Up(None, None) && s.host == Waiting
    requires left == |StillEligible(s)|
    ensures Leads(s, run, t) && t.sender == s.sender && IsOldest(t.slots, t.sender.through, -1)
    ensures |t.slots| == |s.slots| && (AllDue(s.slots, s.sender.through) ==> AllDue(t.slots, t.sender.through))
    decreases left
  {
    hide Invariant, Leads, Unused;
    ShapeHolds(s);
    var i := OldestExists(s.slots, s.sender.through, |s.slots|);
    assert s.slots[..|s.slots|] == s.slots;
    if i < 0 {
      NothingLeads(s);
      run, t := [], s;
    } else {
      var folder := UnusedFolder(s.disk);
      assert Enabled(s, TakeFrame(i));
      var steps := [TakeFrame(i), HostReceives, HostRoutes(folder), HostWritesAudio, HostWritesNotes, HostAcknowledges,
                    AckArrives];
      var m := NextFrameIsDelivered(s, i, folder);
      DeliveryLeads(s, steps, m);
      OneLess(s, m, i);
      var rest;
      rest, t := EmptyBatch(m, |StillEligible(m)|);
      run := steps + rest;
      LeadsOn(s, steps, m, rest, t);
    }
  }

  lemma DeliveryLeads(s: State, steps: seq<Action>, m: State)
    requires Invariant(s) && Reaches(s, steps, m) && m.published == s.published && Delivers(steps)
    ensures Leads(s, steps, m) && Invariant(m)
  {
    hide Invariant, Reaches;
    RunKeepsInvariant(s, steps, m);
  }

  lemma OneLess(s: State, m: State, i: nat)
    requires s.sender.Choosing? && m.sender == s.sender && i < |s.slots| == |s.payloads|
    requires m.slots == SetState(s, i, Free) && Eligible(s.slots[i], s.sender.through)
    ensures |StillEligible(m)| < |StillEligible(s)|
    ensures AllDue(s.slots, s.sender.through) ==> AllDue(m.slots, m.sender.through)
  {
    assert i in StillEligible(s) && i !in StillEligible(m);
    SmallerSubset(StillEligible(m), StillEligible(s), i);
  }

  /**
   From any state, however interrupted, sender, connection and host can go on so that every published capture ends up
   durably stored and no slot holds one any more.
   */
  lemma EverythingCanBeStored(s: State) returns (run: seq<Action>, t: State)
    requires Invariant(s)
    ensures Reaches(s, run, t) && Delivers(run) && Invariant(t) && t.published == s.published
    ensures forall i :: 0 <= i < POOL_COUNT ==> !HoldsFrame(t, i)
    ensures forall f :: f in s.published ==> Stored(t.disk, f.meta, f.payload)
  {
    hide Invariant, Leads, Unused;
    var first, a := Rest(s);
    LeadsSound(s, first, a);
    var open, b := OpenBatch(a);
    LeadsSound(a, open, b);
    var rest;
    rest, t := EmptyBatch(b, |StillEligible(b)|);
    LeadsSound(b, rest, t);
    LeadsOn(s, first, a, open, b);
    LeadsOn(s, first + open, b, rest, t);
    run := first + open + rest;
    assert Leads(s, run, t);
    LeadsParts(s, run, t);
    EmptyPool(t);
  }

  lemma LeadsParts(s: State, run: seq<Action>, t: State)
    requires Invariant(s) && Leads(s, run, t)
    ensures Reaches(s, run, t) && Delivers(run)
  {
    hide Invariant, Reaches;
  }

  lemma EmptyPool(t: State)
    requires Invariant(t) && t.sender.Choosing? && IsOldest(t.slots, t.sender.through, -1)
    requires AllDue(t.slots, t.sender.through)
    ensures Shape(t) && forall i :: 0 <= i < POOL_COUNT ==> !HoldsFrame(t, i)
    ensures forall f :: f in t.published ==> Stored(t.disk, f.meta, f.payload)
  {
    hide Numbered, PoolFrames, AckOrder, BatchOrder, Conversation, DiskSound, Stored;
    forall i | 0 <= i < POOL_COUNT ensures !HoldsFrame(t, i) {
      assert Eligible(t.slots[i], t.sender.through) <==> t.slots[i].state == Ready;
    }
  }
}
