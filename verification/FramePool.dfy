/** The pool of DDR capture slots shared by the capture task and the sender. */
module FramePool {
  import opened MachineIntegers

  const POOL_COUNT := 32

  /** The recording metadata that crosses the wire. */
  datatype Meta = Meta(
    sequence: uint32, flags: uint32, divisor: uint32, steps: int32, position: int64,
    triggerUs: uint64, completionUs: uint64, txDurationUs: uint32,
    bootId: seq<uint32>, testId: seq<uint32>)

  datatype SlotState = Free | Filling | Ready | Sending
  datatype Slot = Slot(state: SlotState, meta: Meta)

  /** `i` is the lowest slot that is free, or -1 when none is. */
  ghost predicate IsFirstFree(slots: seq<Slot>, i: int) {
    && -1 <= i < |slots|
    && (i >= 0 ==> slots[i].state == Free)
    && forall k :: 0 <= k < (if i >= 0 then i else |slots|) ==> slots[k].state != Free
  }

  predicate Eligible(s: Slot, through: nat) {
    s.state == Ready && s.meta.sequence <= through
  }

  /** `i` is the eligible slot with the smallest sequence, the first among equals, or -1 when none is. */
  ghost predicate IsOldest(slots: seq<Slot>, through: nat, i: int) {
    && -1 <= i < |slots|
    && (i >= 0 ==> Eligible(slots[i], through))
    && forall k :: 0 <= k < |slots| && Eligible(slots[k], through) ==>
         && i >= 0
         && slots[i].meta.sequence <= slots[k].meta.sequence
         && (slots[i].meta.sequence == slots[k].meta.sequence ==> i <= k)
  }

  /** `n` is the largest sequence ready to be sent, 0 when there is none. */
  ghost predicate IsLatest(slots: seq<Slot>, n: nat) {
    && (forall k :: 0 <= k < |slots| && slots[k].state == Ready ==> slots[k].meta.sequence <= n)
    && (n == 0 || exists k :: 0 <= k < |slots| && slots[k].state == Ready && slots[k].meta.sequence == n)
  }

  class Pool {
    const slots: array<Slot>

    ghost predicate Valid() {
      slots.Length == POOL_COUNT
    }

    /** Reserves the lowest free slot for capture. */
    method Acquire() returns (i: int)
      requires Valid()
      modifies slots
      ensures IsFirstFree(old(slots[..]), i)
      ensures slots[..] == if i < 0 then old(slots[..]) else old(slots[..])[i := old(slots[i]).(state := Filling)]
    {
      i := 0;
      while i < POOL_COUNT
        invariant 0 <= i <= POOL_COUNT
        invariant forall k :: 0 <= k < i ==> slots[k].state != Free
      {
        if slots[i].state == Free {
          slots[i] := slots[i].(state := Filling);
          return;
        }
        i := i + 1;
      }
      i := -1;
    }

    /** Hands a filled slot to the sender; refused for any other slot. */
    method Publish(i: nat, meta: Meta) returns (ok: bool)
      requires Valid()
      modifies slots
      ensures ok == (i < POOL_COUNT && old(slots[..])[i].state == Filling)
      ensures slots[..] == if ok then old(slots[..])[i := Slot(Ready, meta)] else old(slots[..])
    {
      if i >= POOL_COUNT || slots[i].state != Filling {
        return false;
      }
      slots[i] := Slot(Ready, meta);
      return true;
    }

    /** Takes the oldest ready frame whose sequence does not exceed `through`. */
    method Take(through: uint32) returns (chosen: int)
      requires Valid()
      modifies slots
      ensures IsOldest(old(slots[..]), through, chosen)
      ensures slots[..] == if chosen < 0 then old(slots[..])
                           else old(slots[..])[chosen := old(slots[chosen]).(state := Sending)]
    {
      chosen := -1;
      var oldest: uint32 := UINT32_MAX;
      var i := 0;
      while i < POOL_COUNT
        invariant 0 <= i <= POOL_COUNT
        invariant -1 <= chosen < i
        invariant chosen >= 0 ==> Eligible(slots[chosen], through) && oldest == slots[chosen].meta.sequence
        invariant forall k :: 0 <= k < i && Eligible(slots[k], through) ==>
          && chosen >= 0
          && oldest <= slots[k].meta.sequence
          && (oldest == slots[k].meta.sequence ==> chosen <= k)
      {
        if Eligible(slots[i], through) && (chosen < 0 || slots[i].meta.sequence < oldest) {
          chosen := i;
          oldest := slots[i].meta.sequence;
        }
        i := i + 1;
      }
      if chosen >= 0 {
        slots[chosen] := slots[chosen].(state := Sending);
      }
    }

    /** Ends a transfer: an acknowledged slot is free, any other stays ready. */
    method Finish(i: nat, acknowledged: bool) returns (ok: bool)
      requires Valid()
      modifies slots
      ensures ok == (i < POOL_COUNT && old(slots[..])[i].state == Sending)
      ensures slots[..] ==
              if ok then old(slots[..])[i := old(slots[..])[i].(state := if acknowledged then Free else Ready)]
                           else old(slots[..])
    {
      if i >= POOL_COUNT || slots[i].state != Sending {
        return false;
      }
      slots[i] := slots[i].(state := if acknowledged then Free else Ready);
      return true;
    }

    method Latest() returns (n: uint32)
      requires Valid()
      ensures IsLatest(slots[..], n)
    {
      n := 0;
      var i := 0;
      while i < POOL_COUNT
        invariant 0 <= i <= POOL_COUNT
        invariant forall k :: 0 <= k < i && slots[k].state == Ready ==> slots[k].meta.sequence <= n
        invariant n == 0 || exists k :: 0 <= k < i && slots[k].state == Ready && slots[k].meta.sequence == n
      {
        if slots[i].state == Ready && slots[i].meta.sequence > n {
          n := slots[i].meta.sequence;
        }
        i := i + 1;
      }
    }
  }

  /** The oldest eligible slot is unique, so a batch has no choice of order. */
  lemma OldestIsUnique(slots: seq<Slot>, through: nat, i: int, j: int)
    requires IsOldest(slots, through, i) && IsOldest(slots, through, j)
    ensures i == j
  {
    if i >= 0 && j >= 0 {
      assert Eligible(slots[i], through) && Eligible(slots[j], through);
    }
  }
}
