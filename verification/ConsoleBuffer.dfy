/** The board's console history: a ring of the latest bytes, read by cursor, complete lines only. */
module ConsoleBuffer {
  import opened MachineIntegers

  const BUFFER_BYTES := 65536
  const NEWLINE := 10

  /** The number of bytes up to and including the last newline. */
  function CompleteBytes(log: seq<uint8>): (n: nat)
    ensures n <= |log| && (n == 0 || log[n - 1] == NEWLINE)
    ensures forall k :: n <= k < |log| ==> log[k] != NEWLINE
  {
    if log == [] then 0
    else if log[|log| - 1] == NEWLINE then |log|
    else CompleteBytes(log[..|log| - 1])
  }

  function Oldest(log: seq<uint8>): nat {
    if |log| > BUFFER_BYTES then |log| - BUFFER_BYTES else 0
  }

  /** Either a gap up to the oldest byte still held, or text of complete lines from the cursor on. */
  datatype Reading = Lost(bytes: nat) | Read(text: seq<uint8>)

  function ReadFrom(log: seq<uint8>, cursor: nat, through: nat, capacity: nat): Reading
    requires cursor <= |log|
  {
    if cursor < Oldest(log) then Lost(Oldest(log) - cursor)
    else
      var end := Min(through, CompleteBytes(log));
      if cursor >= end then Read([]) else Read(log[cursor..Min(end, cursor + capacity)])
  }

  /** A gap is exactly what was overwritten: everything before it is gone, everything after it is held. */
  lemma GapIsWhatWasOverwritten(log: seq<uint8>, cursor: nat, through: nat, capacity: nat)
    requires cursor <= |log|
    ensures var r := ReadFrom(log, cursor, through, capacity);
      r.Lost? ==> r.bytes > 0 && cursor + r.bytes + BUFFER_BYTES == |log|
    ensures ReadFrom(log, cursor, through, capacity).Read? <==> |log| - cursor <= BUFFER_BYTES
  {
  }

  class Ring {
    const data: array<uint8>
    var written: nat
    var complete: nat

    /** Everything ever written. */
    ghost var log: seq<uint8>

    /** Byte `i` of the log is where the ring keeps it, as long as it has not been overwritten. */
    ghost predicate Valid()
      reads this, data
    {
      && data.Length == BUFFER_BYTES
      && written == |log| && complete == CompleteBytes(log)
      && forall i :: Oldest(log) <= i < |log| ==> data[i % BUFFER_BYTES] == log[i]
    }

    constructor ()
      ensures Valid() && log == [] && fresh(data)
    {
      data := new uint8[BUFFER_BYTES];
      written, complete, log := 0, 0, [];
    }

    method Put(value: uint8)
      requires Valid()
      modifies this, data
      ensures Valid() && log == old(log) + [value]
    {
      ghost var before := data[..];
      data[written % BUFFER_BYTES] := value;
      log := log + [value];
      forall i | Oldest(log) <= i < |log| - 1 ensures data[i % BUFFER_BYTES] == log[i] {
        DifferentCells(i, written);
        assert before[i % BUFFER_BYTES] == log[i];
      }
      assert log[..|log| - 1] == old(log);
      written := written + 1;
      if value == NEWLINE {
        complete := written;
      }
    }

    /** Bytes less than one buffer apart are kept in different cells. */
    static lemma DifferentCells(i: nat, j: nat)
      requires i < j < i + BUFFER_BYTES
      ensures i % BUFFER_BYTES != j % BUFFER_BYTES
    {
    }

    /** Copies text to `out` from index `at` on; a gap is reported before any more text. */
    method ReadText(cursor: nat, through: nat, out: array<uint8>, at: nat, capacity: nat)
        returns (count: nat, next: nat, lost: nat)
      requires Valid() && cursor <= |log| && at + capacity <= out.Length && out != data
      modifies out
      ensures Valid()
      ensures match ReadFrom(log, cursor, through, capacity)
              case Lost(bytes) => lost == bytes && count == 0 && next == cursor + bytes
              case Read(text) =>
                lost == 0 && count == |text| <= capacity && next == cursor + count && out[at..at + count] == text
    {
      hide CompleteBytes;
      var oldest := if written > BUFFER_BYTES then written - BUFFER_BYTES else 0;
      if cursor < oldest {
        return 0, oldest, oldest - cursor;
      }
      var end := if through < complete then through else complete;
      if cursor >= end {
        return 0, cursor, 0;
      }
      count := if end - cursor < capacity then end - cursor else capacity;
      CopyText(cursor, count, out, at);
      return count, cursor + count, 0;
    }

    method CopyText(cursor: nat, count: nat, out: array<uint8>, at: nat)
      requires Valid() && Oldest(log) <= cursor && cursor + count <= |log| && at + count <= out.Length && out != data
      modifies out
      ensures Valid() && out[at..at + count] == log[cursor..cursor + count]
    {
      hide CompleteBytes;
      var i := 0;
      while i < count
        invariant 0 <= i <= count
        invariant out[at..at + i] == log[cursor..cursor + i]
      {
        ghost var before := out[at..at + i];
        out[at + i] := data[(cursor + i) % BUFFER_BYTES];
        assert data[(cursor + i) % BUFFER_BYTES] == log[cursor + i];
        assert out[at..at + i + 1] == before + [log[cursor + i]];
        i := i + 1;
      }
    }
  }
}
