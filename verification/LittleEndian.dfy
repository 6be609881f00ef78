/** Little-endian integers in byte sequences, read and written. */
module LittleEndian {
  import opened MachineIntegers

  /** Unsigned integer of a run of bytes, least significant first. */
  function Little(bytes: seq<uint8>): (n: nat) {
    if bytes == [] then 0 else bytes[0] as int + 0x100 * Little(bytes[1..])
  }

  function U16(d: seq<uint8>, at: nat): (n: nat)
    requires at + 2 <= |d|
  {
    Little(d[at..at + 2])
  }

  function U32(d: seq<uint8>, at: nat): (n: nat)
    requires at + 4 <= |d|
  {
    Little(d[at..at + 4])
  }

  /** `n` in `width` bytes, higher bits dropped. */
  function Put(n: nat, width: nat): (bytes: seq<uint8>)
    ensures |bytes| == width
  {
    if width == 0 then [] else [n % 0x100] + Put(n / 0x100, width - 1)
  }

  lemma {:induction false} LittleBound(bytes: seq<uint8>)
    ensures Little(bytes) < Pow2(8 * |bytes|)
  {
    if bytes != [] {
      LittleBound(bytes[1..]);
      Pow2Add(8, 8 * |bytes[1..]|);
      assert Pow2(8) == 0x100;
    }
  }

  lemma {:induction false} LittleOfPut(n: nat, width: nat)
    requires n < Pow2(8 * width)
    ensures Little(Put(n, width)) == n
  {
    if width > 0 {
      Pow2Add(8, 8 * (width - 1));
      assert Pow2(8) == 0x100;
      var rest := Put(n / 0x100, width - 1);
      assert Put(n, width)[1..] == rest;
      LittleOfPut(n / 0x100, width - 1);
    }
  }

  lemma Pow2Values()
    ensures Pow2(8) == 0x100 && Pow2(15) == 0x8000 && Pow2(16) == 0x1_0000
    ensures Pow2(23) == 0x80_0000 && Pow2(24) == 0x100_0000 && Pow2(31) == 0x8000_0000 && Pow2(32) == 0x1_0000_0000
  {
  }

  lemma SliceOfSlice<T>(d: seq<T>, from: nat, to: nat, a: nat, b: nat)
    requires from <= to <= |d| && a <= b <= to - from
    ensures d[from..to][a..b] == d[from + a..from + b]
  {
    forall i | 0 <= i < b - a ensures d[from..to][a..b][i] == d[from + a..from + b][i] {
    }
  }

  lemma SplitAt<T>(d: seq<T>, at: nat, next: nat)
    requires at <= next <= |d|
    ensures d[at..] == d[at..next] + d[next..]
  {
  }

  /** Reading a slice reads the sequence it came from. */
  lemma U32OfSlice(d: seq<uint8>, from: nat, to: nat, at: nat)
    requires from <= to <= |d| && at + 4 <= to - from
    ensures U32(d[from..to], at) == U32(d, from + at)
  {
    SliceOfSlice(d, from, to, at, at + 4);
  }

  lemma U16OfSlice(d: seq<uint8>, from: nat, to: nat, at: nat)
    requires from <= to <= |d| && at + 2 <= to - from
    ensures U16(d[from..to], at) == U16(d, from + at)
  {
    SliceOfSlice(d, from, to, at, at + 2);
  }
}
