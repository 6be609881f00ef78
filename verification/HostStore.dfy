/**
 The desktop's durable store of recordings: routes by (boot, test) identity, then one audio file and one
 description per capture, never altered once written.
 */
module HostStore {
  import opened MachineIntegers
  import opened FramePool
  import Bits
  import WavFormat

  datatype Key = Key(boot: seq<uint32>, test: seq<uint32>)

  /** A capture's place; its audio file beside the description is a WAV file or a raw one, told by the extension. */
  datatype Path = Path(folder: string, second: nat, sequence: nat)
  datatype AudioFile = AudioFile(path: Path, wav: bool)

  /** What survives a restart. */
  datatype Disk = Disk(index: map<Key, string>, audio: map<AudioFile, seq<uint8>>, notes: map<Path, Meta>)

  datatype SaveResult = Saved(path: Path) | MarkerNoted | Rejected | Failed

  function KeyOf(m: Meta): Key {
    Key(m.bootId, m.testId)
  }

  predicate IsIdentity(id: seq<uint32>) {
    |id| == 4 && id != [0, 0, 0, 0]
  }

  predicate Identified(m: Meta) {
    IsIdentity(m.bootId) && IsIdentity(m.testId)
  }

  function PathIn(folder: string, m: Meta): Path {
    Path(folder, m.triggerUs / 1000000, m.sequence)
  }

  function PathOf(d: Disk, m: Meta): Path
    requires KeyOf(m) in d.index
  {
    PathIn(d.index[KeyOf(m)], m)
  }

  /** Marked as a WAV file by its flags, or one by its signature. */
  predicate IsWav(m: Meta, payload: seq<uint8>) {
    m.flags / 0x100 % 2 == 1 || (|payload| >= 12 && payload[..4] == WavFormat.RIFF && payload[8..12] == WavFormat.WAVE)
  }

  function AudioIn(folder: string, m: Meta, payload: seq<uint8>): AudioFile {
    AudioFile(PathIn(folder, m), IsWav(m, payload))
  }

  function AudioOf(d: Disk, m: Meta, payload: seq<uint8>): AudioFile
    requires KeyOf(m) in d.index
  {
    AudioIn(d.index[KeyOf(m)], m, payload)
  }

  /** A route is created at most once for an identity. */
  function Route(d: Disk, key: Key, newFolder: string): Disk {
    if key in d.index then d else d.(index := d.index[key := newFolder])
  }

  /** A file already there with different content, under either extension. */
  predicate Conflicts(d: Disk, m: Meta, payload: seq<uint8>)
    requires KeyOf(m) in d.index
  {
    var p, a := PathOf(d, m), AudioOf(d, m, payload);
    var alternate := a.(wav := !a.wav);
    || (alternate in d.audio && d.audio[alternate] != payload)
    || (a in d.audio && d.audio[a] != payload)
    || (p in d.notes && d.notes[p] != m)
  }

  /** A capture's files carry its number and the second of its trigger; `.wav` needs the flag or the signature. */
  lemma FilesAreNamed(folder: string, m: Meta, payload: seq<uint8>)
    ensures var a := AudioIn(folder, m, payload);
      && a.path == PathIn(folder, m) && a.path.folder == folder && a.path.sequence == m.sequence
      && 1000000 * a.path.second <= m.triggerUs < 1000000 * a.path.second + 1000000
      && (a.wav <==> Bits.Bit(m.flags, 8) == 1
                     || (|payload| >= 12 && payload[0..4] == [82, 73, 70, 70] && payload[8..12] == [87, 65, 86, 69]))
  {
    Bits.ShrBit(m.flags, 8, 0);
    Bits.ShrIsDivision(m.flags, 8);
  }

  /** Captures share a route exactly when boot and test are the same; neither may be missing or zero. */
  lemma RoutesTellApart(m: Meta, n: Meta)
    ensures KeyOf(m) == KeyOf(n) <==> m.bootId == n.bootId && m.testId == n.testId
    ensures Identified(m) <==>
      |m.bootId| == |m.testId| == 4 && m.bootId != [0, 0, 0, 0] && m.testId != [0, 0, 0, 0]
  {
  }

  /** A conflict is a file of the same capture, under any extension, that holds something else. */
  lemma ConflictIsDifference(d: Disk, m: Meta, payload: seq<uint8>)
    requires KeyOf(m) in d.index
    ensures Conflicts(d, m, payload) <==>
      || (exists a :: a in d.audio && a.path == PathOf(d, m) && d.audio[a] != payload)
      || (PathOf(d, m) in d.notes && d.notes[PathOf(d, m)] != m)
  {
    hide IsWav;
    var a := AudioOf(d, m, payload);
    forall b | b in d.audio && b.path == PathOf(d, m) ensures b == a || b == a.(wav := !a.wav) {
    }
  }

  function WriteAudio(d: Disk, m: Meta, payload: seq<uint8>): Disk
    requires KeyOf(m) in d.index
  {
    d.(audio := d.audio[AudioOf(d, m, payload) := payload])
  }

  function WriteNotes(d: Disk, m: Meta): Disk
    requires KeyOf(m) in d.index
  {
    d.(notes := d.notes[PathOf(d, m) := m])
  }

  /** Both files of a capture are where its identity routes it. */
  predicate Stored(d: Disk, m: Meta, payload: seq<uint8>) {
    && KeyOf(m) in d.index
    && var p, a := PathOf(d, m), AudioOf(d, m, payload);
       a in d.audio && d.audio[a] == payload && p in d.notes && d.notes[p] == m
  }

  /** Later states keep every route, every recording and every description. */
  ghost predicate Extends(later: Disk, earlier: Disk) {
    && (forall k :: k in earlier.index ==> k in later.index && later.index[k] == earlier.index[k])
    && (forall p :: p in earlier.audio ==> p in later.audio && later.audio[p] == earlier.audio[p])
    && (forall p :: p in earlier.notes ==> p in later.notes && later.notes[p] == earlier.notes[p])
  }

  lemma StoredStays(later: Disk, earlier: Disk, m: Meta, payload: seq<uint8>)
    requires Extends(later, earlier) && Stored(earlier, m, payload)
    ensures Stored(later, m, payload) && PathOf(later, m) == PathOf(earlier, m)
  {
  }

  class TestStore {
    /** Routes held in memory, rebuilt from the index after a restart. */
    var runs: map<Key, string>
    var disk: Disk
    var batchUs: nat

    ghost predicate Valid()
      reads this
    {
      runs == disk.index
    }

    /** Opening the store reads the durable index; nothing else is remembered. */
    constructor (disk: Disk)
      ensures Valid() && this.disk == disk
    {
      this.disk := disk;
      runs := disk.index;
      batchUs := 0;
    }

    /**
     Saves one record. `sound` says the payload passed the WAV check; the other flags say which durable
     writes succeed. Nothing already stored ever changes, whatever is received.
     */
    method Save(m: Meta, payload: seq<uint8>, sound: bool, newFolder: string, indexed: bool, audioWritten: bool,
                notesWritten: bool)
        returns (r: SaveResult)
      requires Valid()
      modifies this
      ensures Valid()
      ensures Extends(disk, old(disk))
      ensures payload == [] <==> r == MarkerNoted
      ensures r == MarkerNoted ==> batchUs == m.triggerUs
      ensures r.Saved? ==> Stored(disk, m, payload) && r.path == PathOf(disk, m)
      ensures r.Saved? ==> forall a :: a in disk.audio && a.path == r.path ==> disk.audio[a] == payload
      ensures r.Saved? ==> disk == WriteNotes(WriteAudio(Route(old(disk), KeyOf(m), newFolder), m, payload), m)
      ensures r == Rejected <==>
        && payload != []
        && (!sound || !Identified(m)
            || ((KeyOf(m) in old(disk).index || indexed)
                && Conflicts(Route(old(disk), KeyOf(m), newFolder), m, payload)))
      ensures Stored(old(disk), m, payload) && payload != [] && Identified(m)
              && sound && audioWritten && notesWritten ==>
        && r == (if Conflicts(old(disk), m, payload) then Rejected else Saved(PathOf(old(disk), m)))
        && disk == old(disk)
    {
      hide IsWav;
      if payload == [] {
        batchUs := m.triggerUs;
        return MarkerNoted;
      }
      if !sound || !Identified(m) {
        return Rejected;
      }
      var key := KeyOf(m);
      if key !in runs {
        runs := runs[key := newFolder];
        if !indexed {
          runs := runs - {key};
          return Failed;
        }
        disk := disk.(index := runs);
      }
      ConflictIsDifference(disk, m, payload);
      if Conflicts(disk, m, payload) {
        return Rejected;
      }
      if !audioWritten {
        return Failed;
      }
      disk := WriteAudio(disk, m, payload);
      if !notesWritten {
        return Failed;
      }
      disk := WriteNotes(disk, m);
      return Saved(PathOf(disk, m));
    }

    /** Reserves a route for a new test before the board may start it. */
    method BeginTest(key: Key, folder: string, indexed: bool) returns (ok: bool)
      requires Valid()
      modifies this
      ensures Valid() && Extends(disk, old(disk))
      ensures ok == (IsIdentity(key.boot) && IsIdentity(key.test) && key !in old(disk).index && indexed)
      ensures disk == if ok then Route(old(disk), key, folder) else old(disk)
    {
      if !IsIdentity(key.boot) || !IsIdentity(key.test) || key in runs {
        return false;
      }
      runs := runs[key := folder];
      if !indexed {
        runs := runs - {key};
        return false;
      }
      disk := disk.(index := runs);
      return true;
    }
  }
}
