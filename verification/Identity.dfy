/** The boot identity, written once, and the test identity that arms one experiment. */
module Identity {
  import opened MachineIntegers

  const WORDS := 4

  type Id = s: seq<uint32> | |s| == WORDS witness [0, 0, 0, 0]

  const ZERO: Id := [0, 0, 0, 0]

  class BoardIdentity {
    var bootId: Id
    var testId: Id
    var prepared: bool

    constructor ()
      ensures bootId == ZERO && testId == ZERO && !prepared
    {
      bootId, testId, prepared := ZERO, ZERO, false;
    }

    /** The first nonzero identity stays until reset; repeating it is harmless, any other is refused. */
    method SetBoot(id: Id) returns (ok: bool)
      modifies this
      ensures ok == (id != ZERO && (old(bootId) == ZERO || id == old(bootId)))
      ensures bootId == if ok then id else old(bootId)
      ensures testId == old(testId) && prepared == old(prepared)
    {
      if id == ZERO {
        return false;
      }
      if bootId != ZERO {
        return id == bootId;
      }
      bootId := id;
      return true;
    }

    /** Arms a test of this boot that differs from the one armed last. */
    method PrepareTest(boot: Id, test: Id) returns (ok: bool)
      modifies this
      ensures ok == (boot != ZERO && test != ZERO && boot == old(bootId) && test != old(testId))
      ensures bootId == old(bootId)
      ensures testId == (if ok then test else old(testId)) && prepared == (ok || old(prepared))
    {
      if boot == ZERO || test == ZERO || boot != bootId || test == testId {
        return false;
      }
      testId, prepared := test, true;
      return true;
    }

    /** A started experiment consumes the armed test; stopping the outputs disarms it. */
    method Disarm()
      modifies this
      ensures !prepared && bootId == old(bootId) && testId == old(testId)
    {
      prepared := false;
    }
  }
}
