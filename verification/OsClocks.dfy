/** The OS clock of pkg/linuxptp-daemon/pkg/clock/baseclock.go: one object, shared by every registered clock. */
module OsClocks {
  import opened SyncStates

  class OsClock {
    var state: PTPState

    constructor ()
      ensures state == Freerun
    {
      state := Freerun;
    }

    method Reset()
      modifies this
      ensures state == Freerun
    {
      state := Freerun;
    }
  }
}
