/** The table of keys that handlers currently hold (pkg/vcloud/utils.go). */
module VolumeLockTable {

  class VolumeLocks {
    var locks: map<string, bool>

    constructor ()
      ensures locks == map[]
    {
      locks := map[];
    }

    /** Takes the key unless some handler holds it. */
    method TryAcquire(volumeID: string) returns (acquired: bool)
      modifies this
      ensures acquired <==> volumeID !in old(locks)
      ensures locks.Keys == old(locks).Keys + {volumeID}
      ensures !acquired ==> locks == old(locks)
    {
      if volumeID in locks {
        return false;
      }
      locks := locks[volumeID := true];
      return true;
    }

    /** Gives the key up, held or not, and touches no other. */
    method Release(volumeID: string)
      modifies this
      ensures locks == old(locks) - {volumeID}
    {
      locks := locks - {volumeID};
    }
  }
}
