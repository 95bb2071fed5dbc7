/** The process table entry of phase 4: one node, shared by the disk queues and the sleep heap. */
module ProcTable {
  import opened CTypes

  const MAXPROC := 50

  datatype Operation = Read | Write | Tracks

  class Proc {
    const slot: nat              // index in the process table
    var wakeTime: int
    var diskTrack: int
    var diskFirstSec: int
    var diskSectors: int
    var opr: Operation           // disk_request.opr
    var buffer: array<byte>      // disk_request.reg2 points into this buffer ...
    var offset: nat              // ... at this offset
    var prevDisk: Proc?
    var nextDisk: Proc?

    constructor (slot: nat)
      ensures this.slot == slot && wakeTime == -1 && diskTrack == -1
      ensures prevDisk == null && nextDisk == null
      ensures fresh(buffer)
    {
      this.slot := slot;
      wakeTime, diskTrack, diskFirstSec, diskSectors := -1, -1, 0, 0;
      opr, buffer, offset := Read, new byte[0], 0;
      prevDisk, nextDisk := null, null;
    }
  }
}
