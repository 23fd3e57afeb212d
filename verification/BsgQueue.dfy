/**
 The command queue of a bsg device (linux-2.6.24.3/block/bsg.c): what each section under the
 device lock does to the counters and the two lists, as functions on a value, and the device itself,
 whose methods are those sections.
 */
module BsgQueue {
  import opened Seqs

  /** Commands are numbered in the order in which their slots were reserved. */
  type CmdId = nat

  const DEFAULT_MAX := 64

  datatype Queue = Queue(queued: int, doneCmds: int, maxQueue: int, busy: seq<CmdId>, done: seq<CmdId>, block: bool)

  function Fresh(block: bool): Queue {
    Queue(0, 0, DEFAULT_MAX, [], [], block)
  }

  // ----- the sections under the lock -----

  function Counted(q: Queue): Queue { q.(queued := q.queued + 1) }

  function Uncounted(q: Queue): Queue { q.(queued := q.queued - 1) }

  function Listed(q: Queue, id: CmdId): Queue { q.(busy := q.busy + [id]) }

  function Moved(q: Queue, id: CmdId): Queue {
    q.(busy := Without(q.busy, id), done := q.done + [id], doneCmds := q.doneCmds + 1)
  }

  function Taken(q: Queue): Queue
    requires q.done != []
  {
    q.(done := q.done[1..], doneCmds := q.doneCmds - 1)
  }

  datatype Error = EINVAL | ENOMEM | ENODATA | EAGAIN | ERESTARTSYS | EFAULT | Other(code: int)

  datatype Result<+T> = Ok(value: T) | Err(error: Error)

  /** What the waiting section decides: the assertion there fails, nothing is left to wait for, it may not
      block, or it goes to sleep. */
  datatype Schedule = Bug | NoData | Again | Sleep

  function Decide(q: Queue): Schedule {
    if q.doneCmds > q.queued then Bug
    else if q.doneCmds == q.queued then NoData else if !q.block then Again else Sleep
  }

  class BsgDevice {
    var queuedCmds: int
    var doneCmds: int
    var maxQueue: int
    var busyList: seq<CmdId>
    var doneList: seq<CmdId>
    var block: bool

    function View(): Queue
      reads this
    {
      Queue(queuedCmds, doneCmds, maxQueue, busyList, doneList, block)
    }

    /** The count of finished commands is the length of their list. */
    predicate Valid()
      reads this
    {
      doneCmds == |doneList|
    }

    constructor (blocking: bool)
      ensures Valid() && View() == Fresh(blocking)
    {
      queuedCmds, doneCmds, maxQueue := 0, 0, DEFAULT_MAX;
      busyList, doneList, block := [], [], blocking;
    }

    /** Reserve a slot, then allocate; a failed allocation gives the slot back. */
    method AllocCommand(id: CmdId, memory: bool) returns (r: Result<CmdId>)
      requires Valid()
      modifies this
      ensures Valid()
      ensures r == if old(queuedCmds) >= maxQueue then Err(EINVAL) else if !memory then Err(ENOMEM) else Ok(id)
      ensures View() == if r.Ok? then Counted(old(View())) else old(View())
    {
      if queuedCmds >= maxQueue {
        return Err(EINVAL);
      }
      queuedCmds := queuedCmds + 1;
      if !memory {
        queuedCmds := queuedCmds - 1;
        return Err(ENOMEM);
      }
      return Ok(id);
    }

    method FreeCommand()
      requires Valid()
      modifies this
      ensures Valid() && View() == Uncounted(old(View()))
    {
      queuedCmds := queuedCmds - 1;
    }

    method AddCommand(id: CmdId)
      requires Valid()
      modifies this
      ensures Valid() && View() == Listed(old(View()), id)
    {
      busyList := busyList + [id];
    }

    method RqEndIo(id: CmdId)
      requires Valid()
      modifies this
      ensures Valid() && View() == Moved(old(View()), id)
    {
      busyList := Without(busyList, id);
      doneList := doneList + [id];
      doneCmds := doneCmds + 1;
    }

    /** Take the oldest finished command, if any. */
    method NextDoneCmd() returns (found: bool, id: CmdId)
      requires Valid()
      modifies this
      ensures Valid() && found == (old(doneList) != [])
      ensures found ==> id == old(doneList)[0] && View() == Taken(old(View()))
      ensures !found ==> View() == old(View())
    {
      found, id := false, 0;
      if doneCmds != 0 {
        id := doneList[0];
        found := true;
        doneList := doneList[1..];
        doneCmds := doneCmds - 1;
      }
    }

    method SetMaxQueue(n: int) returns (r: Result<()>)
      requires Valid()
      modifies this
      ensures Valid() && View() == if n < 1 then old(View()) else old(View()).(maxQueue := n)
      ensures r == if n < 1 then Err(EINVAL) else Ok(())
    {
      if n < 1 {
        return Err(EINVAL);
      }
      maxQueue := n;
      return Ok(());
    }

    /** The section of the waiting loop. */
    method IoSchedule() returns (d: Schedule)
      ensures d == Bug <==> doneCmds > queuedCmds
      ensures d == NoData <==> doneCmds == queuedCmds
      ensures d == Again <==> doneCmds < queuedCmds && !block
      ensures d == Sleep <==> doneCmds < queuedCmds && block
      ensures d == Decide(View())
    {
      if doneCmds > queuedCmds {
        return Bug;
      }
      if doneCmds == queuedCmds {
        return NoData;
      }
      if !block {
        return Again;
      }
      return Sleep;
    }
  }
}
