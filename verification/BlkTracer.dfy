/**
 The block tracer itself (linux-2.6.24.3/block/blktrace.c): setup with its rollback, start and stop,
 teardown and the recording of events, each proved to do what `BlkTrace` says.  Allocations and file
 creations may fail; their outcomes are parameters.
 */
module BlkTracer {
  import opened Bits
  import opened BlkTrace

  datatype Request = Request(bufSize: nat, bufNr: nat, actMask: Word, startLba: nat, endLba: nat, pid: nat)

  datatype Outcomes = Outcomes(memory: bool, percpu: bool, root: bool, dir: bool, dropped: bool, channel: bool)

  const ALL_ACTIONS: Word := 0xFFFF
  const LAST_SECTOR := 0xFFFF_FFFF_FFFF_FFFF

  /** A zero mask means all actions, a zero end means the whole device. */
  function NewTrace(r: Request): Trace {
    Trace(SetUp, map[], if r.actMask == 0 then ALL_ACTIONS else r.actMask, r.startLba,
          if r.endLba == 0 then LAST_SECTOR else r.endLba, r.pid)
  }

  /** The first thing that goes wrong, or 0. */
  function SetupError(s: Sys, q: QueueId, r: Request, o: Outcomes): int {
    if r.bufSize == 0 || r.bufNr == 0 then -22
    else if !o.memory || !o.percpu then -12
    else if (!s.tree.rootExists && !o.root) || !o.dir then -2
    else if !o.dropped || !o.channel then -5
    else if q in s.queues then -16
    else 0
  }

  /** A new trace with no mask takes every class, with no end every sector from its start on, with no process
      every process. */
  lemma NewTraceSelects(r: Request, what: Word, sector: nat, pid: nat)
    requires sector < 0x1_0000_0000_0000_0000
    ensures Selects(NewTrace(r), what, sector, pid) <==>
            && (if r.actMask == 0 then exists i :: 16 <= i < 32 && BitsOf(what)[i]
                else exists i :: 0 <= i < 16 && ClassBit(r.actMask, what, i))
            && r.startLba <= sector && (r.endLba == 0 || sector <= r.endLba)
            && (r.pid == 0 || r.pid == pid)
  {
    hide BitsOf;
    AllSelected();
    if r.actMask == 0 {
      if i :| 0 <= i < 16 && ClassBit(ALL_ACTIONS, what, i) {
        assert BitsOf(what)[i + 16];
      }
      if i :| 16 <= i < 32 && BitsOf(what)[i] {
        assert ClassBit(ALL_ACTIONS, what, i - 16);
      }
    }
  }

  lemma AllSelected()
    ensures forall i :: 0 <= i < 16 ==> BitsOf(ALL_ACTIONS)[i]
  {
    assert Pow2(16) == 0x1_0000 by { Pow2Add(8, 8); Pow2Values(); }
    MaskBits(16, 32);
  }

  /** Which failure of a setup shows. */
  lemma SetupErrorIs(s: Sys, q: QueueId, r: Request, o: Outcomes)
    ensures SetupError(s, q, r, o) == 0 <==>
            && r.bufSize > 0 && r.bufNr > 0 && o.memory && o.percpu && (s.tree.rootExists || o.root) && o.dir
            && o.dropped && o.channel && q !in s.queues
    ensures SetupError(s, q, r, o) == -22 <==> r.bufSize == 0 || r.bufNr == 0
    ensures SetupError(s, q, r, o) == -12 <==> r.bufSize > 0 && r.bufNr > 0 && !(o.memory && o.percpu)
    ensures SetupError(s, q, r, o) == -2 <==>
            && r.bufSize > 0 && r.bufNr > 0 && o.memory && o.percpu && !((s.tree.rootExists || o.root) && o.dir)
    ensures SetupError(s, q, r, o) == -5 <==>
            && r.bufSize > 0 && r.bufNr > 0 && o.memory && o.percpu && (s.tree.rootExists || o.root) && o.dir
            && !(o.dropped && o.channel)
    ensures SetupError(s, q, r, o) == -16 <==>
            && r.bufSize > 0 && r.bufNr > 0 && o.memory && o.percpu && (s.tree.rootExists || o.root) && o.dir
            && o.dropped && o.channel && q in s.queues
    ensures SetupError(s, q, r, o) in {0, -22, -12, -2, -5, -16}
  {
  }

  class Tracer {
    var rootExists: bool
    var rootUsers: nat
    var live: set<Resource>
    var traces: map<TraceId, Trace>
    var queues: map<QueueId, TraceId>
    var next: TraceId
    var counter: nat
    var noted: map<TaskId, nat>
    ghost var hist: History
    ghost var log: seq<Entry>

    ghost function View(): Sys
      reads this
    {
      Sys(Tree(rootExists, rootUsers, live), traces, queues, next, counter, noted, hist, log)
    }

    constructor ()
      ensures View() == Initial()
    {
      rootExists, rootUsers, live := false, 0, {};
      traces, queues, next, counter, noted := map[], map[], 0, 1, map[];
      hist, log := History(0, map[], map[], map[]), [];
    }

    function TreeView(): Tree
      reads this
    {
      Tree(rootExists, rootUsers, live)
    }

    /** Create a trace directory, and the root directory if it is not there.  A root made for a directory
        that then fails is removed again. */
    method CreateTree(t: TraceId, rootOk: bool, dirOk: bool) returns (ok: bool)
      modifies this`rootExists, this`rootUsers, this`live
      ensures ok == ((old(rootExists) || rootOk) && dirOk)
      ensures TreeView() == if ok then TreeMade(old(TreeView()), t) else old(TreeView())
    {
      var created := false;
      if !rootExists {
        rootExists := rootOk;
        if !rootExists {
          return false;
        }
        created := true;
      }
      ok := dirOk;
      if ok {
        live := live + {Dir(t)};
        rootUsers := rootUsers + 1;
      } else if created {
        rootExists := false;
      }
    }

    method RemoveTree(t: TraceId)
      requires Dir(t) in live && rootUsers > 0
      modifies this`rootExists, this`rootUsers, this`live
      ensures TreeView() == TreeRemoved(old(TreeView()), t)
    {
      live := live - {Dir(t)};
      rootUsers := rootUsers - 1;
      if rootUsers == 0 {
        rootExists := false;
      }
    }

    method Cleanup(t: TraceId)
      requires t in traces && Owned(t) <= live && rootUsers > 0
      modifies this
      ensures View() == Cleaned(old(View()), t)
    {
      live := live - {Channel(t)};
      live := live - {Dropped(t)};
      RemoveTree(t);
      live := live - {Percpu(t)};
      live := live - {Memory(t)};
      traces := traces - {t};
      assert live == old(live) - Owned(t);
    }

    /** Acquire what a trace needs, in order, up to the first failure. */
    method Acquire(t: TraceId, o: Outcomes) returns (e: int, dir: bool)
      requires Owned(t) !! live
      modifies this`rootExists, this`rootUsers, this`live
      ensures e == if !o.memory || !o.percpu then -12
                   else if (!old(rootExists) && !o.root) || !o.dir then -2
                   else if !o.dropped || !o.channel then -5 else 0
      ensures e == 0 ==> dir && live == old(live) + Owned(t)
      ensures old(live) <= live <= old(live) + Owned(t) && dir == (Dir(t) in live)
      ensures forall r :: r in live && r !in old(live) ==> Memory(t) in live
      ensures if dir then rootExists && rootUsers == old(rootUsers) + 1
              else rootExists == old(rootExists) && rootUsers == old(rootUsers)
    {
      dir, e := false, -12;
      if !o.memory {
        return;
      }
      live := live + {Memory(t)};
      if !o.percpu {
        return;
      }
      live := live + {Percpu(t)};
      e := -2;
      dir := CreateTree(t, o.root, o.dir);
      if !dir {
        return;
      }
      e := -5;
      if !o.dropped {
        return;
      }
      live := live + {Dropped(t)};
      if !o.channel {
        return;
      }
      live := live + {Channel(t)};
      e := 0;
    }

    /** Give the queue the trace whose resources have been acquired since `s`. */
    method Attach(q: QueueId, t: TraceId, r: Request, ghost s: Sys)
      requires View() == s.(tree := Tree(true, s.tree.rootUsers + 1, s.tree.live + Owned(t)))
      modifies this`queues, this`traces, this`next
      ensures View() == Attached(s, q, t, NewTrace(r))
    {
      queues := queues[q := t];
      traces := traces[t := NewTrace(r)];
      next := next + 1;
    }

    /** Set up a trace for a queue.  Whatever fails, everything acquired is released and the queue's trace is
        as before. */
    method Setup(q: QueueId, r: Request, o: Outcomes) returns (e: int)
      requires Accounts(View())
      modifies this
      ensures e == SetupError(old(View()), q, r, o) && Accounts(View())
      ensures e != 0 ==> View() == old(View())
      ensures e == 0 ==> View() == Attached(old(View()), q, old(next), NewTrace(r))
    {
      if r.bufSize == 0 || r.bufNr == 0 {
        return -22;
      }
      hide Accounts, Owned, NewTrace, Attached;
      ghost var s := View();
      NextIsNew(s);
      if q !in queues {
        AttachedKeeps(s, q, NewTrace(r));
      }
      var t := next;
      var dir;
      e, dir := Acquire(t, o);
      if e == 0 {
        e := -16;
        if q !in queues {
          Attach(q, t, r, s);
          return 0;
        }
      }
      Rollback(t, dir, s);
    }

    /** Release what a failed setup had acquired. */
    method Rollback(t: TraceId, dir: bool, ghost s: Sys)
      requires dir == (Dir(t) in live) && s.tree.live <= live <= s.tree.live + Owned(t) && Owned(t) !! s.tree.live
      requires forall r :: r in live && r !in s.tree.live ==> Memory(t) in live
      requires View() == s.(tree := TreeView())
      requires if dir then rootExists && rootUsers == s.tree.rootUsers + 1
               else rootExists == s.tree.rootExists && rootUsers == s.tree.rootUsers
      requires s.tree.rootExists <==> s.tree.rootUsers > 0
      modifies this`rootExists, this`rootUsers, this`live
      ensures View() == s
    {
      if dir {
        RemoveTree(t);
      }
      if Memory(t) in live {
        live := live - {Dropped(t)};
        live := live - {Percpu(t)};
        live := live - {Channel(t)};
        live := live - {Memory(t)};
      }
      assert live == s.tree.live;
    }

    method Start(t: TraceId)
      requires t in traces
      modifies this`traces, this`counter, this`hist, this`log
      ensures View() == Started(old(View()), t)
    {
      counter := (counter + 1) % WRAP;
      traces := traces[t := traces[t].(state := Running)];
      hist := hist.(starts := hist.starts + 1, started := hist.started[t := hist.starts + 1]);
      log := log + [Time(t, hist.starts)];
    }

    method Stop(t: TraceId)
      requires t in traces
      modifies this`traces
      ensures View() == WithState(old(View()), t, Stopped)
    {
      traces := traces[t := traces[t].(state := Stopped)];
    }

    method StartStop(q: QueueId, start: bool) returns (e: int)
      requires Accounts(View())
      modifies this`traces, this`counter, this`hist, this`log
      ensures View() == BlkTrace.StartStop(old(View()), q, start) && Accounts(View())
      ensures e == if q in old(queues) && (old(traces)[old(queues)[q]].state == Running) == !start then 0 else -22
    {
      hide Accounts, Owned, Started, WithState;
      StartStopKeeps(View(), q, start);
      if q !in queues {
        return -22;
      }
      var t := queues[q];
      e := -22;
      if start {
        if traces[t].state == SetUp || traces[t].state == Stopped {
          Start(t);
          e := 0;
        }
      } else {
        if traces[t].state == Running {
          Stop(t);
          e := 0;
        }
      }
    }

    method Remove(q: QueueId) returns (e: int)
      requires Accounts(View())
      modifies this
      ensures q in old(queues) ==> old(queues)[q] in old(traces) && old(rootUsers) > 0
      ensures View() == BlkTrace.Remove(old(View()), q) && Accounts(View())
      ensures e == if q in old(queues) then 0 else -22
    {
      hide Accounts, Owned, Cleaned;
      RemoveKeeps(View(), q);
      if q !in queues {
        return -22;
      }
      var t := queues[q];
      QueueOwns(View(), q);
      queues := queues - {q};
      if traces[t].state == SetUp || traces[t].state == Stopped {
        Cleanup(t);
      }
      return 0;
    }

    method Shutdown(q: QueueId)
      requires Accounts(View())
      modifies this
      ensures q in old(queues) ==> old(queues)[q] in old(traces) && old(rootUsers) > 0
      ensures View() == BlkTrace.Shutdown(old(View()), q) && Accounts(View()) && q !in queues
    {
      hide Accounts, Owned;
      ShutdownKeeps(View(), q);
      if q in queues {
        var _ := StartStop(q, false);
        var _ := Remove(q);
      }
    }

    /** Send out the process note of a process, if it has not had one since a trace started. */
    method NoteTask(t: TraceId, task: TaskId, room: bool)
      modifies this`noted, this`hist, this`log
      ensures View() == WithNote(old(View()), t, task, room)
    {
      if (if task in noted then noted[task] else 0) != counter {
        noted := noted[task := counter];
        hist := hist.(last := hist.last[task := hist.starts]);
        log := log + [Note(t, task, hist.starts, room)];
      }
    }

    method LogEvent(t: TraceId, io: Io)
      requires t in traces
      modifies this`traces, this`log
      ensures View() == WithEvent(old(View()), t, io.task, io.cpu, io.room)
    {
      if io.room {
        var n := (CountOn(traces[t], io.cpu) + 1) % WRAP;
        traces := traces[t := traces[t].(counts := traces[t].counts[io.cpu := n])];
        log := log + [Event(t, io.task, io.cpu, n, hist.starts, StartOf(hist, t))];
      }
    }

    /** Record one event of a process. */
    method AddTrace(t: TraceId, io: Io)
      requires Accounts(View()) && t in traces
      modifies this
      ensures View() == Record(old(View()), t, io) && Accounts(View())
      ensures log != old(log) ==>
                old(traces)[t].state == Running && Selects(old(traces)[t], io.what, io.sector, io.pid)
      ensures old(traces)[t].state == Running && Selects(old(traces)[t], io.what, io.sector, io.pid) && io.room ==>
                && |log| > |old(log)| && log[|log| - 1].Event?
                && log[|log| - 1].trace == t && log[|log| - 1].task == io.task && log[|log| - 1].cpu == io.cpu
    {
      hide Selects, Accounts;
      RecordKeeps(View(), t, io);
      TakesIff(View(), t, io);
      RecordedIff(View(), t, io);
      hide Accounts, Filtered, Owned, WithEvent, WithNote, WithFirst;
      if traces[t].state != Running {
        return;
      }
      if Filtered(traces[t], io.what, io.sector, io.pid) {
        return;
      }
      hist := WithFirst(hist, t, io.task);
      NoteTask(t, io.task, io.noteRoom);
      LogEvent(t, io);
    }
  }
}
