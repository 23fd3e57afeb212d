/**
 Block traces (linux-2.6.24.3/block/blktrace.c): what each operation does to the shared directory, the
 queues' traces and the trace log, as functions on a value, and which accounts they keep.
 */
module BlkTrace {
  import opened Bits

  type QueueId = nat
  type TraceId = nat
  type TaskId = nat
  type Cpu = nat

  const WRAP := 0x1_0000_0000   // the counters are 32-bit unsigned

  datatype TraceState = SetUp | Running | Stopped

  datatype Trace = Trace(state: TraceState, counts: map<Cpu, nat>, actMask: Word, startLba: nat, endLba: nat, pid: nat)

  /** What a trace owns. */
  datatype Resource =
    | Memory(trace: TraceId)
    | Percpu(trace: TraceId)
    | Dir(trace: TraceId)
    | Dropped(trace: TraceId)
    | Channel(trace: TraceId)

  // ----- the shared directory -----

  datatype Tree = Tree(
    rootExists: bool,
    rootUsers: nat,
    live: set<Resource>)   // acquired and not released

  function Owned(t: TraceId): (rs: set<Resource>)
    ensures forall r :: r in rs <==> r.trace == t
  {
    {Memory(t), Percpu(t), Dir(t), Dropped(t), Channel(t)}
  }

  /** The trace directories created and not removed. */
  function Dirs(tree: Tree): set<TraceId> {
    set r | r in tree.live && r.Dir? :: r.trace
  }

  /** The user count is the number of trace directories, and the root is there exactly while it is used. */
  ghost predicate RootAgrees(tree: Tree) {
    tree.rootUsers == |Dirs(tree)| && (tree.rootExists <==> tree.rootUsers > 0)
  }

  /** A directory is made for trace `t`. */
  function TreeMade(tree: Tree, t: TraceId): Tree {
    Tree(true, tree.rootUsers + 1, tree.live + {Dir(t)})
  }

  /** The directory of trace `t` is removed, and with the last one the root. */
  function TreeRemoved(tree: Tree, t: TraceId): Tree
    requires tree.rootUsers > 0
  {
    Tree(tree.rootExists && tree.rootUsers > 1, tree.rootUsers - 1, tree.live - {Dir(t)})
  }

  lemma TreeMadeAgrees(tree: Tree, t: TraceId)
    requires RootAgrees(tree) && Dir(t) !in tree.live
    ensures RootAgrees(TreeMade(tree, t))
  {
    assert t !in Dirs(tree) && Dirs(TreeMade(tree, t)) == Dirs(tree) + {t};
  }

  lemma TreeRemovedAgrees(tree: Tree, t: TraceId)
    requires RootAgrees(tree) && Dir(t) in tree.live
    ensures tree.rootUsers > 0 && RootAgrees(TreeRemoved(tree, t))
  {
    assert t in Dirs(tree);
    assert Dirs(TreeRemoved(tree, t)) == Dirs(tree) - {t};
  }

  /** Resources other than directories do not matter to the root. */
  lemma OthersAgree(tree: Tree, live: set<Resource>)
    requires RootAgrees(tree) && forall r: Resource :: r.Dir? ==> (r in live <==> r in tree.live)
    ensures RootAgrees(tree.(live := live))
  {
    assert Dirs(tree.(live := live)) == Dirs(tree);
  }

  // ----- the whole state -----

  /** What has been written, or tried to be written, to some trace's channel.  `start` counts the starts of
      all traces so far, `since` is the number of the last start of the event's own trace. */
  datatype Entry =
    | Time(trace: TraceId, start: nat)
    | Note(trace: TraceId, task: TaskId, start: nat, kept: bool)
    | Event(trace: TraceId, task: TaskId, cpu: Cpu, number: nat, start: nat, since: nat)

  /** The actions of a process between one start of some trace and the next. */
  datatype Turn = Turn(task: TaskId, start: nat)

  /** The trace of the first action of a turn, and whether the process's mark was then mistaken for a fresh one. */
  datatype First = First(trace: TraceId, mistaken: bool)

  /** What happened so far. */
  datatype History = History(
    starts: nat,                     // starts of all traces
    last: map<TaskId, nat>,          // `starts` at each task's last process note
    started: map<TraceId, nat>,      // the number of each trace's last start
    first: map<Turn, First>)         // the first recordable action of each turn

  datatype Sys = Sys(
    tree: Tree,
    traces: map<TraceId, Trace>,     // set up and not cleaned up
    queues: map<QueueId, TraceId>,   // the trace attached to each queue
    next: TraceId,
    counter: nat,                    // bumped at every start, as a 32-bit number
    noted: map<TaskId, nat>,         // the counter at each task's last process note
    hist: History,
    log: seq<Entry>)

  function Initial(): Sys {
    Sys(Tree(false, 0, {}), map[], map[], 0, 1, map[], History(0, map[], map[], map[]), [])
  }

  // ----- the operations -----

  /** A successful setup: a new trace with its directory, attached to the queue. */
  function Attached(s: Sys, q: QueueId, t: TraceId, trace: Trace): Sys {
    s.(tree := Tree(true, s.tree.rootUsers + 1, s.tree.live + Owned(t)),
       traces := s.traces[t := trace], queues := s.queues[q := t], next := s.next + 1)
  }

  /** Everything a trace owns is released; the last user removes the shared root. */
  function Cleaned(s: Sys, t: TraceId): Sys
    requires s.tree.rootUsers > 0
  {
    s.(tree := Tree(s.tree.rootExists && s.tree.rootUsers > 1, s.tree.rootUsers - 1, s.tree.live - Owned(t)),
       traces := s.traces - {t})
  }

  function WithState(s: Sys, t: TraceId, state: TraceState): Sys
    requires t in s.traces
  {
    s.(traces := s.traces[t := s.traces[t].(state := state)])
  }

  /** Starting bumps the counter and writes a time stamp. */
  function Started(s: Sys, t: TraceId): Sys
    requires t in s.traces
  {
    var n := s.hist.starts + 1;
    WithState(s, t, Running)
      .(counter := (s.counter + 1) % WRAP, hist := s.hist.(starts := n, started := s.hist.started[t := n]),
        log := s.log + [Time(t, n)])
  }

  function StartStop(s: Sys, q: QueueId, start: bool): Sys
    requires q in s.queues ==> s.queues[q] in s.traces
  {
    if q !in s.queues then s
    else
      var t := s.queues[q];
      if start && s.traces[t].state != Running then Started(s, t)
      else if !start && s.traces[t].state == Running then WithState(s, t, Stopped)
      else s
  }

  /** Plain teardown detaches the trace, and cleans it up unless it is running. */
  function Remove(s: Sys, q: QueueId): Sys
    requires q in s.queues ==> s.queues[q] in s.traces && s.tree.rootUsers > 0
  {
    if q !in s.queues then s
    else
      var t := s.queues[q];
      var s' := s.(queues := s.queues - {q});
      if s.traces[t].state != Running then Cleaned(s', t) else s'
  }

  function Shutdown(s: Sys, q: QueueId): Sys
    requires q in s.queues ==> s.queues[q] in s.traces && s.tree.rootUsers > 0
  {
    Remove(StartStop(s, q, false), q)
  }

  /** The filter on actions, sectors and processes. */
  predicate Filtered(b: Trace, what: Word, sector: nat, pid: nat) {
    || And(Shl(b.actMask, 16), what) == 0
    || sector < b.startLba || sector > b.endLba
    || (b.pid != 0 && pid != b.pid)
  }

  function NotedAt(s: Sys, task: TaskId): nat {
    if task in s.noted then s.noted[task] else 0
  }

  /** The process note, if the process has not had one since the counter last moved. */
  function WithNote(s: Sys, t: TraceId, task: TaskId, kept: bool): Sys {
    if NotedAt(s, task) == s.counter then s
    else s.(noted := s.noted[task := s.counter], hist := s.hist.(last := s.hist.last[task := s.hist.starts]),
            log := s.log + [Note(t, task, s.hist.starts, kept)])
  }

  /** The counter is where it was at the process's last note, or where a process without note starts, but a
      multiple of 2^32 starts later. */
  predicate Mistaken(h: History, task: TaskId) {
    if task in h.last then h.last[task] < h.starts && (h.starts - h.last[task]) % WRAP == 0
    else (1 + h.starts) % WRAP == 0
  }

  /** Remember an action if it is the first of its turn. */
  function WithFirst(h: History, t: TraceId, task: TaskId): History {
    if Turn(task, h.starts) in h.first then h
    else h.(first := h.first[Turn(task, h.starts) := First(t, Mistaken(h, task))])
  }

  function StartOf(h: History, t: TraceId): nat {
    if t in h.started then h.started[t] else 0
  }

  function CountOn(b: Trace, cpu: Cpu): nat {
    if cpu in b.counts then b.counts[cpu] else 0
  }

  /** The event itself, if there is room for it. */
  function WithEvent(s: Sys, t: TraceId, task: TaskId, cpu: Cpu, room: bool): Sys
    requires t in s.traces
  {
    if !room then s
    else
      var n := (CountOn(s.traces[t], cpu) + 1) % WRAP;
      s.(traces := s.traces[t := s.traces[t].(counts := s.traces[t].counts[cpu := n])],
         log := s.log + [Event(t, task, cpu, n, s.hist.starts, StartOf(s.hist, t))])
  }

  datatype Io = Io(task: TaskId, cpu: Cpu, what: Word, sector: nat, pid: nat, noteRoom: bool, room: bool)

  /** An action of a process on a trace that takes it. */
  function Acted(s: Sys, t: TraceId, io: Io): Sys
    requires t in s.traces
  {
    var s0 := s.(hist := WithFirst(s.hist, t, io.task));
    WithEvent(WithNote(s0, t, io.task, io.noteRoom), t, io.task, io.cpu, io.room)
  }

  predicate Takes(s: Sys, t: TraceId, io: Io)
    requires t in s.traces
  {
    s.traces[t].state == Running && !Filtered(s.traces[t], io.what, io.sector, io.pid)
  }

  function Record(s: Sys, t: TraceId, io: Io): Sys
    requires t in s.traces
  {
    if Takes(s, t, io) then Acted(s, t, io) else s
  }

  /** Bit i of a mask stands for class i, which is bit i + 16 of an action. */
  ghost predicate ClassBit(mask: Word, what: Word, i: nat)
    requires i < 16
  {
    BitsOf(mask)[i] && BitsOf(what)[i + 16]
  }

  /** The trace asks for one of the classes of the action, for the sector and for the process. */
  ghost predicate Selects(b: Trace, what: Word, sector: nat, pid: nat) {
    && (exists i :: 0 <= i < 16 && ClassBit(b.actMask, what, i))
    && b.startLba <= sector <= b.endLba
    && (b.pid == 0 || b.pid == pid)
  }

  lemma ClassIff(mask: Word, what: Word)
    ensures And(Shl(mask, 16), what) != 0 <==> exists i :: 0 <= i < 16 && ClassBit(mask, what, i)
  {
    hide BitsOf, Shl, And;
    CommonBitIff(Shl(mask, 16), what);
    ShlBits(mask, 16);
    assert forall i :: 0 <= i < 16 ==> BitsOf(Shl(mask, 16))[i + 16] == BitsOf(mask)[i];
    if i :| 0 <= i < 16 && ClassBit(mask, what, i) {
      assert BitsOf(Shl(mask, 16))[i + 16] && BitsOf(what)[i + 16];
    }
    if j :| 0 <= j < 32 && BitsOf(Shl(mask, 16))[j] && BitsOf(what)[j] {
      assert j >= 16 && ClassBit(mask, what, j - 16);
    }
  }

  /** An action is taken exactly if the trace is running and selects it. */
  lemma TakesIff(s: Sys, t: TraceId, io: Io)
    requires t in s.traces
    ensures Takes(s, t, io) <==> s.traces[t].state == Running && Selects(s.traces[t], io.what, io.sector, io.pid)
  {
    hide And, Shl, BitsOf;
    ClassIff(s.traces[t].actMask, io.what);
  }

  /** What recording adds to the log: at most a note, and the event exactly if it is taken and has room. */
  lemma RecordedIff(s: Sys, t: TraceId, io: Io)
    requires t in s.traces
    ensures var log := Record(s, t, io).log;
            && s.log <= log
            && (forall i :: |s.log| <= i < |log| ==> log[i].trace == t && !log[i].Time?)
            && (if Takes(s, t, io) && io.room
                then |log| > |s.log| && log[|log| - 1].Event? && log[|log| - 1].task == io.task && log[|log| - 1].cpu == io.cpu
                     && forall i :: |s.log| <= i < |log| - 1 ==> log[i].Note?
                else forall i :: |s.log| <= i < |log| ==> log[i].Note? && Takes(s, t, io))
  {
    hide Takes, NotedAt, CountOn, Mistaken, StartOf;
  }

  /** Starting and stopping change the state of the queue's trace alone: started is running, stopped is stopped,
      and a trace that is not running cannot be stopped. */
  lemma StateAfter(s: Sys, q: QueueId, start: bool)
    requires q in s.queues && s.queues[q] in s.traces
    ensures var s', t := StartStop(s, q, start), s.queues[q];
            && t in s'.traces && s'.traces.Keys == s.traces.Keys
            && (start ==> s'.traces[t].state == Running)
            && (!start ==> s'.traces[t].state == if s.traces[t].state == Running then Stopped else s.traces[t].state)
            && forall x :: x in s.traces && x != t ==> s'.traces[x] == s.traces[x]
  {
  }

  // ----- accounts -----

  /** Exactly the traces that have not been cleaned up own anything. */
  ghost predicate LiveAgrees(live: set<Resource>, traces: set<TraceId>) {
    forall r: Resource {:trigger r in live} :: r in live <==> r.trace in traces
  }

  /** Each queue has a trace of its own. */
  ghost predicate QueuesAgree(traces: set<TraceId>, queues: map<QueueId, TraceId>, next: TraceId) {
    && (forall q :: q in queues ==> queues[q] in traces)
    && (forall q, p :: q in queues && p in queues && queues[q] == queues[p] ==> q == p)
    && (forall t :: t in traces ==> t < next)
  }

  ghost predicate Balanced(tree: Tree, traces: set<TraceId>, queues: map<QueueId, TraceId>, next: TraceId) {
    RootAgrees(tree) && LiveAgrees(tree.live, traces) && QueuesAgree(traces, queues, next)
  }

  ghost predicate Accounts(s: Sys) { Balanced(s.tree, s.traces.Keys, s.queues, s.next) }

  /** A new trace owns nothing yet. */
  lemma NextIsNew(s: Sys)
    requires Accounts(s)
    ensures Owned(s.next) !! s.tree.live && (s.tree.rootExists <==> s.tree.rootUsers > 0)
  {
  }

  /** The trace of a queue owns all that a trace owns. */
  lemma QueueOwns(s: Sys, q: QueueId)
    requires Accounts(s) && q in s.queues
    ensures s.queues[q] in s.traces && s.tree.rootUsers > 0 && Owned(s.queues[q]) <= s.tree.live
  {
    assert Dir(s.queues[q]) in s.tree.live;
    assert s.queues[q] in Dirs(s.tree);
  }

  lemma AttachedKeeps(s: Sys, q: QueueId, trace: Trace)
    requires Accounts(s) && q !in s.queues
    ensures Accounts(Attached(s, q, s.next, trace))
  {
    var t := s.next;
    var tree := s.tree;
    assert Dir(t) !in tree.live;
    TreeMadeAgrees(tree, t);
    OthersAgree(TreeMade(tree, t), tree.live + Owned(t));
    hide RootAgrees, Owned;
    assert s.traces[t := trace].Keys == s.traces.Keys + {t};
  }

  lemma CleanedKeeps(s: Sys, t: TraceId)
    requires Accounts(s) && t in s.traces && forall q :: q in s.queues ==> s.queues[q] != t
    ensures s.tree.rootUsers > 0 && Accounts(Cleaned(s, t))
  {
    assert Dir(t) in s.tree.live;
    TreeRemovedAgrees(s.tree, t);
    OthersAgree(TreeRemoved(s.tree, t), s.tree.live - Owned(t));
    hide RootAgrees, Owned;
    assert (s.traces - {t}).Keys == s.traces.Keys - {t};
  }

  lemma StartStopKeeps(s: Sys, q: QueueId, start: bool)
    requires Accounts(s)
    ensures q in s.queues ==> s.queues[q] in s.traces
    ensures Accounts(StartStop(s, q, start))
  {
    hide Balanced, Owned;
    if q in s.queues {
      QueueOwns(s, q);
      assert StartStop(s, q, start).traces.Keys == s.traces.Keys;
    }
  }

  lemma DetachedKeeps(s: Sys, q: QueueId)
    requires Accounts(s) && q in s.queues
    ensures Accounts(s.(queues := s.queues - {q}))
    ensures forall p :: p in s.queues - {q} ==> s.queues[p] != s.queues[q]
  {
    hide RootAgrees, LiveAgrees;
  }

  lemma RemoveKeeps(s: Sys, q: QueueId)
    requires Accounts(s)
    ensures q in s.queues ==> s.queues[q] in s.traces && s.tree.rootUsers > 0
    ensures Accounts(Remove(s, q))
  {
    hide Accounts, Cleaned, Owned;
    if q in s.queues {
      QueueOwns(s, q);
      DetachedKeeps(s, q);
      var t := s.queues[q];
      if s.traces[t].state != Running {
        CleanedKeeps(s.(queues := s.queues - {q}), t);
      }
    }
  }

  lemma RecordKeeps(s: Sys, t: TraceId, io: Io)
    requires Accounts(s) && t in s.traces
    ensures Accounts(Record(s, t, io))
  {
    hide Balanced, Takes, NotedAt, CountOn, WithFirst;
    assert Record(s, t, io).traces.Keys == s.traces.Keys;
  }

  lemma ShutdownKeeps(s: Sys, q: QueueId)
    requires Accounts(s)
    ensures q in s.queues ==> s.queues[q] in s.traces && s.tree.rootUsers > 0
    ensures Accounts(Shutdown(s, q))
  {
    hide Accounts, Remove, StartStop, Owned;
    if q in s.queues {
      QueueOwns(s, q);
    }
    StartStopKeeps(s, q, false);
    RemoveKeeps(StartStop(s, q, false), q);
  }

  /** Shutdown releases the queue's trace whatever its state. */
  lemma ShutdownReleases(s: Sys, q: QueueId)
    requires Accounts(s) && q in s.queues
    ensures s.tree.rootUsers > 0 && s.queues[q] in s.traces && q !in Shutdown(s, q).queues
    ensures Shutdown(s, q).traces.Keys == s.traces.Keys - {s.queues[q]}
    ensures Shutdown(s, q).tree.live == s.tree.live - Owned(s.queues[q])
    ensures Shutdown(s, q).tree.rootUsers == s.tree.rootUsers - 1
  {
    hide Accounts, Owned, Started;
    QueueOwns(s, q);
    var t, s1 := s.queues[q], StartStop(s, q, false);
    assert s1.traces.Keys == s.traces.Keys && s1.traces[t].state != Running;
    assert s1.traces.Keys - {t} == (s1.traces - {t}).Keys;
  }

  /** Plain teardown releases the trace exactly when it is not running; a running one stays allocated
      with no queue to reach it. */
  lemma RemoveReleasesIff(s: Sys, q: QueueId)
    requires Accounts(s) && q in s.queues
    ensures s.tree.rootUsers > 0 && s.queues[q] in s.traces
    ensures Remove(s, q).tree.live == s.tree.live - Owned(s.queues[q]) <==> s.traces[s.queues[q]].state != Running
  {
    hide Accounts, Owned;
    QueueOwns(s, q);
    assert Memory(s.queues[q]) in Owned(s.queues[q]);
  }
}
