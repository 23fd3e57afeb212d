/**
 The trace log over whole runs (linux-2.6.24.3/block/blktrace.c): event numbers have no gap or repeat,
 and each task is named at most once per start of a trace.  Operations on one queue are serialised by its
 mutex, and recording an event is one step.
 */
module BlkTraceLog {
  import opened BlkTrace

  // ----- event numbers -----

  /** The numbers recorded for a trace on a processor, in order. */
  function Numbers(log: seq<Entry>, t: TraceId, cpu: Cpu): seq<nat> {
    if log == [] then []
    else
      var e := log[|log| - 1];
      Numbers(log[..|log| - 1], t, cpu) + if e.Event? && e.trace == t && e.cpu == cpu then [e.number] else []
  }

  /** 1, 2, 3, ... as 32-bit numbers. */
  function UpTo(k: nat): (r: seq<nat>)
    ensures |r| == k
  {
    seq(k, i => (i + 1) % WRAP)
  }

  lemma NumbersMore(log: seq<Entry>, e: Entry, t: TraceId, cpu: Cpu)
    ensures Numbers(log + [e], t, cpu)
         == Numbers(log, t, cpu) + if e.Event? && e.trace == t && e.cpu == cpu then [e.number] else []
  {
    assert (log + [e])[..|log|] == log;
  }

  /** Numbering on one processor of one trace has no gap and no repeat. */
  ghost predicate Numbered(s: Sys, t: TraceId, cpu: Cpu) {
    && Numbers(s.log, t, cpu) == UpTo(|Numbers(s.log, t, cpu)|)
    && (t in s.traces ==> CountOn(s.traces[t], cpu) == |Numbers(s.log, t, cpu)| % WRAP)
    && (t >= s.next ==> Numbers(s.log, t, cpu) == [])
  }

  ghost predicate AllNumbered(s: Sys) { forall t, cpu :: Numbered(s, t, cpu) }

  lemma NextNumber(k: nat)
    ensures UpTo(k + 1) == UpTo(k) + [(k % WRAP + 1) % WRAP]
  {
  }

  lemma NextRemainder(k: nat)
    ensures (k % WRAP + 1) % WRAP == (k + 1) % WRAP
  {
  }

  /** No trace has counts that it did not have before. */
  ghost predicate SameCounts(s: Sys, s': Sys) {
    s'.next == s.next && forall t :: t in s'.traces ==> t in s.traces && s'.traces[t].counts == s.traces[t].counts
  }

  /** Entries other than events do not disturb the numbering. */
  lemma OtherEntryNumbered(s: Sys, e: Entry, s': Sys)
    requires AllNumbered(s) && !e.Event? && s'.log == s.log + [e] && SameCounts(s, s')
    ensures AllNumbered(s')
  {
    forall t, cpu
      ensures Numbered(s', t, cpu)
    {
      NumbersMore(s.log, e, t, cpu);
      assert Numbered(s, t, cpu);
    }
  }

  lemma QuietNumbered(s: Sys, s': Sys)
    requires AllNumbered(s) && s'.log == s.log && SameCounts(s, s')
    ensures AllNumbered(s')
  {
    forall t, cpu
      ensures Numbered(s', t, cpu)
    {
      assert Numbered(s, t, cpu);
    }
  }

  lemma EventNumbered(s: Sys, t: TraceId, task: TaskId, cpu: Cpu)
    requires AllNumbered(s) && t in s.traces && t < s.next
    ensures AllNumbered(WithEvent(s, t, task, cpu, true))
  {
    var s' := WithEvent(s, t, task, cpu, true);
    var e := s'.log[|s.log|];
    forall x, c
      ensures Numbered(s', x, c)
    {
      assert Numbered(s, x, c);
      NumbersMore(s.log, e, x, c);
      if x == t && c == cpu {
        CountedOn(s, t, task, cpu);
      } else {
        hide Numbers, UpTo;
      }
    }
  }

  lemma CountedOn(s: Sys, t: TraceId, task: TaskId, cpu: Cpu)
    requires Numbered(s, t, cpu) && t in s.traces && t < s.next
    ensures Numbered(WithEvent(s, t, task, cpu, true), t, cpu)
  {
    hide Numbers, UpTo;
    var s' := WithEvent(s, t, task, cpu, true);
    var k := |Numbers(s.log, t, cpu)|;
    NumbersMore(s.log, s'.log[|s.log|], t, cpu);
    NextNumber(k);
    NextRemainder(k);
    assert CountOn(s'.traces[t], cpu) == (k % WRAP + 1) % WRAP;
  }

  // ----- process notes -----

  /** Some trace has had a note for the process since start number `start`, and before the next start. */
  ghost predicate NotedIn(log: seq<Entry>, task: TaskId, start: nat) {
    exists i :: 0 <= i < |log| && log[i].Note? && log[i].task == task && log[i].start == start
  }

  /** The process's mark and its history agree, and its last note is in the log. */
  ghost predicate Marked(s: Sys, task: TaskId) {
    && (task in s.noted <==> task in s.hist.last)
    && (task in s.hist.last ==> s.hist.last[task] <= s.hist.starts && s.noted[task] == (1 + s.hist.last[task]) % WRAP
                                && NotedIn(s.log, task, s.hist.last[task]))
  }

  /** Notes are at most one per task and start, and the last of them is the one remembered. */
  ghost predicate NotedOnce(s: Sys) {
    && (forall i :: 0 <= i < |s.log| && s.log[i].Note? ==>
          s.log[i].task in s.hist.last && s.log[i].start <= s.hist.last[s.log[i].task])
    && (forall i, j :: 0 <= i < j < |s.log| && s.log[i].Note? && s.log[j].Note? && s.log[i].task == s.log[j].task
          ==> s.log[i].start != s.log[j].start)
  }

  ghost predicate Marks(s: Sys) {
    && s.counter == (1 + s.hist.starts) % WRAP
    && (forall task :: Marked(s, task))
    && NotedOnce(s)
  }

  /** An event comes after a note for its task since the same start, in its own trace or another. */
  ghost predicate Announced(log: seq<Entry>) {
    forall i :: 0 <= i < |log| && log[i].Event? ==> NotedIn(log[..i], log[i].task, log[i].start)
  }

  lemma NotedMore(log: seq<Entry>, e: Entry, task: TaskId, start: nat)
    requires NotedIn(log, task, start)
    ensures NotedIn(log + [e], task, start)
  {
    var i :| 0 <= i < |log| && log[i].Note? && log[i].task == task && log[i].start == start;
    assert (log + [e])[i] == log[i];
  }

  lemma AnnouncedMore(log: seq<Entry>, e: Entry)
    requires Announced(log)
    ensures Announced(log + [e]) <==> (e.Event? ==> NotedIn(log, e.task, e.start))
  {
    var more := log + [e];
    assert more[..|log|] == log;
    forall i | 0 <= i < |log| && more[i].Event?
      ensures NotedIn(more[..i], more[i].task, more[i].start)
    {
      assert more[..i] == log[..i];
    }
  }

  /** Equal remainders: the numbers differ by a multiple of 2^32. */
  lemma SameRemainder(a: nat, b: nat)
    requires a <= b
    ensures a % WRAP == b % WRAP <==> (b - a) % WRAP == 0
  {
  }

  /** A mark equals the counter exactly if the process has had its note since the last start, or by mistake. */
  lemma FreshIff(s: Sys, task: TaskId)
    requires Marks(s)
    ensures NotedAt(s, task) == s.counter <==>
            (task in s.hist.last && s.hist.last[task] == s.hist.starts) || Mistaken(s.hist, task)
  {
    assert Marked(s, task);
    if task in s.hist.last {
      SameRemainder(1 + s.hist.last[task], 1 + s.hist.starts);
    }
  }

  /** No mark is mistaken before the counter wraps. */
  lemma NoWrapNoMistake(h: History, task: TaskId)
    requires 1 + h.starts < WRAP
    ensures !Mistaken(h, task)
  {
  }

  /** After the note step the process has a note since the last start, in some trace, exactly if the counter is
      not a positive multiple of 2^32 starts away from its last note. */
  lemma NotedIff(s: Sys, t: TraceId, task: TaskId, kept: bool)
    requires Marks(s)
    ensures NotedIn(WithNote(s, t, task, kept).log, task, s.hist.starts) <==> !Mistaken(s.hist, task)
  {
    FreshIff(s, task);
    assert Marked(s, task);
    var s' := WithNote(s, t, task, kept);
    if NotedAt(s, task) != s.counter {
      assert s'.log[|s.log|] == Note(t, task, s.hist.starts, kept);
    }
  }

  lemma NoteMarked(s: Sys, t: TraceId, task: TaskId, kept: bool, x: TaskId)
    requires Marks(s)
    ensures Marked(WithNote(s, t, task, kept), x)
  {
    var s' := WithNote(s, t, task, kept);
    assert Marked(s, x);
    if NotedAt(s, task) != s.counter {
      if x == task {
        assert s'.log[|s.log|] == Note(t, task, s.hist.starts, kept);
      } else if x in s.hist.last {
        NotedMore(s.log, Note(t, task, s.hist.starts, kept), x, s.hist.last[x]);
      }
    }
  }

  lemma NoteOnce(s: Sys, t: TraceId, task: TaskId, kept: bool)
    requires Marks(s)
    ensures NotedOnce(WithNote(s, t, task, kept))
  {
    assert Marked(s, task);
  }

  lemma NoteMarks(s: Sys, t: TraceId, task: TaskId, kept: bool)
    requires Marks(s)
    ensures Marks(WithNote(s, t, task, kept))
  {
    NoteOnce(s, t, task, kept);
    forall x
      ensures Marked(WithNote(s, t, task, kept), x)
    {
      NoteMarked(s, t, task, kept, x);
    }
  }

  /** Other entries leave the marks as they are. */
  lemma OtherEntryMarks(s: Sys, e: Entry, s': Sys)
    requires Marks(s) && !e.Note? && s'.log == s.log + [e] && s'.noted == s.noted && s'.hist.last == s.hist.last
    requires s'.hist.starts >= s.hist.starts && s'.counter == (1 + s'.hist.starts) % WRAP
    ensures Marks(s')
  {
    forall x
      ensures Marked(s', x)
    {
      assert Marked(s, x);
      if x in s.hist.last {
        NotedMore(s.log, e, x, s.hist.last[x]);
      }
    }
    assert forall i :: 0 <= i < |s'.log| && s'.log[i].Note? ==> i < |s.log| && s'.log[i] == s.log[i];
  }

  lemma QuietMarks(s: Sys, s': Sys)
    requires Marks(s) && s'.log == s.log && s'.noted == s.noted && s'.counter == s.counter
    requires s'.hist.last == s.hist.last && s'.hist.starts == s.hist.starts
    ensures Marks(s')
  {
    forall x
      ensures Marked(s', x)
    {
      assert Marked(s, x);
    }
  }

  // ----- first actions -----

  ghost predicate NoteOf(log: seq<Entry>, k: Turn, t: TraceId) {
    exists i :: 0 <= i < |log| && log[i].Note? && log[i].task == k.task && log[i].start == k.start && log[i].trace == t
  }

  /** Turns lie in the past, and a process that has acted since the last start has an up to date mark. */
  ghost predicate TurnsPast(s: Sys) {
    forall k :: k in s.hist.first ==>
      k.start <= s.hist.starts && (k.start == s.hist.starts ==> NotedAt(s, k.task) == s.counter)
  }

  /** Every note was written at the first action of a turn, to the trace of that action. */
  ghost predicate NotesAreFirst(s: Sys) {
    forall i :: 0 <= i < |s.log| && s.log[i].Note? ==>
      var k := Turn(s.log[i].task, s.log[i].start);
      k in s.hist.first && s.hist.first[k] == First(s.log[i].trace, false)
  }

  /** And the first action of every turn wrote one, unless the mark was mistaken. */
  ghost predicate FirstsAreNoted(s: Sys) {
    && (forall k :: k in s.hist.first && !s.hist.first[k].mistaken ==> NoteOf(s.log, k, s.hist.first[k].trace))
    && (1 + s.hist.starts < WRAP ==> forall k :: k in s.hist.first ==> !s.hist.first[k].mistaken)
  }

  ghost predicate Firsts(s: Sys) { TurnsPast(s) && NotesAreFirst(s) && FirstsAreNoted(s) }

  /** The number of a trace's last start is that of its last time stamp. */
  ghost predicate Times(s: Sys) {
    && (forall t :: t in s.traces && s.traces[t].state == Running ==> t in s.hist.started)
    && (forall t :: t in s.hist.started ==>
          t < s.next && s.hist.started[t] <= s.hist.starts && Time(t, s.hist.started[t]) in s.log)
    && (forall i :: 0 <= i < |s.log| && s.log[i].Time? ==>
          s.log[i].trace in s.hist.started && s.log[i].start <= s.hist.started[s.log[i].trace])
  }

  lemma NoteOfMore(log: seq<Entry>, e: Entry, k: Turn, t: TraceId)
    requires NoteOf(log, k, t)
    ensures NoteOf(log + [e], k, t)
  {
    var i :| 0 <= i < |log| && log[i].Note? && log[i].task == k.task && log[i].start == k.start && log[i].trace == t;
    assert (log + [e])[i] == log[i];
  }

  /** Entries other than notes leave the account of first actions as it is. */
  lemma OtherEntryFirsts(s: Sys, e: Entry, s': Sys)
    requires Firsts(s) && !e.Note? && s'.log == s.log + [e] && s'.hist.first == s.hist.first && s'.noted == s.noted
    requires s'.hist.starts >= s.hist.starts && (s'.hist.starts == s.hist.starts ==> s'.counter == s.counter)
    ensures Firsts(s')
  {
    assert forall i :: 0 <= i < |s'.log| && s'.log[i].Note? ==> i < |s.log| && s'.log[i] == s.log[i];
    forall k | k in s'.hist.first && !s'.hist.first[k].mistaken
      ensures NoteOf(s'.log, k, s'.hist.first[k].trace)
    {
      NoteOfMore(s.log, e, k, s.hist.first[k].trace);
    }
  }

  /** A process that acts for the first time since the last start has had no note since then. */
  lemma FirstIsUnnoted(s: Sys, task: TaskId)
    requires Marks(s) && Firsts(s) && Turn(task, s.hist.starts) !in s.hist.first
    ensures NotedAt(s, task) == s.counter <==> Mistaken(s.hist, task)
  {
    FreshIff(s, task);
    assert Marked(s, task);
  }

  ghost function Remembered(s: Sys, t: TraceId, task: TaskId): Sys {
    s.(hist := WithFirst(s.hist, t, task))
  }

  lemma FirstNoted(s: Sys, t: TraceId, task: TaskId, kept: bool)
    requires Marks(s) && Firsts(s)
    ensures Firsts(WithNote(Remembered(s, t, task), t, task, kept))
  {
    var k := Turn(task, s.hist.starts);
    if k !in s.hist.first {
      FirstIsUnnoted(s, task);
      NewTurn(s, t, task, kept);
    } else {
      assert WithNote(Remembered(s, t, task), t, task, kept) == s;
    }
  }

  lemma NewTurn(s: Sys, t: TraceId, task: TaskId, kept: bool)
    requires Firsts(s) && Turn(task, s.hist.starts) !in s.hist.first
    requires NotedAt(s, task) == s.counter <==> Mistaken(s.hist, task)
    ensures Firsts(WithNote(Remembered(s, t, task), t, task, kept))
  {
    var mistaken := Mistaken(s.hist, task);
    var s' := WithNote(Remembered(s, t, task), t, task, kept);
    if 1 + s.hist.starts < WRAP {
      NoWrapNoMistake(s.hist, task);
    }
    hide Mistaken;
    assert s'.log == if mistaken then s.log else s.log + [Note(t, task, s.hist.starts, kept)];
    assert s'.hist.first == s.hist.first[Turn(task, s.hist.starts) := First(t, mistaken)];
    assert TurnsPast(s');
    hide NotedAt, TurnsPast, Remembered, WithNote;
    NewTurnNoted(s, s', t, task, mistaken, kept);
  }

  lemma NewTurnNoted(s: Sys, s': Sys, t: TraceId, task: TaskId, mistaken: bool, kept: bool)
    requires NotesAreFirst(s) && FirstsAreNoted(s) && Turn(task, s.hist.starts) !in s.hist.first
    requires s'.hist.first == s.hist.first[Turn(task, s.hist.starts) := First(t, mistaken)]
    requires s'.hist.starts == s.hist.starts && (1 + s.hist.starts < WRAP ==> !mistaken)
    requires s'.log == if mistaken then s.log else s.log + [Note(t, task, s.hist.starts, kept)]
    ensures NotesAreFirst(s') && FirstsAreNoted(s')
  {
    forall x | x in s'.hist.first && !s'.hist.first[x].mistaken
      ensures NoteOf(s'.log, x, s'.hist.first[x].trace)
    {
      if x == Turn(task, s.hist.starts) {
        assert s'.log[|s.log|] == Note(t, task, s.hist.starts, kept);
      } else if !mistaken {
        NoteOfMore(s.log, Note(t, task, s.hist.starts, kept), x, s.hist.first[x].trace);
      }
    }
  }

  // ----- whole runs -----

  datatype Label =
    | DoSetup(q: QueueId, trace: Trace)   // one that succeeds; a failed one changes nothing
    | DoStartStop(q: QueueId, start: bool)
    | DoRemove(q: QueueId)
    | DoShutdown(q: QueueId)
    | DoRecord(t: TraceId, io: Io)

  ghost predicate LogAgrees(s: Sys) { AllNumbered(s) && Marks(s) && Firsts(s) && Times(s) }

  ghost predicate Inv(s: Sys) { Accounts(s) && LogAgrees(s) }

  predicate Enabled(s: Sys, l: Label) {
    match l
    case DoSetup(q, trace) => q !in s.queues && trace.state == SetUp && trace.counts == map[]
    case DoRecord(t, _) => t in s.traces
    case _ => true
  }

  ghost function Apply(s: Sys, l: Label): Sys
    requires Accounts(s) && Enabled(s, l)
  {
    match l
    case DoSetup(q, trace) => Attached(s, q, s.next, trace)
    case DoStartStop(q, start) => StartStopKeeps(s, q, start); StartStop(s, q, start)
    case DoRemove(q) => RemoveKeeps(s, q); Remove(s, q)
    case DoShutdown(q) => ShutdownKeeps(s, q); Shutdown(s, q)
    case DoRecord(t, io) => Record(s, t, io)
  }

  /** The log, the marks and the history are as they were, and no trace has new counts or runs anew. */
  lemma QuietKeeps(s: Sys, s': Sys)
    requires LogAgrees(s) && SameCounts(s, s')
    requires s'.log == s.log && s'.noted == s.noted && s'.counter == s.counter && s'.hist == s.hist
    requires forall t :: t in s'.traces && s'.traces[t].state == Running ==> s.traces[t].state == Running
    ensures LogAgrees(s')
  {
    QuietNumbered(s, s');
    QuietMarks(s, s');
    hide AllNumbered, Marks;
  }

  lemma SetupLog(s: Sys, q: QueueId, trace: Trace)
    requires LogAgrees(s) && trace.counts == map[] && trace.state == SetUp
    ensures LogAgrees(Attached(s, q, s.next, trace))
  {
    hide Owned;
    var s' := Attached(s, q, s.next, trace);
    QuietMarks(s, s');
    hide Marks;
    forall t, cpu
      ensures Numbered(s', t, cpu)
    {
      assert Numbered(s, t, cpu);
    }
  }

  lemma StartedLog(s: Sys, t: TraceId)
    requires LogAgrees(s) && t in s.traces && t < s.next
    ensures LogAgrees(Started(s, t))
  {
    hide AllNumbered, Marked, NotedOnce, Firsts;
    var s', e := Started(s, t), Time(t, s.hist.starts + 1);
    OtherEntryNumbered(s, e, s');
    OtherEntryMarks(s, e, s');
    OtherEntryFirsts(s, e, s');
    StartedTimes(s, t);
  }

  lemma StartedTimes(s: Sys, t: TraceId)
    requires Times(s) && t in s.traces && t < s.next
    ensures Times(Started(s, t))
  {
    var s', e := Started(s, t), Time(t, s.hist.starts + 1);
    assert s'.log[|s.log|] == e && forall x :: x in s.log ==> x in s'.log;
  }

  lemma StartStopLog(s: Sys, q: QueueId, start: bool)
    requires LogAgrees(s) && (q in s.queues ==> s.queues[q] in s.traces && s.queues[q] < s.next)
    ensures LogAgrees(StartStop(s, q, start))
  {
    hide LogAgrees, Started;
    var s' := StartStop(s, q, start);
    if q in s.queues && start && s.traces[s.queues[q]].state != Running {
      StartedLog(s, s.queues[q]);
    } else {
      QuietKeeps(s, s');
    }
  }

  lemma QueueIsOld(s: Sys, q: QueueId)
    requires Accounts(s) && q in s.queues
    ensures s.queues[q] in s.traces && s.queues[q] < s.next
  {
  }

  lemma RemoveLog(s: Sys, q: QueueId)
    requires LogAgrees(s) && (q in s.queues ==> s.queues[q] in s.traces && s.tree.rootUsers > 0)
    ensures LogAgrees(Remove(s, q))
  {
    hide LogAgrees, Owned;
    QuietKeeps(s, Remove(s, q));
  }

  lemma EventLog(s: Sys, t: TraceId, task: TaskId, cpu: Cpu, room: bool)
    requires LogAgrees(s) && t in s.traces && t < s.next
    ensures LogAgrees(WithEvent(s, t, task, cpu, room))
  {
    if room {
      hide AllNumbered, Marked, NotedOnce, Firsts, CountOn;
      var s' := WithEvent(s, t, task, cpu, true);
      EventNumbered(s, t, task, cpu);
      var e := s'.log[|s.log|];
      OtherEntryMarks(s, e, s');
      OtherEntryFirsts(s, e, s');
      assert forall x :: x in s.log ==> x in s'.log;
    }
  }

  lemma NoteLog(s: Sys, t: TraceId, task: TaskId, kept: bool)
    requires LogAgrees(s)
    ensures LogAgrees(WithNote(Remembered(s, t, task), t, task, kept))
  {
    hide AllNumbered, Marks, Firsts, Times, Mistaken;
    var s0 := Remembered(s, t, task);
    QuietMarks(s, s0);
    NoteMarks(s0, t, task, kept);
    FirstNoted(s, t, task, kept);
    NoteNumbered(s, t, task, kept);
    NoteTimes(s, t, task, kept);
  }

  lemma NoteNumbered(s: Sys, t: TraceId, task: TaskId, kept: bool)
    requires AllNumbered(s)
    ensures AllNumbered(WithNote(Remembered(s, t, task), t, task, kept))
  {
    hide AllNumbered, Mistaken;
    var s' := WithNote(Remembered(s, t, task), t, task, kept);
    if s'.log != s.log {
      OtherEntryNumbered(s, Note(t, task, s.hist.starts, kept), s');
    } else {
      QuietNumbered(s, s');
    }
  }

  lemma NoteTimes(s: Sys, t: TraceId, task: TaskId, kept: bool)
    requires Times(s)
    ensures Times(WithNote(Remembered(s, t, task), t, task, kept))
  {
    hide Mistaken;
    var s' := WithNote(Remembered(s, t, task), t, task, kept);
    assert forall x :: x in s.log ==> x in s'.log;
  }

  lemma RecordLog(s: Sys, t: TraceId, io: Io)
    requires LogAgrees(s) && t in s.traces && t < s.next
    ensures LogAgrees(Record(s, t, io))
  {
    hide LogAgrees, WithEvent, Takes, NotedAt, WithFirst;
    NoteLog(s, t, io.task, io.noteRoom);
    EventLog(WithNote(Remembered(s, t, io.task), t, io.task, io.noteRoom), t, io.task, io.cpu, io.room);
  }

  lemma StepInv(s: Sys, l: Label)
    requires Inv(s) && Enabled(s, l)
    ensures Inv(Apply(s, l))
  {
    hide Accounts, LogAgrees, StartStop, Remove, Record, Attached;
    match l
    case DoSetup(q, trace) =>
      AttachedKeeps(s, q, trace);
      SetupLog(s, q, trace);
    case DoStartStop(q, start) => StartStopInv(s, q, start);
    case DoRemove(q) =>
      RemoveKeeps(s, q);
      RemoveLog(s, q);
    case DoShutdown(q) =>
      ShutdownKeeps(s, q);
      StartStopInv(s, q, false);
      RemoveKeeps(StartStop(s, q, false), q);
      RemoveLog(StartStop(s, q, false), q);
    case DoRecord(t, io) =>
      RecordKeeps(s, t, io);
      TraceIsOld(s, t);
      RecordLog(s, t, io);
  }

  lemma StartStopInv(s: Sys, q: QueueId, start: bool)
    requires Inv(s)
    ensures q in s.queues ==> s.queues[q] in s.traces
    ensures Inv(StartStop(s, q, start))
  {
    hide Accounts, LogAgrees, StartStop;
    if q in s.queues {
      QueueIsOld(s, q);
    }
    StartStopKeeps(s, q, start);
    StartStopLog(s, q, start);
  }

  lemma TraceIsOld(s: Sys, t: TraceId)
    requires Accounts(s) && t in s.traces
    ensures t < s.next
  {
    assert t in s.traces.Keys;
  }

  lemma InvAtStart()
    ensures Inv(Initial())
  {
    assert Dirs(Initial().tree) == {};
  }

  function Before(ls: seq<Label>): seq<Label>
    requires ls != []
  {
    ls[..|ls| - 1]
  }

  function Last(ls: seq<Label>): Label
    requires ls != []
  {
    ls[|ls| - 1]
  }

  /** A run from the initial state. */
  ghost predicate Possible(ls: seq<Label>)
    decreases |ls|, 0
  {
    ls == [] || (Possible(Before(ls)) && Enabled(Reached(Before(ls)), Last(ls)))
  }

  ghost function Reached(ls: seq<Label>): (s: Sys)
    requires Possible(ls)
    ensures Inv(s)
    decreases |ls|, 1
  {
    if ls == [] then InvAtStart(); Initial()
    else
      var s := Reached(Before(ls));
      StepInv(s, Last(ls));
      Apply(s, Last(ls))
  }

  lemma RunStep(ls: seq<Label>)
    requires ls != [] && Possible(ls)
    ensures Possible(Before(ls)) && Enabled(Reached(Before(ls)), Last(ls))
    ensures Reached(ls) == Apply(Reached(Before(ls)), Last(ls))
  {
  }

  // ----- after any run -----

  /** Per trace and processor the recorded numbers are 1, 2, 3, ... */
  lemma GaplessNumbers(ls: seq<Label>, t: TraceId, cpu: Cpu)
    requires Possible(ls)
    ensures var ns := Numbers(Reached(ls).log, t, cpu);
            && (ns != [] ==> ns[0] == 1)
            && forall i :: 0 < i < |ns| ==> ns[i] == (ns[i - 1] + 1) % 0x1_0000_0000
  {
    hide Reached, Accounts, Marks, Firsts, Times, Numbers;
    assert Numbered(Reached(ls), t, cpu);
    var ns := Numbers(Reached(ls).log, t, cpu);
    forall i | 0 < i < |ns|
      ensures ns[i] == (ns[i - 1] + 1) % WRAP
    {
      NextRemainder(i);
      assert UpTo(|ns|)[i] == (i + 1) % WRAP && UpTo(|ns|)[i - 1] == i % WRAP;
    }
  }

  /** The start number kept for a trace is that of the last time stamp in its channel. */
  lemma StartIsStamped(ls: seq<Label>, t: TraceId)
    requires Possible(ls) && t in Reached(ls).traces && Reached(ls).traces[t].state == Running
    ensures var s := Reached(ls);
            && Time(t, StartOf(s.hist, t)) in s.log
            && forall i :: 0 <= i < |s.log| && s.log[i].Time? && s.log[i].trace == t ==> s.log[i].start <= StartOf(s.hist, t)
  {
    hide Reached, Accounts, Marks, Firsts, AllNumbered;
    assert Times(Reached(ls));
  }

  /** What a step other than recording does to the log. */
  lemma OtherStepLog(s: Sys, l: Label)
    requires Accounts(s) && Enabled(s, l) && !l.DoRecord?
    ensures var s' := Apply(s, l);
            || (s'.log == s.log && s'.hist == s.hist)
            || (s'.hist.starts == s.hist.starts + 1 && exists t :: s'.log == s.log + [Time(t, s'.hist.starts)])
  {
    hide Accounts, Owned;
    if l.DoStartStop? {
      StartStopKeeps(s, l.q, l.start);
    } else if l.DoShutdown? {
      ShutdownKeeps(s, l.q);
    } else if l.DoRemove? {
      RemoveKeeps(s, l.q);
    }
  }

  lemma RecordAnnounced(s: Sys, t: TraceId, io: Io)
    requires Marks(s) && t in s.traces && Announced(s.log) && Takes(s, t, io)
    ensures Announced(Record(s, t, io).log) <==> (io.room ==> !Mistaken(s.hist, io.task))
  {
    var s0 := Remembered(s, t, io.task);
    QuietMarks(s, s0);
    NotedIff(s0, t, io.task, io.noteRoom);
    hide Marks, Takes, NotedAt, Mistaken, NotedIn, Announced, CountOn, StartOf;
    var s1 := WithNote(s0, t, io.task, io.noteRoom);
    var s2 := WithEvent(s1, t, io.task, io.cpu, io.room);
    assert s2 == Record(s, t, io);
    MistakenSame(s.hist, t, io.task);
    if s1.log != s.log {
      AnnouncedMore(s.log, Note(t, io.task, s.hist.starts, io.noteRoom));
    }
    if io.room {
      AnnouncedMore(s1.log, s2.log[|s1.log|]);
    }
  }

  lemma MistakenSame(h: History, t: TraceId, task: TaskId)
    ensures Mistaken(WithFirst(h, t, task), task) == Mistaken(h, task)
  {
  }

  /** In any state a run reaches: an event is written after a note for its task, to some trace, since the same
      start, exactly if the number of starts since the process's last note, or since 1 before the first for a
      task without note, is not a positive multiple of 2^32. */
  lemma EventAnnouncedIff(ls: seq<Label>, t: TraceId, io: Io)
    requires Possible(ls) && Announced(Reached(ls).log)
    requires t in Reached(ls).traces && Takes(Reached(ls), t, io) && io.room
    ensures Announced(Record(Reached(ls), t, io).log) <==> !Mistaken(Reached(ls).hist, io.task)
  {
    hide Reached, Accounts, Record, Mistaken, Takes, Announced, AllNumbered, Firsts, Times, Marks;
    RecordAnnounced(Reached(ls), t, io);
  }

  lemma {:induction false} RunAnnounced(ls: seq<Label>)
    requires Possible(ls) && 1 + Reached(ls).hist.starts < WRAP
    ensures Announced(Reached(ls).log)
    decreases |ls|
  {
    if ls != [] {
      RunStep(ls);
      var s, l := Reached(Before(ls)), Last(ls);
      hide Reached, Accounts, AllNumbered, Firsts, Times, Announced, Marks;
      StepGrows(s, l);
      RunAnnounced(Before(ls));
      if l.DoRecord? {
        NoWrapNoMistake(s.hist, l.io.task);
        hide Takes, Mistaken, Record;
        if Takes(s, l.t, l.io) {
          RecordAnnounced(s, l.t, l.io);
        } else {
          assert Record(s, l.t, l.io) == s by { NotTaken(s, l.t, l.io); }
        }
      } else {
        OtherStepLog(s, l);
        hide Apply;
        var s' := Apply(s, l);
        if s'.log != s.log {
          var t :| s'.log == s.log + [Time(t, s'.hist.starts)];
          AnnouncedMore(s.log, Time(t, s'.hist.starts));
        }
      }
    }
  }

  lemma NotTaken(s: Sys, t: TraceId, io: Io)
    requires t in s.traces && !Takes(s, t, io)
    ensures Record(s, t, io) == s
  {
  }

  lemma StepGrows(s: Sys, l: Label)
    requires Accounts(s) && Enabled(s, l)
    ensures s.hist.starts <= Apply(s, l).hist.starts
  {
    hide Accounts;
    if l.DoRecord? {
      hide Takes, NotedAt, Mistaken;
    } else {
      OtherStepLog(s, l);
    }
  }

  /** A process gets at most one process note per start of a trace, and, until the counter wraps, gets it, in some
      trace, before its first event since that start. */
  lemma NotesOnceAndFirst(ls: seq<Label>)
    requires Possible(ls)
    ensures NotedOnce(Reached(ls))
    ensures 1 + Reached(ls).hist.starts < WRAP ==> Announced(Reached(ls).log)
  {
    hide Reached, Accounts, AllNumbered, Firsts, Times, Announced;
    assert Marks(Reached(ls));
    hide Marks;
    if 1 + Reached(ls).hist.starts < WRAP {
      RunAnnounced(ls);
    }
  }

  // ----- a wrapped counter loses notes -----

  lemma OneMore(ls: seq<Label>, l: Label)
    requires Possible(ls) && Enabled(Reached(ls), l)
    ensures Possible(ls + [l]) && Reached(ls + [l]) == Apply(Reached(ls), l)
  {
    assert Before(ls + [l]) == ls && Last(ls + [l]) == l;
  }

  lemma Nothing()
    ensures Possible([]) && Reached([]) == Initial()
  {
  }

  lemma FirstSetup(q: QueueId, a: Trace)
    ensures Initial().next == 0 && Initial().queues == map[]
    ensures Attached(Initial(), q, 0, a).next == 1 && Attached(Initial(), q, 0, a).queues == map[q := 0]
  {
    hide Owned;
  }

  /** Set up a trace, then start and stop it `k` times. */
  function CycleRun(q: QueueId, trace: Trace, k: nat): seq<Label> {
    if k == 0 then [DoSetup(q, trace)]
    else CycleRun(q, trace, k - 1) + [DoStartStop(q, true)] + [DoStartStop(q, false)]
  }

  /** Trace 0 belongs to the queue and is not running, there were `k` starts, and no task has acted. */
  ghost predicate Idle(s: Sys, q: QueueId, trace: Trace, k: nat) {
    && s.queues == map[q := 0] && 0 in s.traces && s.traces[0].state != Running
    && s.traces[0] == trace.(state := s.traces[0].state)
    && s.hist.starts == k && s.hist.last == map[]
    && forall i :: 0 <= i < |s.log| ==> s.log[i].Time?
  }

  lemma OneCycle(s: Sys, q: QueueId, trace: Trace, k: nat)
    requires Idle(s, q, trace, k)
    ensures var on := StartStop(s, q, true);
            && on.queues == s.queues && 0 in on.traces && on.traces[0] == trace.(state := Running)
            && on.hist.starts == k + 1 && on.hist.last == map[] && (forall i :: 0 <= i < |on.log| ==> on.log[i].Time?)
            && Idle(StartStop(on, q, false), q, trace, k + 1)
  {
  }

  lemma SetupIdle(q: QueueId, trace: Trace)
    requires trace.state == SetUp
    ensures Idle(Attached(Initial(), q, 0, trace), q, trace, 0)
  {
    hide Owned;
  }

  lemma {:induction false} CyclesCount(q: QueueId, trace: Trace, k: nat)
    requires trace.state == SetUp && trace.counts == map[]
    ensures Possible(CycleRun(q, trace, k)) && Idle(Reached(CycleRun(q, trace, k)), q, trace, k)
    decreases k
  {
    hide Possible, Reached, Inv, Accounts, StartStop, Attached, Idle;
    if k == 0 {
      Nothing();
      FirstSetup(q, trace);
      SetupIdle(q, trace);
      OneMore([], DoSetup(q, trace));
      assert [] + [DoSetup(q, trace)] == [DoSetup(q, trace)];
    } else {
      CyclesCount(q, trace, k - 1);
      var ls := CycleRun(q, trace, k - 1);
      OneCycle(Reached(ls), q, trace, k - 1);
      OneMore(ls, DoStartStop(q, true));
      OneMore(ls + [DoStartStop(q, true)], DoStartStop(q, false));
    }
  }

  /** A run that ends in an event of a process that no trace has named: the start before it brings the 32-bit
      counter to 0, which is the mark of a process without note. */
  lemma WrapMisses(q: QueueId, trace: Trace, k: nat, io: Io)
    requires trace.state == SetUp && trace.counts == map[] && (k + 2) % WRAP == 0
    requires !Filtered(trace, io.what, io.sector, io.pid) && io.room
    ensures var ls := CycleRun(q, trace, k) + [DoStartStop(q, true)] + [DoRecord(0, io)];
            Possible(ls) && !Announced(Reached(ls).log)
  {
    hide Possible, Reached, Inv, Accounts, StartStop, CycleRun, Idle, Announced, NotedIn;
    var ls := CycleRun(q, trace, k);
    CyclesCount(q, trace, k);
    OneCycle(Reached(ls), q, trace, k);
    OneMore(ls, DoStartStop(q, true));
    var on := ls + [DoStartStop(q, true)];
    var s := Reached(on);
    assert Takes(s, 0, io) by { SameFilter(trace, io, Running); }
    assert Mistaken(s.hist, io.task);
    NoEventsAnnounced(s.log);
    EventAnnouncedIff(on, 0, io);
    OneMore(on, DoRecord(0, io));
  }

  lemma NoEventsAnnounced(log: seq<Entry>)
    requires forall i :: 0 <= i < |log| ==> log[i].Time?
    ensures Announced(log)
  {
  }

  lemma SameFilter(b: Trace, io: Io, state: TraceState)
    ensures Filtered(b.(state := state), io.what, io.sector, io.pid) == Filtered(b, io.what, io.sector, io.pid)
  {
  }
}
