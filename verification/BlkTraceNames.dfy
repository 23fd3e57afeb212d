/**
 Whether the reader of one trace can tell which process an event belongs to
 (linux-2.6.24.3/block/blktrace.c).  A process's mark and the counter it is compared with are shared by all
 traces, while a process note goes to one trace only.
 */
module BlkTraceNames {
  import opened BlkTrace
  import opened BlkTraceLog

  /** Trace `t` itself has a note for the process, written at start number `since` or later. */
  ghost predicate NotedInTrace(log: seq<Entry>, t: TraceId, task: TaskId, since: nat) {
    exists i :: 0 <= i < |log| && log[i].Note? && log[i].trace == t && log[i].task == task && log[i].start >= since
  }

  /** Every event comes after a note for its task in its own trace, since that trace was last started. */
  ghost predicate NamedInTrace(log: seq<Entry>) {
    forall i :: 0 <= i < |log| && log[i].Event? ==> NotedInTrace(log[..i], log[i].trace, log[i].task, log[i].since)
  }

  /** After some start since start number `since`, the process acted on trace `t` first, with a mark out of date. */
  ghost predicate Chosen(h: History, t: TraceId, task: TaskId, since: nat) {
    exists k :: k in h.first && k.task == task && k.start >= since && h.first[k] == First(t, false)
  }

  lemma NotedInTraceIff(s: Sys, t: TraceId, task: TaskId, since: nat)
    requires Firsts(s)
    ensures NotedInTrace(s.log, t, task, since) <==> Chosen(s.hist, t, task, since)
  {
    if NotedInTrace(s.log, t, task, since) {
      var i :| 0 <= i < |s.log| && s.log[i].Note? && s.log[i].trace == t && s.log[i].task == task
               && s.log[i].start >= since;
      assert Turn(s.log[i].task, s.log[i].start) in s.hist.first;
    }
    if Chosen(s.hist, t, task, since) {
      var k :| k in s.hist.first && k.task == task && k.start >= since && s.hist.first[k] == First(t, false);
      assert NoteOf(s.log, k, t);
      var i :| 0 <= i < |s.log| && s.log[i].Note? && s.log[i].task == k.task && s.log[i].start == k.start
               && s.log[i].trace == t;
    }
  }

  /** The action about to be recorded counts as chosen if it is the first since the last start of any trace. */
  lemma ChosenNow(h: History, t: TraceId, task: TaskId, since: nat)
    requires since <= h.starts
    ensures Chosen(WithFirst(h, t, task), t, task, since) <==>
            (Turn(task, h.starts) !in h.first && !Mistaken(h, task)) || Chosen(h, t, task, since)
  {
    var k, h' := Turn(task, h.starts), WithFirst(h, t, task);
    if k !in h.first && !Mistaken(h, task) {
      assert k in h'.first && h'.first[k] == First(t, false);
    }
    if Chosen(h, t, task, since) {
      var x :| x in h.first && x.task == task && x.start >= since && h.first[x] == First(t, false);
      assert x in h'.first && h'.first[x] == First(t, false);
    }
  }

  lemma NamedMore(log: seq<Entry>, e: Entry)
    requires NamedInTrace(log)
    ensures NamedInTrace(log + [e]) <==> (e.Event? ==> NotedInTrace(log, e.trace, e.task, e.since))
  {
    var more := log + [e];
    assert more[..|log|] == log;
    forall i | 0 <= i < |log| && more[i].Event?
      ensures NotedInTrace(more[..i], more[i].trace, more[i].task, more[i].since)
    {
      assert more[..i] == log[..i];
    }
  }

  /** Exactly when an event is named in its own trace: the process acts for the first time since the last start
      of any trace, with a mark out of date, or it did so on this trace after an earlier start, but since
      this trace was started. */
  lemma NamedIff(s: Sys, t: TraceId, io: Io)
    requires LogAgrees(s) && t in s.traces && Takes(s, t, io) && NamedInTrace(s.log)
    ensures NamedInTrace(Record(s, t, io).log) <==>
            (io.room ==>
               || (Turn(io.task, s.hist.starts) !in s.hist.first && !Mistaken(s.hist, io.task))
               || Chosen(s.hist, t, io.task, StartOf(s.hist, t)))
  {
    hide LogAgrees, Takes, Mistaken, NotedInTrace, NamedInTrace, Chosen, NotedAt, CountOn;
    var since := StartOf(s.hist, t);
    StartIsPast(s, t);
    NoteLog(s, t, io.task, io.noteRoom);
    ChosenNow(s.hist, t, io.task, since);
    var s1 := WithNote(Remembered(s, t, io.task), t, io.task, io.noteRoom);
    NamedAgrees(s1, t, io.task, since);
    if s1.log != s.log {
      NamedMore(s.log, Note(t, io.task, s.hist.starts, io.noteRoom));
    }
    var s2 := WithEvent(s1, t, io.task, io.cpu, io.room);
    assert s2 == Record(s, t, io) && StartOf(s1.hist, t) == since;
    assert s1.hist.first == WithFirst(s.hist, t, io.task).first;
    SameFirst(s1.hist, WithFirst(s.hist, t, io.task), t, io.task, since);
    if io.room {
      NamedMore(s1.log, s2.log[|s1.log|]);
    }
  }

  lemma StartIsPast(s: Sys, t: TraceId)
    requires LogAgrees(s)
    ensures StartOf(s.hist, t) <= s.hist.starts
  {
    hide AllNumbered, Marks, Firsts;
  }

  lemma SameFirst(a: History, b: History, t: TraceId, task: TaskId, since: nat)
    requires a.first == b.first
    ensures Chosen(a, t, task, since) == Chosen(b, t, task, since)
  {
  }

  lemma NamedAgrees(s: Sys, t: TraceId, task: TaskId, since: nat)
    requires LogAgrees(s)
    ensures NotedInTrace(s.log, t, task, since) <==> Chosen(s.hist, t, task, since)
  {
    hide AllNumbered, Marks, Times, Firsts, NotedInTrace, Chosen;
    NotedInTraceIff(s, t, task, since);
  }

  /** The same in any state that a run reaches. */
  lemma EventNamedIff(ls: seq<Label>, t: TraceId, io: Io)
    requires Possible(ls) && NamedInTrace(Reached(ls).log)
    requires t in Reached(ls).traces && Takes(Reached(ls), t, io) && io.room
    ensures var s := Reached(ls);
            NamedInTrace(Record(s, t, io).log) <==>
              || (Turn(io.task, s.hist.starts) !in s.hist.first && !Mistaken(s.hist, io.task))
              || Chosen(s.hist, t, io.task, StartOf(s.hist, t))
  {
    hide Reached, Accounts, LogAgrees, Record, Mistaken, Takes, NamedInTrace, Chosen, StartOf;
    NamedIff(Reached(ls), t, io);
  }

  // ----- one running trace -----

  ghost predicate AtMostOne(s: Sys) {
    forall a, b :: a in s.traces && b in s.traces && s.traces[a].state == Running && s.traces[b].state == Running ==> a == b
  }

  /** At no time are two traces running. */
  ghost predicate OneAtATime(ls: seq<Label>)
    requires Possible(ls)
    decreases |ls|
  {
    AtMostOne(Reached(ls)) && (ls != [] ==> OneAtATime(Before(ls)))
  }

  /** A running trace is the one last started, and nobody has acted on another since. */
  ghost predicate Sole(s: Sys) {
    forall t :: t in s.traces && s.traces[t].state == Running ==>
      && t in s.hist.started && s.hist.started[t] == s.hist.starts
      && forall k :: k in s.hist.first && k.start == s.hist.starts ==> s.hist.first[k].trace == t
  }

  /** No trace runs that did not, and the history is as it was. */
  lemma SoleQuiet(s: Sys, s': Sys)
    requires Sole(s) && s'.hist == s.hist
    requires forall t :: t in s'.traces && s'.traces[t].state == Running ==> t in s.traces && s.traces[t].state == Running
    ensures Sole(s')
  {
  }

  lemma SoleStarted(s: Sys, t: TraceId)
    requires TurnsPast(s) && t in s.traces && AtMostOne(Started(s, t))
    ensures Sole(Started(s, t))
  {
    var s' := Started(s, t);
    assert s'.traces[t].state == Running;
  }

  lemma SoleActed(s: Sys, t: TraceId, io: Io)
    requires Sole(s) && AtMostOne(s) && t in s.traces && s.traces[t].state == Running
    ensures Sole(Acted(s, t, io))
  {
    hide Mistaken, CountOn, NotedAt, StartOf;
    var s', k := Acted(s, t, io), Turn(io.task, s.hist.starts);
    assert s'.hist.starts == s.hist.starts && s'.hist.started == s.hist.started;
    assert forall x :: x in s'.hist.first ==>
      (x in s.hist.first && s'.hist.first[x] == s.hist.first[x]) || (x == k && s'.hist.first[k].trace == t);
    assert forall x :: x in s'.traces ==> x in s.traces && s'.traces[x].state == s.traces[x].state;
  }

  lemma SoleStartStop(s: Sys, q: QueueId, start: bool)
    requires Sole(s) && TurnsPast(s) && (q in s.queues ==> s.queues[q] in s.traces) && AtMostOne(StartStop(s, q, start))
    ensures Sole(StartStop(s, q, start))
  {
    hide Sole, AtMostOne, TurnsPast;
    if q in s.queues && start && s.traces[s.queues[q]].state != Running {
      hide Started;
      SoleStarted(s, s.queues[q]);
    } else {
      SoleQuiet(s, StartStop(s, q, start));
    }
  }

  lemma SoleStopped(s: Sys, q: QueueId)
    requires Sole(s) && (q in s.queues ==> s.queues[q] in s.traces)
    ensures Sole(StartStop(s, q, false))
  {
    hide Sole;
    SoleQuiet(s, StartStop(s, q, false));
  }

  lemma SoleRemoved(s: Sys, q: QueueId)
    requires Sole(s) && (q in s.queues ==> s.queues[q] in s.traces && s.tree.rootUsers > 0)
    ensures Sole(Remove(s, q))
  {
    hide Sole, Owned;
    SoleQuiet(s, Remove(s, q));
  }

  lemma SoleSetUp(s: Sys, q: QueueId, trace: Trace)
    requires Sole(s) && trace.state == SetUp
    ensures Sole(Attached(s, q, s.next, trace))
  {
    hide Sole, Owned;
    SoleQuiet(s, Attached(s, q, s.next, trace));
  }

  lemma TurnsArePast(s: Sys)
    requires Inv(s)
    ensures Accounts(s) && TurnsPast(s)
  {
  }

  lemma SoleStep(s: Sys, l: Label)
    requires Inv(s) && Enabled(s, l) && Sole(s) && AtMostOne(s) && AtMostOne(Apply(s, l))
    ensures Sole(Apply(s, l))
  {
    hide Inv, Accounts, Sole, AtMostOne, TurnsPast, StartStop, Remove, Attached, Acted;
    TurnsArePast(s);
    match l
    case DoSetup(q, trace) => SoleSetUp(s, q, trace);
    case DoStartStop(q, start) =>
      StartStopKeeps(s, q, start);
      SoleStartStop(s, q, start);
    case DoRemove(q) =>
      RemoveKeeps(s, q);
      SoleRemoved(s, q);
    case DoShutdown(q) =>
      ShutdownKeeps(s, q);
      SoleStopped(s, q);
      StartStopKeeps(s, q, false);
      RemoveKeeps(StartStop(s, q, false), q);
      SoleRemoved(StartStop(s, q, false), q);
    case DoRecord(t, io) =>
      if Takes(s, t, io) {
        SoleActed(s, t, io);
      }
  }

  /** While only one trace runs, it has been chosen by every task that acts. */
  lemma SoleChosen(s: Sys, t: TraceId, task: TaskId)
    requires LogAgrees(s) && Sole(s) && t in s.traces && s.traces[t].state == Running && 1 + s.hist.starts < WRAP
    ensures || (Turn(task, s.hist.starts) !in s.hist.first && !Mistaken(s.hist, task))
            || Chosen(s.hist, t, task, StartOf(s.hist, t))
  {
    var k := Turn(task, s.hist.starts);
    NoWrapNoMistake(s.hist, task);
    hide Mistaken;
    if k in s.hist.first {
      assert s.hist.first[k] == First(t, false);
    }
  }

  lemma NamedStep(s: Sys, l: Label)
    requires Inv(s) && Enabled(s, l) && Sole(s) && NamedInTrace(s.log) && 1 + s.hist.starts < WRAP
    ensures NamedInTrace(Apply(s, l).log)
  {
    hide Accounts, LogAgrees, Sole, NamedInTrace, Owned, Mistaken, Chosen, StartOf;
    if l.DoRecord? {
      hide Acted;
      if Takes(s, l.t, l.io) {
        SoleChosen(s, l.t, l.io.task);
        NamedIff(s, l.t, l.io);
      }
    } else {
      OtherStepLog(s, l);
      hide Apply;
      var s' := Apply(s, l);
      if s'.log != s.log {
        var t :| s'.log == s.log + [Time(t, s'.hist.starts)];
        NamedMore(s.log, Time(t, s'.hist.starts));
      }
    }
  }

  /** If two traces never run at the same time, every event is named in its own trace, until the counter wraps. */
  lemma {:induction false} OneTraceNamed(ls: seq<Label>)
    requires Possible(ls) && OneAtATime(ls) && 1 + Reached(ls).hist.starts < WRAP
    ensures NamedInTrace(Reached(ls).log) && Sole(Reached(ls))
    decreases |ls|
  {
    if ls != [] {
      RunStep(ls);
      var s, l := Reached(Before(ls)), Last(ls);
      hide Reached, Inv, Accounts, Sole, AtMostOne, NamedInTrace;
      InvMeans(s);
      StepGrows(s, l);
      OneTraceNamed(Before(ls));
      hide Apply;
      SoleStep(s, l);
      NamedStep(s, l);
    }
  }

  lemma InvMeans(s: Sys)
    requires Inv(s)
    ensures Accounts(s)
  {
  }

  // ----- two running traces -----

  /** Later entries do not name earlier events. */
  lemma NamedPrefix(log: seq<Entry>, more: seq<Entry>)
    requires log <= more && NamedInTrace(more)
    ensures NamedInTrace(log)
  {
    forall i | 0 <= i < |log| && log[i].Event?
      ensures NotedInTrace(log[..i], log[i].trace, log[i].task, log[i].since)
    {
      assert log[..i] == more[..i] && log[i] == more[i];
    }
  }

  /** An action on trace `b` ends the turn for every other trace. */
  lemma ChosenElsewhere(h: History, a: TraceId, b: TraceId, task: TaskId, since: nat)
    requires a != b
    ensures Chosen(WithFirst(h, b, task), a, task, since) <==> Chosen(h, a, task, since)
  {
    var k, h' := Turn(task, h.starts), WithFirst(h, b, task);
    if Chosen(h, a, task, since) {
      var x :| x in h.first && x.task == task && x.start >= since && h.first[x] == First(a, false);
      assert x in h'.first && h'.first[x] == First(a, false);
    }
    if Chosen(h', a, task, since) {
      var x :| x in h'.first && x.task == task && x.start >= since && h'.first[x] == First(a, false);
      assert x != k || k in h.first;
    }
  }

  lemma AfterRecord(s: Sys, a: TraceId, b: TraceId, io: Io, since: nat)
    requires a != b && a in s.traces && b in s.traces && Takes(s, b, io)
    ensures var s1 := Record(s, b, io);
            && a in s1.traces && s1.traces[a] == s.traces[a]
            && s1.hist.starts == s.hist.starts && s1.hist.started == s.hist.started
            && Turn(io.task, s1.hist.starts) in s1.hist.first
            && (Chosen(s1.hist, a, io.task, since) <==> Chosen(s.hist, a, io.task, since))
  {
    ChosenElsewhere(s.hist, a, b, io.task, since);
    hide Takes, Chosen, Mistaken, NotedAt, CountOn, StartOf;
    var s1 := Record(s, b, io);
    assert s1.hist.first == WithFirst(s.hist, b, io.task).first;
    SameFirst(s1.hist, WithFirst(s.hist, b, io.task), a, io.task, since);
  }

  /** The condition of `OneTraceNamed` cannot be relaxed: in any state with two running traces, a process that acts
      on one and then on the other leaves its second event without a name, unless that trace was chosen by
      the process before. */
  lemma TwoRunning(ls: seq<Label>, a: TraceId, b: TraceId, ioB: Io, ioA: Io)
    requires Possible(ls) && a != b && a in Reached(ls).traces && b in Reached(ls).traces
    requires Takes(Reached(ls), a, ioA) && Takes(Reached(ls), b, ioB) && ioA.task == ioB.task && ioA.room
    requires !Chosen(Reached(ls).hist, a, ioA.task, StartOf(Reached(ls).hist, a))
    ensures Possible(ls + [DoRecord(b, ioB)] + [DoRecord(a, ioA)])
    ensures !NamedInTrace(Reached(ls + [DoRecord(b, ioB)] + [DoRecord(a, ioA)]).log)
  {
    hide Possible, Reached, Inv, Accounts, LogAgrees, Record, Chosen, NamedInTrace, Filtered, StartStop, Attached, Remove,
         Mistaken;
    var s := Reached(ls);
    AfterRecord(s, a, b, ioB, StartOf(s.hist, a));
    OneMore(ls, DoRecord(b, ioB));
    var mid := ls + [DoRecord(b, ioB)];
    OneMore(mid, DoRecord(a, ioA));
    var s1 := Reached(mid);
    if NamedInTrace(s1.log) {
      EventNamedIff(mid, a, ioA);
    } else if NamedInTrace(Record(s1, a, ioA).log) {
      LogGrows(s1, a, ioA);
      NamedPrefix(s1.log, Record(s1, a, ioA).log);
    }
  }

  lemma LogGrows(s: Sys, t: TraceId, io: Io)
    requires t in s.traces
    ensures s.log <= Record(s, t, io).log
  {
    hide Takes, NotedAt, CountOn, Mistaken, StartOf;
  }

  /** Two queues are set up and both traces started. */
  function BothRunning(q0: QueueId, q1: QueueId, a: Trace, b: Trace): seq<Label> {
    [DoSetup(q0, a), DoSetup(q1, b), DoStartStop(q0, true), DoStartStop(q1, true)]
  }

  ghost predicate TwoTracesOf(s: Sys, q0: QueueId, q1: QueueId, a: Trace, b: Trace, starts: nat) {
    && s.traces == map[0 := a, 1 := b] && s.queues == map[q0 := 0, q1 := 1]
    && s.hist.starts == starts && s.hist.last == map[] && s.hist.first == map[]
    && s.counter == starts + 1 && s.noted == map[]
  }

  lemma TwoSetups(q0: QueueId, q1: QueueId, a: Trace, b: Trace)
    requires q0 != q1
    ensures var s := Attached(Attached(Initial(), q0, 0, a), q1, 1, b);
            TwoTracesOf(s, q0, q1, a, b, 0) && s.log == [] && s.hist.started == map[]
  {
    hide Owned;
  }

  lemma TwoStarts(s: Sys, q0: QueueId, q1: QueueId, a: Trace, b: Trace)
    requires q0 != q1 && a.state == SetUp == b.state
    requires TwoTracesOf(s, q0, q1, a, b, 0) && s.log == [] && s.hist.started == map[]
    ensures var s1 := StartStop(s, q0, true);
            && q0 in s.queues && s.queues[q0] in s.traces && q1 in s1.queues && s1.queues[q1] in s1.traces
            && var s2 := StartStop(s1, q1, true);
               TwoTracesOf(s2, q0, q1, a.(state := Running), b.(state := Running), 2)
               && s2.log == [Time(0, 1), Time(1, 2)] && s2.hist.started == map[0 := 1, 1 := 2]
  {
    var s1 := StartStop(s, q0, true);
    assert s1 == Started(s, 0);
    assert s1.traces == map[0 := a.(state := Running), 1 := b] && s1.log == [Time(0, 1)];
    var s2 := StartStop(s1, q1, true);
    assert s2 == Started(s1, 1);
  }

  lemma BothAreSetUp(q0: QueueId, q1: QueueId, a: Trace, b: Trace)
    requires q0 != q1 && a.state == SetUp == b.state && a.counts == map[] == b.counts
    ensures Possible([DoSetup(q0, a), DoSetup(q1, b)])
    ensures Reached([DoSetup(q0, a), DoSetup(q1, b)]) == Attached(Attached(Initial(), q0, 0, a), q1, 1, b)
  {
    hide Possible, Reached, Accounts, Attached, Inv, Initial;
    Nothing();
    FirstSetup(q0, a);
    OneMore([], DoSetup(q0, a));
    assert [] + [DoSetup(q0, a)] == [DoSetup(q0, a)];
    OneMore([DoSetup(q0, a)], DoSetup(q1, b));
    assert [DoSetup(q0, a)] + [DoSetup(q1, b)] == [DoSetup(q0, a), DoSetup(q1, b)];
  }

  lemma BothAreRunning(q0: QueueId, q1: QueueId, a: Trace, b: Trace)
    requires q0 != q1 && a.state == SetUp == b.state && a.counts == map[] == b.counts
    ensures Possible(BothRunning(q0, q1, a, b))
    ensures var s := Reached(BothRunning(q0, q1, a, b));
            && TwoTracesOf(s, q0, q1, a.(state := Running), b.(state := Running), 2)
            && s.log == [Time(0, 1), Time(1, 2)] && s.hist.started == map[0 := 1, 1 := 2]
  {
    hide Possible, Reached, Accounts, Attached, StartStop, Inv, TwoTracesOf, Initial;
    BothAreSetUp(q0, q1, a, b);
    TwoSetups(q0, q1, a, b);
    var two := [DoSetup(q0, a), DoSetup(q1, b)];
    TwoStarts(Reached(two), q0, q1, a, b);
    OneMore(two, DoStartStop(q0, true));
    OneMore(two + [DoStartStop(q0, true)], DoStartStop(q1, true));
    assert two + [DoStartStop(q0, true)] + [DoStartStop(q1, true)] == BothRunning(q0, q1, a, b);
  }

  /** Two running traces and two starts: a process that acts on one trace first gets its note there, and the other
      trace has an event of a process that it never names. */
  lemma TwoTraces(q0: QueueId, q1: QueueId, a: Trace, b: Trace, io0: Io, io1: Io)
    requires q0 != q1 && a.state == SetUp == b.state && a.counts == map[] == b.counts
    requires io0.task == io1.task && io0.room
    requires !Filtered(a, io0.what, io0.sector, io0.pid) && !Filtered(b, io1.what, io1.sector, io1.pid)
    ensures var ls := BothRunning(q0, q1, a, b) + [DoRecord(1, io1), DoRecord(0, io0)];
            && Possible(ls) && Reached(ls).hist.starts == 2
            && Announced(Reached(ls).log) && !NamedInTrace(Reached(ls).log)
            && forall i :: 0 <= i < |Reached(ls).log| && Reached(ls).log[i].Note? ==> Reached(ls).log[i].trace != 0
  {
    hide Possible, Reached, Inv, Accounts, Announced, NamedInTrace, Record, StartStop, Attached;
    var both := BothRunning(q0, q1, a, b);
    BothAreRunning(q0, q1, a, b);
    var s := Reached(both);
    SameFilter(a, io0, Running);
    SameFilter(b, io1, Running);
    TwoTracesLog(s, q0, q1, a.(state := Running), b.(state := Running), io0, io1);
    OneMore(both, DoRecord(1, io1));
    OneMore(both + [DoRecord(1, io1)], DoRecord(0, io0));
    var ls := both + [DoRecord(1, io1), DoRecord(0, io0)];
    assert both + [DoRecord(1, io1)] + [DoRecord(0, io0)] == ls;
    RunAnnounced(ls);
  }

  lemma TwoTracesLog(s: Sys, q0: QueueId, q1: QueueId, a: Trace, b: Trace, io0: Io, io1: Io)
    requires q0 != q1 && TwoTracesOf(s, q0, q1, a, b, 2) && a.state == Running == b.state
    requires !Filtered(a, io0.what, io0.sector, io0.pid) && !Filtered(b, io1.what, io1.sector, io1.pid)
    requires io0.task == io1.task && io0.room && s.log == [Time(0, 1), Time(1, 2)]
    ensures 0 in Record(s, 1, io1).traces
    ensures var s2 := Record(Record(s, 1, io1), 0, io0);
            && s2.hist.starts == 2 && !NamedInTrace(s2.log)
            && forall i :: 0 <= i < |s2.log| && s2.log[i].Note? ==> s2.log[i].trace != 0
  {
    hide CountOn, Filtered, StartOf;
    var s1 := Record(s, 1, io1);
    var e := Note(1, io1.task, 2, io1.noteRoom);
    assert s1.noted == map[io1.task := 3] && s1.hist.starts == 2;
    assert s1.log == if io1.room then s.log + [e] + [s1.log[3]] else s.log + [e];
    assert forall i :: 0 <= i < |s1.log| && s1.log[i].Note? ==> s1.log[i].trace == 1;
    assert Takes(s1, 0, io0);
    UnnamedEvent(s1, io0);
  }

  lemma UnnamedEvent(s: Sys, io: Io)
    requires 0 in s.traces && Takes(s, 0, io) && io.room && NotedAt(s, io.task) == s.counter
    requires forall i :: 0 <= i < |s.log| && s.log[i].Note? ==> s.log[i].trace == 1
    ensures var s2 := Record(s, 0, io);
            && s2.hist.starts == s.hist.starts && !NamedInTrace(s2.log)
            && forall i :: 0 <= i < |s2.log| && s2.log[i].Note? ==> s2.log[i].trace != 0
  {
    hide CountOn, Takes, StartOf, Mistaken;
    var s2 := Record(s, 0, io);
    var ev := s2.log[|s.log|];
    assert s2.log == s.log + [ev] && ev.Event? && ev.trace == 0 && s2.log[..|s.log|] == s.log;
    assert !NotedInTrace(s2.log[..|s.log|], ev.trace, ev.task, ev.since);
  }
}
