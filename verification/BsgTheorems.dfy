/**
 Whole runs of the bsg protocol (linux-2.6.24.3/block/bsg.c): what holds after any interleaving, and
 that draining a closed device always ends.
 */
module BsgTheorems {
  import opened Seqs
  import opened BsgQueue
  import opened BsgMachine
  import opened BsgInvariant

  ghost predicate CanRun(s: State, ls: seq<Label>)
    decreases |ls|
  {
    ls == [] || (Shape(s) && Enabled(s, ls[0]) && CanRun(Apply(s, ls[0]), ls[1..]))
  }

  ghost function Run(s: State, ls: seq<Label>): State
    requires CanRun(s, ls)
    decreases |ls|
  {
    if ls == [] then s else Run(Apply(s, ls[0]), ls[1..])
  }

  lemma {:induction false} RunKeepsInv(s: State, ls: seq<Label>)
    requires Inv(s) && CanRun(s, ls)
    ensures Inv(Run(s, ls))
    decreases |ls|
  {
    hide Inv, Apply;
    if ls != [] {
      StepKeepsInv(s, ls[0]);
      RunKeepsInv(Apply(s, ls[0]), ls[1..]);
    }
  }

  // ----- what a run's labels say -----

  function Larger(l: Label, most: int): int {
    if l.SetMax? && l.n > most then l.n else most
  }

  /** The largest queue limit set in a run, starting from `most`. */
  function LargestLimit(ls: seq<Label>, most: int): int {
    if ls == [] then most else LargestLimit(ls[1..], Larger(ls[0], most))
  }

  function CompletedBy(l: Label): seq<CmdId> {
    if l.Complete? then [l.id] else []
  }

  /** The commands that complete in a run, in order. */
  function Completions(ls: seq<Label>): seq<CmdId> {
    if ls == [] then [] else CompletedBy(ls[0]) + Completions(ls[1..])
  }

  lemma StepHistory(s: State, l: Label)
    requires Shape(s) && Enabled(s, l)
    ensures Apply(s, l).maxEver == Larger(l, s.maxEver)
    ensures Apply(s, l).completed == s.completed + CompletedBy(l)
  {
    hide TearNext, Without, PutBack, MoreRequests, NewRequests, Shape;
    if l.TearStep? {
      AroundTear(s);
    }
  }

  lemma {:induction false} RunHistory(s: State, ls: seq<Label>)
    requires CanRun(s, ls)
    ensures Run(s, ls).maxEver == LargestLimit(ls, s.maxEver)
    ensures Run(s, ls).completed == s.completed + Completions(ls)
    decreases |ls|
  {
    hide Apply, Enabled, Larger, CompletedBy, Shape;
    if ls != [] {
      StepHistory(s, ls[0]);
      RunHistory(Apply(s, ls[0]), ls[1..]);
      assert s.completed + (CompletedBy(ls[0]) + Completions(ls[1..]))
          == (s.completed + CompletedBy(ls[0])) + Completions(ls[1..]);
    }
  }

  lemma {:induction false} LargestIsLargest(ls: seq<Label>, most: int)
    ensures LargestLimit(ls, most) >= most && forall i :: 0 <= i < |ls| && ls[i].SetMax? ==> LargestLimit(ls, most) >= ls[i].n
    ensures LargestLimit(ls, most) == most || exists i :: 0 <= i < |ls| && ls[i].SetMax? && ls[i].n == LargestLimit(ls, most)
    decreases |ls|
  {
    if ls != [] {
      var rest, next := ls[1..], Larger(ls[0], most);
      LargestIsLargest(rest, next);
      assert forall i :: 0 < i < |ls| ==> ls[i] == rest[i - 1];
      if LargestLimit(ls, most) != next {
        var i :| 0 <= i < |rest| && rest[i].SetMax? && rest[i].n == LargestLimit(rest, next);
        assert ls[i + 1] == rest[i];
      }
    }
  }

  // ----- the settings and the open files -----

  /** What the calls of a run have set up: the open files, the queue limit and whether reads may block. */
  datatype Settings = Settings(files: set<FileId>, limit: int, block: bool)

  /** Closing the last file makes the device block, so that it can be drained. */
  function Adjusted(c: Settings, l: Label): Settings {
    match l
    case Open(f) => c.(files := c.files + {f})
    case Release(f) => if c.files <= {f} then c.(files := {}, block := true) else c.(files := c.files - {f})
    case SetMax(_, n) => c.(limit := n)
    case SetBlock(_, b) => c.(block := b)
    case _ => c
  }

  function AllAdjusted(c: Settings, ls: seq<Label>): Settings
    decreases |ls|
  {
    if ls == [] then c else AllAdjusted(Adjusted(c, ls[0]), ls[1..])
  }

  function TakenBy(l: Label): nat {
    if l.MapOk? || l.MapFail? || l.SgMap? || l.SgFail? then l.taken else 0
  }

  /** Block requests asked for in a run. */
  function RequestsTaken(ls: seq<Label>): nat {
    if ls == [] then 0 else TakenBy(ls[0]) + RequestsTaken(ls[1..])
  }

  function SettingsOf(s: State): Settings { Settings(s.files, s.q.maxQueue, s.q.block) }

  lemma StepSettings(s: State, l: Label)
    requires Shape(s) && Enabled(s, l)
    ensures SettingsOf(Apply(s, l)) == Adjusted(SettingsOf(s), l)
  {
    hide TearNext, Without, PutBack, MoreRequests, NewRequests, Shape;
    if l.TearStep? {
      AroundTear(s);
    } else if l.Release? {
      ReleaseSettings(s, l.f);
    }
  }

  lemma ReleaseSettings(s: State, f: FileId)
    requires Shape(s) && Enabled(s, Release(f))
    ensures SettingsOf(Apply(s, Release(f))) == Adjusted(SettingsOf(s), Release(f))
  {
    hide TearNext, Shape;
    assert s.files <= {f} <==> s.files - {f} == {};
  }

  lemma StepRequests(s: State, l: Label)
    requires Shape(s) && Enabled(s, l)
    ensures |Apply(s, l).reqs| == |s.reqs| + TakenBy(l)
  {
    hide TearNext, Without, NewRequests, Shape, Listed, Moved, Counted, Uncounted, Taken;
    if l.TearStep? {
      AroundTear(s);
    }
  }

  lemma {:induction false} RunSettings(s: State, ls: seq<Label>)
    requires CanRun(s, ls)
    ensures SettingsOf(Run(s, ls)) == AllAdjusted(SettingsOf(s), ls)
    ensures |Run(s, ls).reqs| == |s.reqs| + RequestsTaken(ls)
    decreases |ls|
  {
    hide Apply, Enabled, Shape, Adjusted, TakenBy, SettingsOf;
    if ls != [] {
      StepSettings(s, ls[0]);
      StepRequests(s, ls[0]);
      RunSettings(Apply(s, ls[0]), ls[1..]);
    }
  }

  /** After any interleaving the open files are those opened and not released, the limit and the blocking are as
      last set, every request asked for is on the books, and the device is torn down exactly from the moment
      the last file is released. */
  lemma OpenFiles(f: FileId, block: bool, ls: seq<Label>)
    requires CanRun(Start(f, block), ls)
    ensures var s, c := Run(Start(f, block), ls), AllAdjusted(Settings({f}, 64, block), ls);
            && s.files == c.files && s.q.maxQueue == c.limit && s.q.block == c.block
            && |s.reqs| == RequestsTaken(ls)
            && (s.tear.Live? <==> c.files != {})
  {
    hide Run, CanRun, CountsAgree, ListsAgree, OwnersAgree, InOrder, FreedOnce, RequestsAgree, LimitKept, ReadersAgree;
    InvAtStart(f, block);
    RunKeepsInv(Start(f, block), ls);
    RunSettings(Start(f, block), ls);
    assert SettingsOf(Start(f, block)) == Settings({f}, 64, block);
  }

  // ----- what can happen -----

  /** Steps that one command takes on its way. */
  predicate StepOn(l: Label, id: CmdId) {
    l in {AllocOk(id), List(id), Submit(id), Complete(id), UndoMap(id), PutRequests(id), Free(id), Uncount(id)}
    || (l.MapOk? && l.id == id && 1 <= l.taken <= 2) || (l.MapFail? && l.id == id && l.taken <= 2)
  }

  function PhaseBefore(l: Label): Phase {
    match l
    case AllocOk(_) => Reserved
    case MapOk(_, _) => Setup
    case MapFail(_, _) => Setup
    case List(_) => Mapped
    case Submit(_) => OnBusy
    case Complete(_) => Submitted
    case UndoMap(_) => MapFailed
    case PutRequests(_) => Reaped
    case Free(_) => Settled
    case _ => Freed
  }

  function PhaseAfter(l: Label): Phase {
    match l
    case AllocOk(_) => Setup
    case MapOk(_, _) => Mapped
    case MapFail(_, _) => MapFailed
    case List(_) => OnBusy
    case Submit(_) => Submitted
    case Complete(_) => Finished
    case UndoMap(_) => Settled
    case PutRequests(_) => Settled
    case Free(_) => Freed
    case _ => Gone
  }

  lemma CommandStep(s: State, l: Label, id: CmdId)
    requires Shape(s) && StepOn(l, id) && Is(s, id, PhaseBefore(l)) && s.cmds[id].owner != Teardown
    ensures Enabled(s, l)
    ensures Is(Apply(s, l), id, PhaseAfter(l)) && Apply(s, l).cmds[id].owner != Teardown
  {
    hide Without, PutBack, MoreRequests, NewRequests, TearNext, Shape, Listed, Moved, Counted, Uncounted, Taken, TakeRequests;
  }

  lemma CommandQueue(s: State, l: Label, id: CmdId)
    requires Shape(s) && StepOn(l, id) && Enabled(s, l)
    ensures Apply(s, l).completed == s.completed + CompletedBy(l)
    ensures !l.List? && !l.Complete? ==> Apply(s, l).q == if l.Uncount? then Uncounted(s.q) else s.q
  {
    hide Without, PutBack, MoreRequests, NewRequests, TearNext, Shape, Uncounted;
  }

  /** Each step begins where the one before it ended, the first in phase `p`. */
  predicate InSequence(ls: seq<Label>, id: CmdId, p: Phase) {
    forall i {:trigger ls[i]} :: 0 <= i < |ls| ==> StepOn(ls[i], id) && PhaseBefore(ls[i]) == PhaseAt(ls, i, p)
  }

  function PhaseAt(ls: seq<Label>, i: nat, p: Phase): Phase
    requires i <= |ls|
  {
    if i == 0 then p else PhaseAfter(ls[i - 1])
  }

  function LastPhase(ls: seq<Label>, p: Phase): Phase { PhaseAt(ls, |ls|, p) }

  function QueueAfter(q: Queue, ls: seq<Label>): Queue
    decreases |ls|
  {
    if ls == [] then q else QueueAfter(if ls[0].Uncount? then Uncounted(q) else q, ls[1..])
  }

  /** A command can be carried along its way, whatever the state of everything else. */
  lemma {:induction false} Carried(s: State, ls: seq<Label>, id: CmdId)
    requires Inv(s) && id < |s.cmds| && s.cmds[id].owner != Teardown && InSequence(ls, id, s.cmds[id].phase)
    ensures CanRun(s, ls) && Is(Run(s, ls), id, LastPhase(ls, s.cmds[id].phase))
    ensures Run(s, ls).completed == s.completed + Completions(ls)
    ensures (forall l :: l in ls ==> !l.List? && !l.Complete?) ==> Run(s, ls).q == QueueAfter(s.q, ls)
    decreases |ls|
  {
    hide Inv, Apply, Shape, Enabled, StepOn, PhaseBefore, PhaseAfter, CompletedBy;
    if ls != [] {
      assert PhaseBefore(ls[0]) == s.cmds[id].phase && StepOn(ls[0], id);
      HasShape(s);
      CommandStep(s, ls[0], id);
      CommandQueue(s, ls[0], id);
      StepKeepsInv(s, ls[0]);
      var s1, rest := Apply(s, ls[0]), ls[1..];
      Carried(s1, rest, id);
      assert s.completed + CompletedBy(ls[0]) + Completions(rest) == s.completed + (CompletedBy(ls[0]) + Completions(rest));
      assert forall l :: l in rest ==> l in ls;
      assert ls[0] in ls;
    }
  }

  lemma HasShape(s: State)
    requires Inv(s)
    ensures Shape(s)
  {
    hide CountsAgree, ListsAgree, OwnersAgree;
    InvHasShape(s);
  }

  lemma ReserveStep(s: State, f: FileId, ls: seq<Label>)
    requires Inv(s) && f in s.files && s.q.queued < s.q.maxQueue
    ensures Enabled(s, Reserve(f)) && Shape(s) && Inv(Apply(s, Reserve(f)))
    ensures var s1 := Apply(s, Reserve(f));
            && |s1.cmds| == |s.cmds| + 1 && Is(s1, |s.cmds|, Reserved) && s1.cmds[|s.cmds|].owner == File(f)
            && s1.q == Counted(s.q) && s1.completed == s.completed
            && (CanRun(s1, ls) ==> CanRun(s, [Reserve(f)] + ls) && Run(s, [Reserve(f)] + ls) == Run(s1, ls))
  {
    hide Inv;
    StepKeepsInv(s, Reserve(f));
    assert ([Reserve(f)] + ls)[1..] == ls;
  }

  /** Only the last step uncounts, if any does. */
  lemma {:induction false} UncountedLast(q: Queue, ls: seq<Label>)
    requires ls != [] && forall i :: 0 <= i < |ls| - 1 ==> !ls[i].Uncount?
    ensures QueueAfter(q, ls) == if ls[|ls| - 1].Uncount? then Uncounted(q) else q
    decreases |ls|
  {
    if |ls| > 1 {
      UncountedLast(q, ls[1..]);
    }
  }

  lemma {:induction false} CompletedLast(ls: seq<Label>)
    requires ls != [] && forall i :: 0 <= i < |ls| - 1 ==> !ls[i].Complete?
    ensures Completions(ls) == CompletedBy(ls[|ls| - 1])
    decreases |ls|
  {
    if |ls| > 1 {
      CompletedLast(ls[1..]);
    } else {
      assert ls[1..] == [] && CompletedBy(ls[0]) + [] == CompletedBy(ls[0]);
    }
  }

  /** Allocate, map, list, submit and complete. */
  function WriteSteps(id: CmdId, taken: nat): seq<Label> {
    [AllocOk(id), MapOk(id, taken), List(id), Submit(id), Complete(id)]
  }

  lemma WriteInSequence(id: CmdId, taken: nat)
    requires 1 <= taken <= 2
    ensures var ls := WriteSteps(id, taken);
            InSequence(ls, id, Reserved) && LastPhase(ls, Reserved) == Finished && Completions(ls) == [id]
  {
    hide Completions;
    CompletedLast(WriteSteps(id, taken));
  }

  /** With a file open and room in the queue, a command can always be written, and complete. */
  lemma WriteGoesThrough(s: State, f: FileId, taken: nat)
    requires Inv(s) && f in s.files && s.q.queued < s.q.maxQueue && 1 <= taken <= 2
    ensures var ls := [Reserve(f)] + WriteSteps(|s.cmds|, taken);
            && CanRun(s, ls) && Is(Run(s, ls), |s.cmds|, Finished) && Run(s, ls).completed == s.completed + [|s.cmds|]
  {
    hide Inv, Apply, CanRun, Run, Shape, Enabled, WriteSteps, InSequence, LastPhase, Completions;
    var id := |s.cmds|;
    ReserveStep(s, f, WriteSteps(id, taken));
    WriteInSequence(id, taken);
    Carried(Apply(s, Reserve(f)), WriteSteps(id, taken), id);
  }

  /** Allocate, fail to map, put back, free and uncount. */
  function FailSteps(id: CmdId, taken: nat): seq<Label> {
    [AllocOk(id), MapFail(id, taken), UndoMap(id), Free(id), Uncount(id)]
  }

  lemma FailInSequence(id: CmdId, taken: nat, q: Queue)
    requires taken <= 2
    ensures var ls := FailSteps(id, taken);
            && InSequence(ls, id, Reserved) && LastPhase(ls, Reserved) == Gone && QueueAfter(q, ls) == Uncounted(q)
            && forall l :: l in ls ==> !l.List? && !l.Complete?
  {
    hide QueueAfter;
    UncountedLast(q, FailSteps(id, taken));
  }

  /** A mapping that fails after any number of requests can always be undone, and the queue is then as before. */
  lemma FailedWriteUndone(s: State, f: FileId, taken: nat)
    requires Inv(s) && f in s.files && s.q.queued < s.q.maxQueue && taken <= 2
    ensures var ls := [Reserve(f)] + FailSteps(|s.cmds|, taken);
            CanRun(s, ls) && Is(Run(s, ls), |s.cmds|, Gone) && Run(s, ls).q == s.q
  {
    hide Inv, Apply, CanRun, Run, Shape, Enabled, FailSteps, InSequence, LastPhase, QueueAfter;
    var id := |s.cmds|;
    ReserveStep(s, f, FailSteps(id, taken));
    FailInSequence(id, taken, Counted(s.q));
    Carried(Apply(s, Reserve(f)), FailSteps(id, taken), id);
  }

  lemma StepFirst(s: State, l: Label, ls: seq<Label>)
    requires Inv(s) && Enabled(s, l)
    ensures Shape(s) && Inv(Apply(s, l))
    ensures CanRun(Apply(s, l), ls) ==> CanRun(s, [l] + ls) && Run(s, [l] + ls) == Run(Apply(s, l), ls)
  {
    hide Inv, Apply, Enabled;
    StepKeepsInv(s, l);
    assert ([l] + ls)[1..] == ls;
  }

  /** Put back, free and uncount. */
  function ReadSteps(id: CmdId): seq<Label> { [PutRequests(id), Free(id), Uncount(id)] }

  lemma ReadInSequence(id: CmdId, q: Queue)
    ensures var ls := ReadSteps(id);
            && InSequence(ls, id, Reaped) && LastPhase(ls, Reaped) == Gone && QueueAfter(q, ls) == Uncounted(q)
            && forall l :: l in ls ==> !l.List? && !l.Complete?
  {
    hide QueueAfter;
    UncountedLast(q, ReadSteps(id));
  }

  lemma TakeStep(s: State, f: FileId)
    requires Inv(s) && f in s.files && s.q.done != []
    ensures Enabled(s, Take(f)) && Shape(s)
    ensures var s1, id := Apply(s, Take(f)), s.q.done[0];
            Is(s1, id, Reaped) && s1.cmds[id].owner == File(f) && s1.q == Taken(s.q)
  {
    hide CountsAgree, ListsAgree, OwnersAgree;
    InvHasShape(s);
  }

  /** With a file open and a command done, the command that finished first can always be read, and the queue
      then has one command less. */
  lemma ReadGoesThrough(s: State, f: FileId)
    requires Inv(s) && f in s.files && s.q.done != []
    ensures var ls := [Take(f)] + ReadSteps(s.q.done[0]);
            && CanRun(s, ls) && Is(Run(s, ls), s.q.done[0], Gone)
            && Run(s, ls).q == s.q.(done := s.q.done[1..], doneCmds := s.q.doneCmds - 1, queued := s.q.queued - 1)
  {
    hide Inv, Apply, CanRun, Run, Shape, Enabled, ReadSteps, InSequence, LastPhase, QueueAfter;
    var id := s.q.done[0];
    TakeStep(s, f);
    StepFirst(s, Take(f), ReadSteps(id));
    ReadInSequence(id, Taken(s.q));
    Carried(Apply(s, Take(f)), ReadSteps(id), id);
  }

  function SgFirst(f: FileId, taken: nat, ok: bool): Label { if ok then SgMap(f, taken) else SgFail(f, taken) }

  function SgLast(id: CmdId, ok: bool): Label { if ok then SgDone(id) else SgUndo(id) }

  lemma SgBegins(s: State, f: FileId, taken: nat, ok: bool)
    requires Shape(s) && f in s.files && taken <= 2 && (ok ==> taken > 0)
    ensures Enabled(s, SgFirst(f, taken, ok))
    ensures var s1, id := Apply(s, SgFirst(f, taken, ok)), |s.cmds|;
            && Enabled(s1, SgLast(id, ok)) && s1.q == s.q && |s1.reqs| == |s.reqs| + taken
            && (forall r :: r in s1.cmds[id].rqs <==> |s.reqs| <= r < |s.reqs| + taken)
            && (forall r :: 0 <= r < |s1.reqs| ==> s1.reqs[r] == if r < |s.reqs| then s.reqs[r] else Req(id, 0))
  {
    hide PutBack, MoreRequests, NewRequests, TearNext, Shape;
  }

  lemma SgEnds(s: State, id: CmdId, ok: bool)
    requires Shape(s) && Enabled(s, SgLast(id, ok))
    ensures var s1 := Apply(s, SgLast(id, ok));
            Is(s1, id, SgGone) && s1.q == s.q && s1.reqs == PutBack(s.reqs, s.cmds[id].rqs)
  {
    hide PutBack, MoreRequests, NewRequests, TearNext, Shape;
  }

  /** An SG_IO call can always be made on an open file, whether its mapping succeeds or not; every request it
      takes is put back once and the queue never knows of it. */
  lemma IoctlGoesThrough(s: State, f: FileId, taken: nat, ok: bool)
    requires Inv(s) && f in s.files && taken <= 2 && (ok ==> taken > 0)
    ensures var ls := [SgFirst(f, taken, ok)] + [SgLast(|s.cmds|, ok)];
            && CanRun(s, ls) && Is(Run(s, ls), |s.cmds|, SgGone) && Run(s, ls).q == s.q
            && |Run(s, ls).reqs| == |s.reqs| + taken
            && forall r :: 0 <= r < |s.reqs| + taken ==>
                 Run(s, ls).reqs[r] == if r < |s.reqs| then s.reqs[r] else Req(|s.cmds|, 1)
  {
    hide Inv, PutBack, Apply, Enabled, Shape, SgFirst, SgLast;
    var first, last := SgFirst(f, taken, ok), SgLast(|s.cmds|, ok);
    HasShape(s);
    SgBegins(s, f, taken, ok);
    StepFirst(s, first, [last]);
    var s1 := Apply(s, first);
    HasShape(s1);
    SgEnds(s1, |s.cmds|, ok);
    StepFirst(s1, last, []);
    assert [last] + [] == [last];
  }

  lemma OpenedIsIdle(s: State, g: FileId)
    requires Inv(s) && s.files != {} && g !in s.files
    ensures Shape(s) && Enabled(s, Open(g)) && Inv(Apply(s, Open(g))) && Enabled(Apply(s, Open(g)), Release(g))
  {
    hide CountsAgree, ListsAgree, InOrder, FreedOnce, RequestsAgree, LimitKept, Shape, TearNext;
    HasShape(s);
    StepKeepsInv(s, Open(g));
    forall id | 0 <= id < |s.cmds| && InHand(s.cmds[id])
      ensures s.cmds[id].owner != File(g)
    {
      assert Owned(s, id);
    }
    forall r | r in s.readers
      ensures s.readers[r].file != g
    {
      assert ReaderOk(s, s.readers[r]);
    }
  }

  /** While the device is open, another file can be opened, and closing it at once leaves the device as it was. */
  lemma OpenCloseUndone(s: State, g: FileId)
    requires Inv(s) && s.files != {} && g !in s.files
    ensures var ls := [Open(g)] + [Release(g)]; CanRun(s, ls) && Run(s, ls) == s
  {
    hide Inv, Shape, TearNext;
    OpenedIsIdle(s, g);
    var s1 := Apply(s, Open(g));
    StepFirst(s1, Release(g), []);
    StepFirst(s, Open(g), [Release(g)]);
    assert [Release(g)] + [] == [Release(g)];
    assert s1.files - {g} == s.files;
  }

  /** On an open device that blocks, a reader can queue up, and a signal leaves the device as it was. */
  lemma WaitUndone(s: State, r: ReaderId, f: FileId)
    requires Inv(s) && f in s.files && r !in s.readers && s.q.block
    ensures var ls := [Enqueue(r, f)] + [Interrupt(r)]; CanRun(s, ls) && Run(s, ls) == s
  {
    hide Inv, Shape, TearNext;
    HasShape(s);
    StepKeepsInv(s, Enqueue(r, f));
    var s1 := Apply(s, Enqueue(r, f));
    StepFirst(s1, Interrupt(r), []);
    StepFirst(s, Enqueue(r, f), [Interrupt(r)]);
    assert [Interrupt(r)] + [] == [Interrupt(r)];
    assert s1.readers - {r} == s.readers;
  }

  // ----- after any interleaving -----

  lemma DoneAtMostQueued(s: State)
    requires CountsAgree(s)
    ensures s.q.doneCmds <= s.q.queued
  {
    TallyAtMost(s.cmds, IsDone, IsCounted);
  }

  /** The counters count what they should, the assertion of the waiting section never fires, and the
      queue never holds more than the largest limit that was set. */
  lemma Conservation(f: FileId, block: bool, ls: seq<Label>)
    requires CanRun(Start(f, block), ls)
    ensures var s := Run(Start(f, block), ls);
            && s.q.queued == Tally(s.cmds, IsCounted)
            && s.q.doneCmds == |s.q.done| == Tally(s.cmds, IsDone)
            && Decide(s.q) != Bug && s.q.queued <= LargestLimit(ls, DEFAULT_MAX)
  {
    InvAtStart(f, block);
    hide Run, CanRun, ListsAgree, OwnersAgree, InOrder, FreedOnce, RequestsAgree, DrainAgrees, Tally;
    RunKeepsInv(Start(f, block), ls);
    RunHistory(Start(f, block), ls);
    DoneAtMostQueued(Run(Start(f, block), ls));
  }

  /** Every completed command is on the done list or has been handed out, once, in order of completion. */
  lemma ExactlyOnceInOrder(f: FileId, block: bool, ls: seq<Label>)
    requires CanRun(Start(f, block), ls)
    ensures var s := Run(Start(f, block), ls);
            && s.handed + s.q.done == Completions(ls)
            && NoRepeats(Completions(ls))
            && NoRepeats(s.q.busy) && (forall id :: id in s.q.busy ==> id !in s.q.done && id !in s.handed)
  {
    hide Run, CanRun, Completions, CountsAgree, OwnersAgree, FreedOnce, RequestsAgree, DrainAgrees, LimitKept;
    InvAtStart(f, block);
    RunKeepsInv(Start(f, block), ls);
    RunHistory(Start(f, block), ls);
    var s := Run(Start(f, block), ls);
    assert s.completed == [] + Completions(ls) == Completions(ls);
    forall id | id in s.q.busy
      ensures id !in s.completed
    {
      assert id < |s.cmds| && IsBusy(s.cmds[id]);
    }
  }

  /** Every request is put back at most once, and exactly once when its command has let go of it. */
  lemma RequestsPutOnce(f: FileId, block: bool, ls: seq<Label>, r: ReqId)
    requires CanRun(Start(f, block), ls) && r < |Run(Start(f, block), ls).reqs|
    ensures var s := Run(Start(f, block), ls);
            && s.reqs[r].cmd < |s.cmds|
            && s.reqs[r].puts == One(!HoldsRequests(s.cmds[s.reqs[r].cmd]))
  {
    InvAtStart(f, block);
    RunKeepsInv(Start(f, block), ls);
  }

  /** No wake-up of a reader is lost: whenever it sleeps although a command has finished, some completion has
      yet to wake it, and that wakes it. */
  lemma NoLostWakeup(f: FileId, block: bool, ls: seq<Label>, r: ReaderId)
    requires CanRun(Start(f, block), ls)
    requires var s := Run(Start(f, block), ls);
             r in s.readers && s.readers[r].asleep && !s.readers[r].woken && s.q.done != []
    ensures var s := Run(Start(f, block), ls);
            Shape(s) && Enabled(s, Wake) && Enabled(Apply(s, Wake), Stir(r))
  {
    hide Run, CanRun, ListsAgree, OwnersAgree, InOrder, FreedOnce, RequestsAgree, DrainAgrees, LimitKept, CountsAgree;
    InvAtStart(f, block);
    RunKeepsInv(Start(f, block), ls);
    var s := Run(Start(f, block), ls);
    assert ReaderOk(s, s.readers[r]);
    InvHasShape(s);
  }

  lemma ReaderStep(s: State, l: Label, r: ReaderId)
    requires Shape(s) && r in s.readers && Enabled(s, l) && l in {Wake, Stir(r), Look(r), Interrupt(r)}
    ensures var s' := Apply(s, l);
            && s'.q == s.q
            && (l == Wake ==> r in s'.readers && s'.readers[r] == s.readers[r].(woken := true))
            && (l == Stir(r) ==> r in s'.readers && !s'.readers[r].asleep)
            && (l == Look(r) ==> if s.q.done != [] then r !in s'.readers else r in s'.readers && s'.readers[r].asleep)
            && (l == Interrupt(r) ==> r !in s'.readers)
  {
  }

  /** With nothing done, a reader that queues up, or wakes and looks again, falls asleep and stays so until the
      next wake-up. */
  lemma SleepsUntilWoken(s: State, l: Label, r: ReaderId)
    requires Inv(s) && s.q.done == [] && Enabled(s, l) && (l == Stir(r) || (l.Enqueue? && l.r == r))
    ensures CanRun(s, [l] + [Look(r)])
    ensures var s' := Run(s, [l] + [Look(r)]);
            && r in s'.readers && s'.readers[r].asleep && !Enabled(s', Stir(r)) && !Enabled(s', Look(r))
            && Shape(s') && (Enabled(s', Wake) ==> Enabled(Apply(s', Wake), Stir(r)))
  {
    hide Inv, Shape, Apply, Enabled, CanRun, Run;
    DoneCounted(s);
    FallsAsleep(s, l, r);
    StepFirst(s, l, [Look(r)]);
    var s1 := Apply(s, l);
    StepFirst(s1, Look(r), []);
    assert [Look(r)] + [] == [Look(r)];
    var s2 := Apply(s1, Look(r));
    RunNothing(s2);
    HasShape(s2);
    OnlyWoken(s2, r);
  }

  lemma FallsAsleep(s: State, l: Label, r: ReaderId)
    requires Shape(s) && s.q.doneCmds == 0 && Enabled(s, l) && (l == Stir(r) || (l.Enqueue? && l.r == r))
    ensures var s1 := Apply(s, l);
            && Shape(s1) && Enabled(s1, Look(r))
            && var s2 := Apply(s1, Look(r)); r in s2.readers && s2.readers[r].asleep && !s2.readers[r].woken
  {
    hide TearNext;
  }

  lemma OnlyWoken(s: State, r: ReaderId)
    requires Shape(s) && r in s.readers && s.readers[r].asleep && !s.readers[r].woken
    ensures !Enabled(s, Stir(r)) && !Enabled(s, Look(r)) && (Enabled(s, Wake) ==> Enabled(Apply(s, Wake), Stir(r)))
  {
    hide TearNext, Shape;
  }

  lemma DoneCounted(s: State)
    requires Inv(s)
    ensures Shape(s) && s.q.doneCmds == |s.q.done|
  {
    HasShape(s);
  }

  lemma RunNothing(s: State)
    ensures CanRun(s, []) && Run(s, []) == s
  {
  }

  /** While a command is on the done list, a waiting reader gets away from the wait queue in at most three
      steps of its own and of wake-ups; a signal always gets it away. */
  lemma ReaderGetsAway(s: State, r: ReaderId) returns (ls: seq<Label>)
    requires Inv(s) && r in s.readers && s.q.done != []
    ensures |ls| <= 3 && (forall l :: l in ls ==> l in {Wake, Stir(r), Look(r)})
    ensures CanRun(s, ls) && r !in Run(s, ls).readers
    ensures Shape(s) && Enabled(s, Interrupt(r)) && r !in Apply(s, Interrupt(r)).readers
  {
    assert ReaderOk(s, s.readers[r]);
    InvHasShape(s);
    ReaderStep(s, Interrupt(r), r);
    hide Inv, Apply, Shape;
    if !s.readers[r].asleep {
      ls := Looked(s, r);
    } else if s.readers[r].woken {
      ls := Stirred(s, r);
    } else {
      StepKeepsInv(s, Wake);
      ReaderStep(s, Wake, r);
      var rest := Stirred(Apply(s, Wake), r);
      StepFirst(s, Wake, rest);
      ls := [Wake] + rest;
    }
  }

  lemma Looked(s: State, r: ReaderId) returns (ls: seq<Label>)
    requires Inv(s) && r in s.readers && !s.readers[r].asleep && s.q.done != []
    ensures |ls| == 1 && (forall l :: l in ls ==> l == Look(r)) && CanRun(s, ls) && r !in Run(s, ls).readers
  {
    hide Inv, Apply, Shape;
    StepKeepsInv(s, Look(r));
    ReaderStep(s, Look(r), r);
    StepFirst(s, Look(r), []);
    ls := [Look(r)] + [];
  }

  lemma Stirred(s: State, r: ReaderId) returns (ls: seq<Label>)
    requires Inv(s) && r in s.readers && s.readers[r].asleep && s.readers[r].woken && s.q.done != []
    ensures |ls| == 2 && (forall l :: l in ls ==> l in {Stir(r), Look(r)}) && CanRun(s, ls) && r !in Run(s, ls).readers
  {
    hide Inv, Apply, Shape;
    StepKeepsInv(s, Stir(r));
    ReaderStep(s, Stir(r), r);
    var rest := Looked(Apply(s, Stir(r)), r);
    StepFirst(s, Stir(r), rest);
    ls := [Stir(r)] + rest;
  }

  // ----- draining -----

  function Rank(t: Tear): nat {
    match t
    case Live => 14
    case DrainWait(woken) => if woken then 13 else 11
    case DrainCheck => 12
    case DiscardCheck => 10
    case DiscardGet => 9
    case DiscardWait(_) => 9
    case DiscardPut(_) => 8
    case DiscardFree(_) => 7
    case DiscardUncount(_) => 6
    case Torn => 0
  }

  /** Work left: completions to come, wake-ups to deliver, commands to discard. */
  function Work(s: State): int {
    8 * |s.q.busy| + 5 * s.wakes + 10 * s.q.queued + Rank(s.tear)
  }

  /** Every step of a closed device brings the end of the drain nearer. */
  lemma WorkDrops(s: State, l: Label)
    requires Inv(s) && s.files == {} && Enabled(s, l)
    ensures Shape(s) && Apply(s, l).files == {} && 0 <= Work(Apply(s, l)) < Work(s)
  {
    hide CountsAgree, ListsAgree, OwnersAgree, InOrder, FreedOnce, RequestsAgree, DrainAgrees, LimitKept, ReadersAgree,
         Apply, Enabled, Work, Shape;
    StepKeepsInv(s, l);
    OnlyDrainSteps(s, l);
    WorkNonNegative(Apply(s, l));
    if l.Complete? {
      CompleteDrops(s, l.id);
    } else if l.TearStep? {
      TearIsNext(s);
      TearDrops(s);
    } else {
      WakeDrops(s);
    }
  }

  lemma WorkNonNegative(s: State)
    requires Inv(s)
    ensures 0 <= Work(s)
  {
    hide ListsAgree, OwnersAgree, InOrder, FreedOnce, RequestsAgree, DrainAgrees, LimitKept, ReadersAgree;
  }

  lemma WakeDrops(s: State)
    requires Shape(s) && Enabled(s, Wake)
    ensures Apply(s, Wake).files == s.files && Work(Apply(s, Wake)) < Work(s)
  {
  }

  lemma CompleteDrops(s: State, id: CmdId)
    requires Inv(s) && Shape(s) && Enabled(s, Complete(id))
    ensures Apply(s, Complete(id)).files == s.files && Work(Apply(s, Complete(id))) < Work(s)
  {
    hide CountsAgree, OwnersAgree, InOrder, FreedOnce, RequestsAgree, ReadersAgree, DrainAgrees, Without;
    assert id in s.q.busy;
    WithoutOne(s.q.busy, id);
  }

  lemma TearDrops(s: State)
    requires Inv(s) && Shape(s) && s.files == {} && Enabled(s, TearStep)
    ensures TearNext(s).files == {} && Work(TearNext(s)) < Work(s)
  {
    hide CountsAgree, ListsAgree, OwnersAgree, InOrder, FreedOnce, RequestsAgree, ReadersAgree, PutBack;
    QueueWhenClosed(s);
  }

  /** The drain is never stuck: until the device is gone, the draining thread can go on, or it sleeps
      and there is a wake-up on its way or a submitted command whose completion will send one. */
  lemma DrainNeverStuck(s: State)
    requires Inv(s) && !s.tear.Live? && !s.tear.Torn?
    ensures || Enabled(s, TearStep)
            || (s.tear == DrainWait(false) && (Enabled(s, Wake) || exists id :: Enabled(s, Complete(id))))
  {
    if s.tear == DrainWait(false) && s.wakes == 0 {
      var id := s.q.busy[0];
      assert id in s.q.busy && IsBusy(s.cmds[id]);
      NobodyElse(s);
      assert Enabled(s, Complete(id));
    }
  }

  /** A drain takes a bounded number of steps, whatever the order of completions. */
  lemma {:induction false} DrainBounded(s: State, ls: seq<Label>)
    requires Inv(s) && s.files == {} && CanRun(s, ls)
    ensures Run(s, ls).files == {} && 0 <= Work(Run(s, ls)) <= Work(s) - |ls|
    decreases |ls|
  {
    hide Inv, Work, Enabled, Apply;
    if ls != [] {
      WorkDrops(s, ls[0]);
      StepKeepsInv(s, ls[0]);
      DrainBounded(Apply(s, ls[0]), ls[1..]);
    } else {
      WorkNonNegative(s);
    }
  }

  ghost predicate Emptied(s: State) {
    && s.q.busy == [] && s.q.done == [] && s.q.queued == 0 && s.q.doneCmds == 0
    && s.handed == s.completed
    && (forall id :: 0 <= id < |s.cmds| ==> s.cmds[id].phase in {NoMemory, Gone, SgGone})
    && (forall id :: 0 <= id < |s.cmds| ==> s.cmds[id].frees == One(s.cmds[id].phase == Gone))
    && (forall r :: 0 <= r < |s.reqs| ==> s.reqs[r].puts == 1)
  }

  /** Once torn down, both lists are empty and both counters zero, every command that got memory has been
      freed once, and every request has been put back once. */
  lemma TornIsEmpty(s: State)
    requires Inv(s) && s.tear.Torn?
    ensures Emptied(s)
  {
    QueueWhenClosed(s);
    NobodyElse(s);
    assert s.q.busy == [] && s.q.done == [];
    forall id | 0 <= id < |s.cmds|
      ensures s.cmds[id].phase in {NoMemory, Gone, SgGone}
    {
      assert !InHand(s.cmds[id]) && !IsBusy(s.cmds[id]) && !IsDone(s.cmds[id]);
    }
  }

  /** A drain that has been carried to its end leaves nothing behind. */
  lemma DrainCompletes(f: FileId, block: bool, ls: seq<Label>)
    requires CanRun(Start(f, block), ls)
    requires Run(Start(f, block), ls).files == {}
    requires forall l :: !Enabled(Run(Start(f, block), ls), l)
    ensures Run(Start(f, block), ls).tear.Torn? && Emptied(Run(Start(f, block), ls))
  {
    InvAtStart(f, block);
    RunKeepsInv(Start(f, block), ls);
    var s := Run(Start(f, block), ls);
    if !s.tear.Torn? {
      DrainNeverStuck(s);
    }
    TornIsEmpty(s);
  }

  /** The drain goes to sleep only with a busy command or a pending wake-up, and its second loop never
      waits. */
  lemma DrainWaits(f: FileId, block: bool, ls: seq<Label>)
    requires CanRun(Start(f, block), ls)
    ensures var s := Run(Start(f, block), ls);
            && (s.tear == DrainWait(false) ==> s.q.busy != [] || s.wakes > 0)
            && (Discarding(s.tear) ==> s.q.busy == [])
            && !s.tear.DiscardWait?
  {
    InvAtStart(f, block);
    RunKeepsInv(Start(f, block), ls);
  }
}
