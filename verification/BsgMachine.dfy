/**
 The bsg command protocol as a step machine (linux-2.6.24.3/block/bsg.c).

 Any number of files read, write and issue SG_IO on one device while the block layer completes
 requests; the last release tears the device down.  Each section under the device lock is one step,
 as is each action between two such sections, and steps of different threads interleave freely.
 */
module BsgMachine {
  import opened Seqs
  import opened BsgQueue

  type FileId = nat
  type ReqId = nat

  /** Where a command is in its life.  Those that begin with Sg are SG_IO calls, which are not queued. */
  datatype Phase =
    | Reserved   // counted, no memory yet
    | NoMemory   // allocation failed, slot given back
    | Setup      // allocated, header being copied and mapped
    | MapFailed  // a mapping step failed; the requests it took are still held
    | Mapped     // owns its requests
    | OnBusy     // on the busy list, not yet submitted
    | Submitted  // with the block layer
    | Finished   // on the done list
    | Reaped     // handed out
    | Settled    // requests put back
    | Freed      // memory freed, still counted
    | Gone
    | SgFailed
    | SgMapped
    | SgGone

  datatype Owner = Nobody | File(file: FileId) | Teardown

  datatype Cmd = Cmd(phase: Phase, owner: Owner, rqs: seq<ReqId>, frees: nat)

  /** A block request: the command it was taken for and how often it has been put back. */
  datatype Req = Req(cmd: CmdId, puts: nat)

  /** The thread that drains the device after the last release. */
  datatype Tear =
    | Live
    | DrainCheck
    | DrainWait(woken: bool)
    | DiscardCheck
    | DiscardGet
    | DiscardWait(woken: bool)
    | DiscardPut(id: CmdId)
    | DiscardFree(id: CmdId)
    | DiscardUncount(id: CmdId)
    | Torn

  type ReaderId = nat

  /** A reader that found nothing done: on the wait queue, and asleep once it has looked again. */
  datatype Reader = Reader(file: FileId, asleep: bool, woken: bool)

  datatype State = State(
    q: Queue,
    cmds: seq<Cmd>,
    reqs: seq<Req>,
    files: set<FileId>,      // open files; their number is the reference count
    readers: map<ReaderId, Reader>,
    tear: Tear,
    wakes: nat,              // completions that have moved their command and not yet called wake_up
    maxEver: int,            // largest queue limit ever set
    completed: seq<CmdId>,   // in order of completion
    handed: seq<CmdId>)      // in order of being taken from the done list

  function Start(f: FileId, block: bool): State {
    State(Fresh(block), [], [], {f}, map[], Live, 0, DEFAULT_MAX, [], [])
  }

  // ----- phases -----

  predicate IsCounted(c: Cmd) {
    c.phase in {Reserved, Setup, MapFailed, Mapped, OnBusy, Submitted, Finished, Reaped, Settled, Freed}
  }

  predicate IsBusy(c: Cmd) { c.phase == OnBusy || c.phase == Submitted }

  predicate IsDone(c: Cmd) { c.phase == Finished }

  /** Some thread is in the middle of handling it. */
  predicate InHand(c: Cmd) {
    c.phase in {Reserved, Setup, MapFailed, Mapped, OnBusy, Reaped, Settled, Freed, SgFailed, SgMapped}
  }

  predicate HoldsRequests(c: Cmd) {
    c.phase in {MapFailed, Mapped, OnBusy, Submitted, Finished, Reaped, SgFailed, SgMapped}
  }

  predicate WasCompleted(c: Cmd) {
    c.phase in {Finished, Reaped, Settled, Freed, Gone}
  }

  /** Requests have not been asked for yet, or never will be. */
  predicate BeforeRequests(c: Cmd) { c.phase in {Reserved, NoMemory, Setup} }

  predicate IsFreed(c: Cmd) { c.phase == Freed || c.phase == Gone }

  // ----- steps -----

  datatype Label =
    | Open(f: FileId)
    | SetMax(f: FileId, n: int)
    | SetBlock(f: FileId, b: bool)
    | Reserve(f: FileId)
    | AllocFail(id: CmdId)
    | AllocOk(id: CmdId)
    | MapFail(id: CmdId, taken: nat)
    | UndoMap(id: CmdId)
    | MapOk(id: CmdId, taken: nat)
    | List(id: CmdId)
    | Submit(id: CmdId)
    | Complete(id: CmdId)
    | Wake
    | Take(f: FileId)
    | Enqueue(r: ReaderId, f: FileId)
    | Look(r: ReaderId)
    | Stir(r: ReaderId)
    | Interrupt(r: ReaderId)
    | PutRequests(id: CmdId)
    | Free(id: CmdId)
    | Uncount(id: CmdId)
    | SgMap(f: FileId, taken: nat)
    | SgFail(f: FileId, taken: nat)
    | SgUndo(id: CmdId)
    | SgDone(id: CmdId)
    | Release(f: FileId)
    | TearStep

  predicate Is(s: State, id: CmdId, p: Phase) {
    id < |s.cmds| && s.cmds[id].phase == p
  }

  predicate Enabled(s: State, l: Label) {
    match l
    case Open(f) => s.tear.Live? && f !in s.files
    case SetMax(f, n) => f in s.files && n >= 1
    case SetBlock(f, b) => f in s.files
    case Reserve(f) => f in s.files && s.q.queued < s.q.maxQueue
    case AllocFail(id) => Is(s, id, Reserved)
    case AllocOk(id) => Is(s, id, Reserved)
    case MapFail(id, taken) => Is(s, id, Setup) && taken <= 2
    case UndoMap(id) => Is(s, id, MapFailed)
    case MapOk(id, taken) => Is(s, id, Setup) && 1 <= taken <= 2
    case List(id) => Is(s, id, Mapped)
    case Submit(id) => Is(s, id, OnBusy)
    case Complete(id) => Is(s, id, Submitted)
    case Wake => s.wakes > 0
    case Take(f) => f in s.files && s.q.doneCmds != 0
    case Enqueue(r, f) => f in s.files && r !in s.readers && s.q.block
    case Look(r) => r in s.readers && !s.readers[r].asleep
    case Stir(r) => r in s.readers && s.readers[r].asleep && s.readers[r].woken
    case Interrupt(r) => r in s.readers
    case PutRequests(id) => Is(s, id, Reaped) && s.cmds[id].owner != Teardown
    case Free(id) => Is(s, id, Settled) && s.cmds[id].owner != Teardown
    case Uncount(id) => Is(s, id, Freed) && s.cmds[id].owner != Teardown
    case SgMap(f, taken) => f in s.files && 1 <= taken <= 2
    case SgFail(f, taken) => f in s.files && taken <= 2
    case SgUndo(id) => Is(s, id, SgFailed)
    case SgDone(id) => Is(s, id, SgMapped)
    case Release(f) => f in s.files && (forall r :: r in s.readers ==> s.readers[r].file != f)
                       && forall id :: 0 <= id < |s.cmds| && InHand(s.cmds[id]) ==> s.cmds[id].owner != File(f)
    case TearStep => !s.tear.Live? && !s.tear.Torn? && s.tear != DrainWait(false) && s.tear != DiscardWait(false)
  }

  function SetPhase(s: State, id: CmdId, p: Phase): State
    requires id < |s.cmds|
  {
    s.(cmds := s.cmds[id := s.cmds[id].(phase := p)])
  }

  function MoreRequests(reqs: seq<Req>, id: CmdId, n: nat): (r: seq<Req>)
    ensures |r| == |reqs| + n
    ensures forall i :: 0 <= i < |reqs| ==> r[i] == reqs[i]
    ensures forall i :: |reqs| <= i < |r| ==> r[i] == Req(id, 0)
  {
    if n == 0 then reqs else MoreRequests(reqs, id, n - 1) + [Req(id, 0)]
  }

  /** Take `n` requests for command `id`. */
  function TakeRequests(s: State, id: CmdId, n: nat): State {
    s.(reqs := MoreRequests(s.reqs, id, n))
  }

  function NewRequests(s: State, n: nat): (rqs: seq<ReqId>)
    ensures |rqs| == n
    ensures forall r :: r in rqs <==> |s.reqs| <= r < |s.reqs| + n
  {
    if n == 0 then [] else NewRequests(s, n - 1) + [|s.reqs| + n - 1]
  }

  /** Put back the requests that command `id` holds. */
  function PutBack(reqs: seq<Req>, rqs: seq<ReqId>): (r: seq<Req>)
    ensures |r| == |reqs|
    ensures forall i :: 0 <= i < |reqs| ==> r[i].cmd == reqs[i].cmd
    ensures forall i :: 0 <= i < |reqs| ==> r[i].puts == reqs[i].puts + if i in rqs then 1 else 0
  {
    seq(|reqs|, i requires 0 <= i < |reqs| => if i in rqs then reqs[i].(puts := reqs[i].puts + 1) else reqs[i])
  }

  /** Command `id` takes `n` requests and goes on to phase `p`. */
  function WithRequests(s: State, id: CmdId, n: nat, p: Phase): State
    requires id < |s.cmds|
  {
    TakeRequests(s, id, n).(cmds := s.cmds[id := s.cmds[id].(phase := p, rqs := NewRequests(s, n))])
  }

  function TakeDone(s: State, owner: Owner): State
    requires s.q.done != [] && s.q.done[0] < |s.cmds|
  {
    var id := s.q.done[0];
    s.(q := Taken(s.q), handed := s.handed + [id],
       cmds := s.cmds[id := s.cmds[id].(phase := Reaped, owner := owner)])
  }

  function Put(s: State, id: CmdId): State
    requires id < |s.cmds|
  {
    SetPhase(s, id, Settled).(reqs := PutBack(s.reqs, s.cmds[id].rqs))
  }

  function FreeMemory(s: State, id: CmdId): State
    requires id < |s.cmds|
  {
    s.(cmds := s.cmds[id := s.cmds[id].(phase := Freed, frees := s.cmds[id].frees + 1)])
  }

  function Forget(s: State, id: CmdId): State
    requires id < |s.cmds|
  {
    SetPhase(s, id, Gone).(q := Uncounted(s.q))
  }

  function WakeUp(t: Tear): Tear {
    match t
    case DrainWait(_) => DrainWait(true)
    case DiscardWait(_) => DiscardWait(true)
    case _ => t
  }

  /** A wake-up reaches every reader on the wait queue, asleep or about to look. */
  function WakeAll(readers: map<ReaderId, Reader>): (woken: map<ReaderId, Reader>)
    ensures woken.Keys == readers.Keys
    ensures forall r :: r in readers ==> woken[r] == readers[r].(woken := true)
  {
    map r | r in readers :: readers[r].(woken := true)
  }

  /** The list of finished commands and the draining thread refer to commands that exist. */
  predicate Shape(s: State) {
    && (s.q.doneCmds != 0 <==> s.q.done != [])
    && (s.q.done != [] ==> s.q.done[0] < |s.cmds|)
    && (s.tear.DiscardPut? || s.tear.DiscardFree? || s.tear.DiscardUncount? ==> s.tear.id < |s.cmds|)
  }

  /** One step of the draining thread. */
  function TearNext(s: State): State
    requires Shape(s) && Enabled(s, TearStep)
  {
    match s.tear
    case DrainCheck =>
      (match Decide(s.q)
       case NoData => s.(tear := DiscardCheck)
       case Bug => s
       case Again => s
       case Sleep => s.(tear := DrainWait(false)))
    case DrainWait(_) => s.(tear := DrainCheck)
    case DiscardCheck => s.(tear := if s.q.queued == 0 then Torn else DiscardGet)
    case DiscardGet =>
      if s.q.done != [] then TakeDone(s, Teardown).(tear := DiscardPut(s.q.done[0]))
      else if !s.q.block then s.(tear := Torn)
      else s.(tear := DiscardWait(false))
    case DiscardWait(_) => s.(tear := DiscardGet)
    case DiscardPut(id) => Put(s, id).(tear := DiscardFree(id))
    case DiscardFree(id) => FreeMemory(s, id).(tear := DiscardUncount(id))
    case DiscardUncount(id) => Forget(s, id).(tear := DiscardCheck)
  }

  function Apply(s: State, l: Label): State
    requires Shape(s) && Enabled(s, l)
  {
    match l
    case Open(f) => s.(files := s.files + {f})
    case SetMax(f, n) => s.(q := s.q.(maxQueue := n), maxEver := if n > s.maxEver then n else s.maxEver)
    case SetBlock(f, b) => s.(q := s.q.(block := b))
    case Reserve(f) => s.(q := Counted(s.q), cmds := s.cmds + [Cmd(Reserved, File(f), [], 0)])
    case AllocFail(id) => SetPhase(s, id, NoMemory).(q := Uncounted(s.q))
    case AllocOk(id) => SetPhase(s, id, Setup)
    case MapFail(id, taken) => WithRequests(s, id, taken, MapFailed)
    case UndoMap(id) => Put(s, id)
    case MapOk(id, taken) => WithRequests(s, id, taken, Mapped)
    case List(id) => SetPhase(s, id, OnBusy).(q := Listed(s.q, id))
    case Submit(id) => s.(cmds := s.cmds[id := s.cmds[id].(phase := Submitted, owner := Nobody)])
    case Complete(id) =>
      SetPhase(s, id, Finished).(q := Moved(s.q, id), wakes := s.wakes + 1, completed := s.completed + [id])
    case Wake => s.(wakes := s.wakes - 1, tear := WakeUp(s.tear), readers := WakeAll(s.readers))
    case Take(f) => TakeDone(s, File(f))
    case Enqueue(r, f) => s.(readers := s.readers[r := Reader(f, false, false)])
    case Look(r) =>
      s.(readers := if s.q.doneCmds != 0 then s.readers - {r} else s.readers[r := s.readers[r].(asleep := true)])
    case Stir(r) => s.(readers := s.readers[r := Reader(s.readers[r].file, false, false)])
    case Interrupt(r) => s.(readers := s.readers - {r})
    case PutRequests(id) => Put(s, id)
    case Free(id) => FreeMemory(s, id)
    case Uncount(id) => Forget(s, id)
    case SgMap(f, taken) =>
      TakeRequests(s, |s.cmds|, taken).(cmds := s.cmds + [Cmd(SgMapped, File(f), NewRequests(s, taken), 0)])
    case SgFail(f, taken) =>
      TakeRequests(s, |s.cmds|, taken).(cmds := s.cmds + [Cmd(SgFailed, File(f), NewRequests(s, taken), 0)])
    case SgUndo(id) => SetPhase(s, id, SgGone).(reqs := PutBack(s.reqs, s.cmds[id].rqs))
    case SgDone(id) => SetPhase(s, id, SgGone).(reqs := PutBack(s.reqs, s.cmds[id].rqs))
    case Release(f) =>
      var files := s.files - {f};
      if files == {} then s.(files := files, q := s.q.(block := true), tear := DrainCheck) else s.(files := files)
    case TearStep => TearNext(s)
  }
}
