/**
 What every step of the bsg protocol keeps (linux-2.6.24.3/block/bsg.c): the counters agree with the
 commands, the lists hold each command once, memory and requests are given back exactly once, and
 commands are handed out in the order in which they completed.
 */
module BsgInvariant {
  import opened Seqs
  import opened BsgQueue
  import opened BsgMachine

  // ----- counting commands -----

  function One(b: bool): nat { if b then 1 else 0 }

  function Tally(cmds: seq<Cmd>, p: Cmd -> bool): nat {
    if cmds == [] then 0 else Tally(cmds[..|cmds| - 1], p) + One(p(cmds[|cmds| - 1]))
  }

  lemma {:induction false} TallyUpdate(cmds: seq<Cmd>, i: nat, c: Cmd, p: Cmd -> bool)
    requires i < |cmds|
    ensures Tally(cmds[i := c], p) == Tally(cmds, p) - One(p(cmds[i])) + One(p(c))
  {
    var n := |cmds| - 1;
    if i < n {
      TallyUpdate(cmds[..n], i, c, p);
      assert cmds[i := c][..n] == cmds[..n][i := c];
    } else {
      assert cmds[i := c][..n] == cmds[..n];
    }
  }

  lemma {:induction false} TallyAtMost(cmds: seq<Cmd>, p: Cmd -> bool, q: Cmd -> bool)
    requires forall i :: 0 <= i < |cmds| && p(cmds[i]) ==> q(cmds[i])
    ensures Tally(cmds, p) <= Tally(cmds, q)
  {
    if cmds != [] {
      TallyAtMost(cmds[..|cmds| - 1], p, q);
    }
  }

  lemma {:induction false} TallySum(cmds: seq<Cmd>, p: Cmd -> bool, q: Cmd -> bool, r: Cmd -> bool)
    requires forall i :: 0 <= i < |cmds| ==> One(p(cmds[i])) == One(q(cmds[i])) + One(r(cmds[i]))
    ensures Tally(cmds, p) == Tally(cmds, q) + Tally(cmds, r)
  {
    if cmds != [] {
      TallySum(cmds[..|cmds| - 1], p, q, r);
    }
  }

  // ----- the invariant -----

  ghost predicate CountsAgree(s: State) {
    && s.q.queued == Tally(s.cmds, IsCounted)
    && |s.q.busy| == Tally(s.cmds, IsBusy)
    && s.q.doneCmds == |s.q.done| == Tally(s.cmds, IsDone)
  }

  ghost predicate LimitKept(s: State) {
    s.q.queued <= s.maxEver && s.q.maxQueue <= s.maxEver
  }

  ghost predicate ListsAgree(s: State) {
    && NoRepeats(s.q.busy) && NoRepeats(s.q.done)
    && (forall id :: id in s.q.busy ==> id < |s.cmds|)
    && (forall id :: id in s.q.done ==> id < |s.cmds|)
    && (forall id :: 0 <= id < |s.cmds| ==> (id in s.q.busy <==> IsBusy(s.cmds[id])))
    && (forall id :: 0 <= id < |s.cmds| ==> (id in s.q.done <==> IsDone(s.cmds[id])))
  }

  /** The draining thread has command `id` in hand. */
  ghost predicate Draining(t: Tear, id: CmdId, p: Phase) {
    || (t == DiscardPut(id) && p == Reaped)
    || (t == DiscardFree(id) && p == Settled)
    || (t == DiscardUncount(id) && p == Freed)
  }

  ghost predicate Owned(s: State, id: CmdId)
    requires id < |s.cmds|
  {
    var c := s.cmds[id];
    match c.owner
    case Nobody => !InHand(c)
    case File(f) => InHand(c) ==> f in s.files
    case Teardown => InHand(c) ==> Draining(s.tear, id, c.phase)
  }

  ghost predicate OwnersAgree(s: State) {
    && (forall id :: 0 <= id < |s.cmds| ==> Owned(s, id))
    && (s.tear.DiscardPut? || s.tear.DiscardFree? || s.tear.DiscardUncount? ==>
          && s.tear.id < |s.cmds| && s.cmds[s.tear.id].owner == Teardown
          && Draining(s.tear, s.tear.id, s.cmds[s.tear.id].phase))
  }

  /** Nothing completed is lost or repeated, and it is handed out in order of completion. */
  ghost predicate InOrder(s: State) {
    && s.completed == s.handed + s.q.done
    && NoRepeats(s.completed)
    && (forall id :: id in s.completed ==> id < |s.cmds| && WasCompleted(s.cmds[id]))
  }

  ghost predicate FreedOnce(s: State) {
    forall id :: 0 <= id < |s.cmds| ==> s.cmds[id].frees == One(IsFreed(s.cmds[id]))
  }

  ghost predicate TakenFor(reqs: seq<Req>, rqs: seq<ReqId>, id: CmdId) {
    forall r :: r in rqs ==> r < |reqs| && reqs[r].cmd == id
  }

  /** A request is put back once, by the time its command no longer holds it. */
  ghost predicate RequestsAgree(s: State) {
    && (forall r :: 0 <= r < |s.reqs| ==>
          && s.reqs[r].cmd < |s.cmds|
          && !BeforeRequests(s.cmds[s.reqs[r].cmd])
          && s.reqs[r].puts == One(!HoldsRequests(s.cmds[s.reqs[r].cmd]))
          && (HoldsRequests(s.cmds[s.reqs[r].cmd]) ==> r in s.cmds[s.reqs[r].cmd].rqs))
    && (forall id :: 0 <= id < |s.cmds| && HoldsRequests(s.cmds[id]) ==> TakenFor(s.reqs, s.cmds[id].rqs, id))
  }

  /** Waiting for completions is over. */
  ghost predicate Discarding(t: Tear) {
    !t.Live? && !t.DrainCheck? && !t.DrainWait?
  }

  ghost predicate DrainAgrees(s: State) {
    && (s.tear.Live? <==> s.files != {})
    && (!s.tear.Live? ==> s.q.block)
    && (s.tear == DrainWait(false) ==> s.q.busy != [] || s.wakes > 0)
    && (Discarding(s.tear) ==> s.q.busy == [])
    && (s.tear.DiscardGet? ==> s.q.queued > 0)
    && !s.tear.DiscardWait?
    && (s.tear.Torn? ==> s.q.queued == 0)
  }

  /** Readers belong to open files, and one that sleeps beside a finished command has a wake-up coming. */
  ghost predicate ReadersAgree(s: State) {
    forall r :: r in s.readers ==> ReaderOk(s, s.readers[r])
  }

  ghost predicate ReaderOk(s: State, r: Reader) {
    r.file in s.files && (r.asleep && !r.woken && s.q.done != [] ==> s.wakes > 0)
  }

  ghost predicate Inv(s: State) {
    && CountsAgree(s) && LimitKept(s) && ListsAgree(s) && OwnersAgree(s) && InOrder(s)
    && FreedOnce(s) && RequestsAgree(s) && DrainAgrees(s) && ReadersAgree(s)
  }

  lemma InvHasShape(s: State)
    requires CountsAgree(s) && ListsAgree(s) && OwnersAgree(s)
    ensures Shape(s)
  {
    if s.q.done != [] {
      assert s.q.done[0] in s.q.done;
    }
  }

  lemma InvAtStart(f: FileId, block: bool)
    ensures Inv(Start(f, block))
  {
  }

  /** The part of the invariant that speaks of commands, lists and requests only. */
  ghost predicate Core(s: State) {
    CountsAgree(s) && ListsAgree(s) && InOrder(s) && FreedOnce(s) && RequestsAgree(s)
  }

  // ----- what changing one command does to each part -----

  lemma CountsUpdate(s: State, id: CmdId, c: Cmd, s': State)
    requires CountsAgree(s) && id < |s.cmds| && s'.cmds == s.cmds[id := c]
    requires s'.q.queued == s.q.queued - One(IsCounted(s.cmds[id])) + One(IsCounted(c))
    requires |s'.q.busy| == |s.q.busy| - One(IsBusy(s.cmds[id])) + One(IsBusy(c))
    requires |s'.q.done| == |s.q.done| - One(IsDone(s.cmds[id])) + One(IsDone(c))
    requires s'.q.doneCmds == |s'.q.done|
    ensures CountsAgree(s')
  {
    TallyUpdate(s.cmds, id, c, IsCounted);
    TallyUpdate(s.cmds, id, c, IsBusy);
    TallyUpdate(s.cmds, id, c, IsDone);
  }

  lemma CountsAppend(s: State, c: Cmd, s': State)
    requires CountsAgree(s) && s'.cmds == s.cmds + [c] && !IsBusy(c) && !IsDone(c)
    requires s'.q == s.q.(queued := s.q.queued + One(IsCounted(c)))
    ensures CountsAgree(s')
  {
  }

  /** A command that is on neither list before or after. */
  lemma QuietUpdate(s: State, id: CmdId, c: Cmd, s': State)
    requires Core(s) && id < |s.cmds| && s'.cmds == s.cmds[id := c]
    requires !IsBusy(s.cmds[id]) && !IsDone(s.cmds[id]) && !IsBusy(c) && !IsDone(c)
    requires WasCompleted(s.cmds[id]) ==> WasCompleted(c)
    requires c.frees == One(IsFreed(c))
    requires s'.q == s.q.(queued := s.q.queued - One(IsCounted(s.cmds[id])) + One(IsCounted(c)))
    requires s'.completed == s.completed && s'.handed == s.handed
    requires RequestsAgree(s')
    ensures Core(s')
  {
    CountsUpdate(s, id, c, s');
    hide CountsAgree, RequestsAgree;
  }

  lemma QuietAppend(s: State, c: Cmd, s': State)
    requires Core(s) && s'.cmds == s.cmds + [c]
    requires !IsBusy(c) && !IsDone(c) && c.frees == One(IsFreed(c))
    requires s'.q == s.q.(queued := s.q.queued + One(IsCounted(c)))
    requires s'.completed == s.completed && s'.handed == s.handed
    requires RequestsAgree(s')
    ensures Core(s')
  {
    CountsAppend(s, c, s');
    hide CountsAgree, RequestsAgree;
  }

  // ----- requests -----

  /** The command changes, its requests do not. */
  lemma RequestsKept(s: State, id: CmdId, c: Cmd, s': State)
    requires RequestsAgree(s) && id < |s.cmds| && s'.cmds == s.cmds[id := c] && s'.reqs == s.reqs
    requires c.rqs == s.cmds[id].rqs && HoldsRequests(c) == HoldsRequests(s.cmds[id])
    requires BeforeRequests(c) ==> BeforeRequests(s.cmds[id])
    ensures RequestsAgree(s')
  {
  }

  /** The command takes its requests, or the first of them before a later step fails. */
  lemma RequestsTaken(s: State, id: CmdId, n: nat, c: Cmd, s': State)
    requires RequestsAgree(s) && id < |s.cmds| && s'.cmds == s.cmds[id := c]
    requires BeforeRequests(s.cmds[id]) && HoldsRequests(c)
    requires s'.reqs == TakeRequests(s, id, n).reqs && c.rqs == NewRequests(s, n)
    ensures RequestsAgree(s')
  {
  }

  lemma RequestsTakenByNew(s: State, n: nat, c: Cmd, s': State)
    requires RequestsAgree(s) && s'.cmds == s.cmds + [c]
    requires HoldsRequests(c)
    requires s'.reqs == TakeRequests(s, |s.cmds|, n).reqs && c.rqs == NewRequests(s, n)
    ensures RequestsAgree(s')
  {
  }

  lemma RequestsPutBack(s: State, id: CmdId, c: Cmd, s': State)
    requires RequestsAgree(s) && id < |s.cmds| && s'.cmds == s.cmds[id := c]
    requires HoldsRequests(s.cmds[id]) && !HoldsRequests(c) && !BeforeRequests(c)
    requires s'.reqs == PutBack(s.reqs, s.cmds[id].rqs)
    ensures RequestsAgree(s')
  {
  }

  // ----- actions on commands -----

  lemma ReserveKeeps(s: State, f: FileId)
    requires Core(s) && Shape(s) && Enabled(s, Reserve(f))
    ensures Core(Apply(s, Reserve(f)))
  {
    var c := Cmd(Reserved, File(f), [], 0);
    assert RequestsAgree(Apply(s, Reserve(f)));
    QuietAppend(s, c, Apply(s, Reserve(f)));
  }

  lemma AllocKeeps(s: State, id: CmdId)
    requires Core(s) && Shape(s) && Is(s, id, Reserved)
    ensures Core(Apply(s, AllocFail(id))) && Core(Apply(s, AllocOk(id)))
  {
    hide CountsAgree, ListsAgree, InOrder, RequestsAgree;
    var no, ok := Apply(s, AllocFail(id)), Apply(s, AllocOk(id));
    RequestsKept(s, id, no.cmds[id], no);
    QuietUpdate(s, id, no.cmds[id], no);
    RequestsKept(s, id, ok.cmds[id], ok);
    QuietUpdate(s, id, ok.cmds[id], ok);
  }

  lemma MapKeeps(s: State, l: Label)
    requires Core(s) && Shape(s) && (l.MapOk? || l.MapFail?) && Enabled(s, l)
    ensures Core(Apply(s, l))
  {
    hide CountsAgree, ListsAgree, InOrder, RequestsAgree;
    var s' := Apply(s, l);
    RequestsTaken(s, l.id, l.taken, s'.cmds[l.id], s');
    QuietUpdate(s, l.id, s'.cmds[l.id], s');
  }

  lemma SgKeeps(s: State, l: Label)
    requires Core(s) && Shape(s) && (l.SgMap? || l.SgFail?) && Enabled(s, l)
    ensures Core(Apply(s, l))
  {
    hide CountsAgree, ListsAgree, InOrder, RequestsAgree;
    var s' := Apply(s, l);
    RequestsTakenByNew(s, l.taken, s'.cmds[|s.cmds|], s');
    QuietAppend(s, s'.cmds[|s.cmds|], s');
  }

  /** SG_IO puts its requests back, after completion or because mapping failed. */
  lemma SgPutKeeps(s: State, l: Label)
    requires Core(s) && Shape(s) && (l.SgDone? || l.SgUndo?) && Enabled(s, l)
    ensures Core(Apply(s, l))
  {
    hide CountsAgree, ListsAgree, InOrder, RequestsAgree;
    var s', id := Apply(s, l), l.id;
    RequestsPutBack(s, id, s'.cmds[id], s');
    QuietUpdate(s, id, s'.cmds[id], s');
  }

  lemma PutKeeps(s: State, id: CmdId)
    requires Core(s) && (Is(s, id, Reaped) || Is(s, id, MapFailed))
    ensures Core(Put(s, id))
  {
    hide CountsAgree, ListsAgree, InOrder, RequestsAgree;
    var s' := Put(s, id);
    RequestsPutBack(s, id, s'.cmds[id], s');
    QuietUpdate(s, id, s'.cmds[id], s');
  }

  lemma FreeKeeps(s: State, id: CmdId)
    requires Core(s) && Is(s, id, Settled)
    ensures Core(FreeMemory(s, id))
  {
    hide CountsAgree, ListsAgree, InOrder, RequestsAgree;
    var s' := FreeMemory(s, id);
    RequestsKept(s, id, s'.cmds[id], s');
    QuietUpdate(s, id, s'.cmds[id], s');
  }

  lemma ForgetKeeps(s: State, id: CmdId)
    requires Core(s) && Is(s, id, Freed)
    ensures Core(Forget(s, id))
  {
    hide CountsAgree, ListsAgree, InOrder, RequestsAgree;
    var s' := Forget(s, id);
    RequestsKept(s, id, s'.cmds[id], s');
    QuietUpdate(s, id, s'.cmds[id], s');
  }

  lemma ListKeeps(s: State, id: CmdId)
    requires Core(s) && Shape(s) && Is(s, id, Mapped)
    ensures Core(Apply(s, List(id)))
  {
    hide RequestsAgree, Tally;
    var s' := Apply(s, List(id));
    RequestsKept(s, id, s'.cmds[id], s');
    CountsUpdate(s, id, s'.cmds[id], s');
    hide CountsAgree;
  }

  lemma SubmitKeeps(s: State, id: CmdId)
    requires Core(s) && Shape(s) && Is(s, id, OnBusy)
    ensures Core(Apply(s, Submit(id)))
  {
    hide RequestsAgree, Tally;
    var s' := Apply(s, Submit(id));
    RequestsKept(s, id, s'.cmds[id], s');
    CountsUpdate(s, id, s'.cmds[id], s');
    hide CountsAgree;
  }

  lemma CompleteLists(s: State, id: CmdId)
    requires Core(s) && Shape(s) && Is(s, id, Submitted)
    ensures ListsAgree(Apply(s, Complete(id)))
  {
    hide CountsAgree, RequestsAgree, Without, InOrder, FreedOnce;
    WithoutOne(s.q.busy, id);
  }

  lemma CompleteOrder(s: State, id: CmdId)
    requires Core(s) && Shape(s) && Is(s, id, Submitted)
    ensures InOrder(Apply(s, Complete(id)))
  {
    hide CountsAgree, RequestsAgree, Without, ListsAgree, FreedOnce;
    var s' := Apply(s, Complete(id));
    assert id !in s.completed;
    assert s'.completed == s'.handed + s'.q.done;
  }

  lemma CompleteKeeps(s: State, id: CmdId)
    requires Core(s) && Shape(s) && Is(s, id, Submitted)
    ensures Core(Apply(s, Complete(id)))
  {
    hide RequestsAgree, InOrder, Without, Tally;
    var s' := Apply(s, Complete(id));
    CompleteLists(s, id);
    CompleteOrder(s, id);
    WithoutOne(s.q.busy, id);
    RequestsKept(s, id, s'.cmds[id], s');
    CountsUpdate(s, id, s'.cmds[id], s');
    hide CountsAgree, ListsAgree;
  }

  lemma TakeLists(s: State, owner: Owner)
    requires Core(s) && s.q.done != [] && s.q.done[0] < |s.cmds|
    ensures ListsAgree(TakeDone(s, owner))
  {
    hide CountsAgree, RequestsAgree, InOrder, FreedOnce;
    var s', id := TakeDone(s, owner), s.q.done[0];
    assert id in s.q.done && IsDone(s.cmds[id]);
    assert forall k :: k in s.q.done <==> k == id || k in s'.q.done;
    assert id !in s'.q.done;
  }

  lemma TakeOrder(s: State, owner: Owner)
    requires Core(s) && s.q.done != [] && s.q.done[0] < |s.cmds|
    ensures InOrder(TakeDone(s, owner))
  {
  }

  lemma TakeKeeps(s: State, owner: Owner)
    requires Core(s) && s.q.done != [] && s.q.done[0] < |s.cmds|
    ensures Core(TakeDone(s, owner))
  {
    var s', id := TakeDone(s, owner), s.q.done[0];
    TakeLists(s, owner);
    TakeOrder(s, owner);
    assert id in s.q.done && IsDone(s.cmds[id]);
    RequestsKept(s, id, s'.cmds[id], s');
    CountsUpdate(s, id, s'.cmds[id], s');
    hide CountsAgree, RequestsAgree, ListsAgree, InOrder;
  }

  // ----- owners -----

  /** Commands that the draining thread has taken and still counts. */
  function InDrain(t: Tear): nat {
    if t.DiscardPut? || t.DiscardFree? || t.DiscardUncount? then 1 else 0
  }

  lemma OwnersUpdate(s: State, id: CmdId, c: Cmd, s': State)
    requires OwnersAgree(s) && id < |s.cmds| && s'.cmds == s.cmds[id := c]
    requires s'.files == s.files && s'.tear == s.tear
    requires InHand(s.cmds[id]) ==> s.cmds[id].owner != Teardown
    requires InHand(c) ==> c.owner.File? && c.owner.file in s.files
    ensures OwnersAgree(s')
  {
    forall k | 0 <= k < |s'.cmds|
      ensures Owned(s', k)
    {
      assert k != id ==> Owned(s, k);
    }
  }

  lemma OwnersAppend(s: State, c: Cmd, s': State)
    requires OwnersAgree(s) && s'.cmds == s.cmds + [c]
    requires s'.files == s.files && s'.tear == s.tear
    requires c.owner.File? && c.owner.file in s.files
    ensures OwnersAgree(s')
  {
    forall k | 0 <= k < |s'.cmds|
      ensures Owned(s', k)
    {
      assert k < |s.cmds| ==> Owned(s, k);
    }
  }

  /** The draining thread moves on with the command it has in hand. */
  lemma OwnersDrain(s: State, id: CmdId, c: Cmd, s': State)
    requires OwnersAgree(s) && id < |s.cmds| && s'.cmds == s.cmds[id := c] && s'.files == s.files
    requires c.owner == Teardown
    requires forall k, p :: Draining(s.tear, k, p) ==> k == id
    requires if InHand(c) then Draining(s'.tear, id, c.phase)
             else !s'.tear.DiscardPut? && !s'.tear.DiscardFree? && !s'.tear.DiscardUncount?
    ensures OwnersAgree(s')
  {
    forall k | 0 <= k < |s'.cmds|
      ensures Owned(s', k)
    {
      assert k != id ==> Owned(s, k);
    }
  }

  // ----- every step -----

  lemma CoreStep(s: State, l: Label)
    requires Core(s) && OwnersAgree(s) && Enabled(s, l)
    ensures Shape(s) && Core(Apply(s, l))
  {
    hide Core, OwnersAgree;
    CoreHasShape(s);
    match l
    case Reserve(f) => ReserveKeeps(s, f);
    case AllocFail(id) => AllocKeeps(s, id);
    case AllocOk(id) => AllocKeeps(s, id);
    case MapFail(_, _) => MapKeeps(s, l);
    case UndoMap(id) => PutKeeps(s, id);
    case MapOk(_, _) => MapKeeps(s, l);
    case List(id) => ListKeeps(s, id);
    case Submit(id) => SubmitKeeps(s, id);
    case Complete(id) => CompleteKeeps(s, id);
    case Take(f) => TakeKeeps(s, File(f));
    case PutRequests(id) => PutKeeps(s, id);
    case Free(id) => FreeKeeps(s, id);
    case Uncount(id) => ForgetKeeps(s, id);
    case SgMap(_, _) => SgKeeps(s, l);
    case SgFail(_, _) => SgKeeps(s, l);
    case SgUndo(_) => SgPutKeeps(s, l);
    case SgDone(_) => SgPutKeeps(s, l);
    case TearStep => CoreTear(s);
    case _ => CoreElsewhere(s, Apply(s, l));
  }

  lemma CoreHasShape(s: State)
    requires Core(s) && OwnersAgree(s)
    ensures Shape(s)
  {
    InvHasShape(s);
  }

  /** Steps that leave commands, lists and requests alone. */
  lemma CoreElsewhere(s: State, s': State)
    requires Core(s) && s'.cmds == s.cmds && s'.reqs == s.reqs
    requires s'.completed == s.completed && s'.handed == s.handed
    requires s'.q == s.q.(maxQueue := s'.q.maxQueue, block := s'.q.block)
    ensures Core(s')
  {
  }

  lemma CoreTear(s: State)
    requires Core(s) && OwnersAgree(s) && Shape(s) && Enabled(s, TearStep)
    ensures Core(TearNext(s))
  {
    hide Core, OwnersAgree, Put, FreeMemory, Forget, TakeDone;
    var t, s' := s.tear, TearNext(s);
    if InDrain(t) == 1 {
      OwnersOfDrain(s);
    }
    var did := s;
    if t.DiscardGet? && s.q.done != [] {
      TakeKeeps(s, Teardown);
      did := TakeDone(s, Teardown);
    } else if t.DiscardPut? {
      PutKeeps(s, t.id);
      did := Put(s, t.id);
    } else if t.DiscardFree? {
      FreeKeeps(s, t.id);
      did := FreeMemory(s, t.id);
    } else if t.DiscardUncount? {
      ForgetKeeps(s, t.id);
      did := Forget(s, t.id);
    }
    CoreElsewhere(did, s');
  }

  /** A command that a thread other than the draining one handles belongs to an open file. */
  lemma InHandOfFile(s: State, id: CmdId)
    requires OwnersAgree(s) && id < |s.cmds| && InHand(s.cmds[id])
    requires s.cmds[id].phase in {Reaped, Settled, Freed} ==> s.cmds[id].owner != Teardown
    ensures s.cmds[id].owner.File? && s.cmds[id].owner.file in s.files
  {
    assert Owned(s, id);
  }

  lemma OwnersStep(s: State, l: Label)
    requires OwnersAgree(s) && DrainAgrees(s) && Core(s) && Shape(s) && Enabled(s, l)
    ensures OwnersAgree(Apply(s, l))
  {
    hide OwnersAgree, DrainAgrees, Core, Apply, Enabled, Shape;
    match l
    case Reserve(_) => OwnersNew(s, l);
    case SgMap(_, _) => OwnersNew(s, l);
    case SgFail(_, _) => OwnersNew(s, l);
    case AllocFail(id) => OwnersHandled(s, l, id);
    case AllocOk(id) => OwnersHandled(s, l, id);
    case MapFail(id, _) => OwnersHandled(s, l, id);
    case UndoMap(id) => OwnersHandled(s, l, id);
    case MapOk(id, _) => OwnersHandled(s, l, id);
    case List(id) => OwnersHandled(s, l, id);
    case Submit(id) => OwnersHandled(s, l, id);
    case PutRequests(id) => OwnersHandled(s, l, id);
    case Free(id) => OwnersHandled(s, l, id);
    case Uncount(id) => OwnersHandled(s, l, id);
    case SgUndo(id) => OwnersHandled(s, l, id);
    case SgDone(id) => OwnersHandled(s, l, id);
    case Complete(id) => OwnersCompleted(s, id);
    case Take(f) => OwnersTake(s, f);
    case TearStep =>
      TearIsNext(s);
      OwnersTear(s);
    case _ => OwnersElsewhere(s, l);
  }

  lemma TearIsNext(s: State)
    requires Shape(s) && Enabled(s, TearStep)
    ensures Apply(s, TearStep) == TearNext(s)
  {
    hide TearNext;
  }

  lemma OwnersNew(s: State, l: Label)
    requires OwnersAgree(s) && Shape(s) && Enabled(s, l) && (l.Reserve? || l.SgMap? || l.SgFail?)
    ensures OwnersAgree(Apply(s, l))
  {
    hide OwnersAgree, MoreRequests, NewRequests;
    OwnersAppend(s, Apply(s, l).cmds[|s.cmds|], Apply(s, l));
  }

  lemma OwnersCompleted(s: State, id: CmdId)
    requires OwnersAgree(s) && Shape(s) && Enabled(s, Complete(id))
    ensures OwnersAgree(Apply(s, Complete(id)))
  {
    hide OwnersAgree, Without;
    OwnersUpdate(s, id, Apply(s, Complete(id)).cmds[id], Apply(s, Complete(id)));
  }

  /** A thread moves on with a command it has in hand. */
  lemma OwnersHandled(s: State, l: Label, id: CmdId)
    requires OwnersAgree(s) && Shape(s) && Enabled(s, l)
    requires l in {AllocFail(id), AllocOk(id), UndoMap(id), List(id), Submit(id), PutRequests(id), Free(id),
                   Uncount(id), SgUndo(id), SgDone(id)}
             || (l.MapFail? && l.id == id) || (l.MapOk? && l.id == id)
    ensures OwnersAgree(Apply(s, l))
  {
    InHandOfFile(s, id);
    OwnersUpdate(s, id, Apply(s, l).cmds[id], Apply(s, l));
  }

  lemma OwnersTake(s: State, f: FileId)
    requires OwnersAgree(s) && Core(s) && Shape(s) && Enabled(s, Take(f))
    ensures OwnersAgree(Apply(s, Take(f)))
  {
    var id := s.q.done[0];
    assert id in s.q.done && IsDone(s.cmds[id]);
    hide Core;
    OwnersUpdate(s, id, Apply(s, Take(f)).cmds[id], Apply(s, Take(f)));
  }

  /** A reader goes to sleep, wakes up or gives up. */
  predicate ByReader(l: Label) { l.Enqueue? || l.Look? || l.Stir? || l.Interrupt? }

  lemma OwnersElsewhere(s: State, l: Label)
    requires OwnersAgree(s) && DrainAgrees(s) && Shape(s) && Enabled(s, l)
    requires l.Open? || l.SetMax? || l.SetBlock? || l.Wake? || l.Release? || ByReader(l)
    ensures OwnersAgree(Apply(s, l))
  {
    var s' := Apply(s, l);
    forall k | 0 <= k < |s'.cmds|
      ensures Owned(s', k)
    {
      assert Owned(s, k);
    }
  }

  lemma OwnersTear(s: State)
    requires OwnersAgree(s) && Core(s) && Shape(s) && Enabled(s, TearStep)
    ensures OwnersAgree(TearNext(s))
  {
    hide OwnersAgree, Core, PutBack, Decide;
    var t, s' := s.tear, TearNext(s);
    if t.DiscardGet? && s.q.done != [] {
      OwnersDrain(s, s.q.done[0], s'.cmds[s.q.done[0]], s');
    } else if InDrain(t) == 1 {
      assert s.cmds[t.id].owner == Teardown by { OwnersOfDrain(s); }
      OwnersDrain(s, t.id, s'.cmds[t.id], s');
    } else {
      OwnersIdle(s, s');
    }
  }

  lemma OwnersOfDrain(s: State)
    requires OwnersAgree(s) && InDrain(s.tear) == 1
    ensures s.tear.id < |s.cmds| && s.cmds[s.tear.id].owner == Teardown
    ensures Draining(s.tear, s.tear.id, s.cmds[s.tear.id].phase)
  {
  }

  /** The draining thread has nothing in hand before and after. */
  lemma OwnersIdle(s: State, s': State)
    requires OwnersAgree(s) && s'.cmds == s.cmds && s'.files == s.files
    requires forall k, p :: !Draining(s.tear, k, p)
    requires !s'.tear.DiscardPut? && !s'.tear.DiscardFree? && !s'.tear.DiscardUncount?
    ensures OwnersAgree(s')
  {
    forall k | 0 <= k < |s'.cmds|
      ensures Owned(s', k)
    {
      assert Owned(s, k);
    }
  }

  // ----- a closed device -----

  lemma {:induction false} TallyNone(cmds: seq<Cmd>, p: Cmd -> bool)
    requires forall i :: 0 <= i < |cmds| ==> !p(cmds[i])
    ensures Tally(cmds, p) == 0
  {
    if cmds != [] {
      TallyNone(cmds[..|cmds| - 1], p);
    }
  }

  lemma {:induction false} TallyOnly(cmds: seq<Cmd>, k: nat, p: Cmd -> bool)
    requires k < |cmds| && forall i :: 0 <= i < |cmds| ==> (p(cmds[i]) <==> i == k)
    ensures Tally(cmds, p) == 1
  {
    var n := |cmds| - 1;
    if k < n {
      TallyOnly(cmds[..n], k, p);
    } else {
      TallyNone(cmds[..n], p);
    }
  }

  ghost predicate IsWaiting(c: Cmd) { IsCounted(c) && !IsBusy(c) }

  ghost predicate IsHeld(c: Cmd) { IsWaiting(c) && !IsDone(c) }

  /** With every file closed, a counted command is busy, done, or in the draining thread's hands. */
  lemma QueueWhenClosed(s: State)
    requires CountsAgree(s) && OwnersAgree(s) && s.files == {}
    ensures s.q.doneCmds == |s.q.done| && s.q.queued == |s.q.busy| + |s.q.done| + InDrain(s.tear)
  {
    TallySum(s.cmds, IsCounted, IsBusy, IsWaiting);
    TallySum(s.cmds, IsWaiting, IsDone, IsHeld);
    forall i | 0 <= i < |s.cmds|
      ensures IsHeld(s.cmds[i]) ==> Draining(s.tear, i, s.cmds[i].phase)
    {
      assert Owned(s, i);
    }
    if InDrain(s.tear) == 1 {
      TallyOnly(s.cmds, s.tear.id, IsHeld);
    } else {
      TallyNone(s.cmds, IsHeld);
    }
  }

  lemma NobodyElse(s: State)
    requires OwnersAgree(s) && s.files == {}
    ensures forall id :: 0 <= id < |s.cmds| && InHand(s.cmds[id]) ==>
              s.cmds[id].owner == Teardown && Draining(s.tear, id, s.cmds[id].phase)
  {
    forall id | 0 <= id < |s.cmds| && InHand(s.cmds[id])
      ensures s.cmds[id].owner == Teardown && Draining(s.tear, id, s.cmds[id].phase)
    {
      assert Owned(s, id);
    }
  }

  /** With every file closed, only completions, wake-ups and the draining thread go on. */
  lemma OnlyDrainSteps(s: State, l: Label)
    requires OwnersAgree(s) && DrainAgrees(s) && ReadersAgree(s) && s.files == {} && Enabled(s, l)
    ensures l.Complete? || l.Wake? || l.TearStep?
  {
    NobodyElse(s);
    hide OwnersAgree;
  }

  lemma DrainStep(s: State, l: Label)
    requires Core(s) && OwnersAgree(s) && DrainAgrees(s) && ReadersAgree(s) && Shape(s) && Enabled(s, l)
    ensures DrainAgrees(Apply(s, l))
  {
    hide Core, OwnersAgree, ReadersAgree;
    hide TearNext, Without, PutBack, MoreRequests, NewRequests;
    if s.files == {} {
      OnlyDrainSteps(s, l);
      if l.TearStep? {
        DrainTear(s);
      } else {
        DrainOther(s, l);
      }
    }
  }

  lemma DrainOther(s: State, l: Label)
    requires Core(s) && DrainAgrees(s) && Shape(s) && Enabled(s, l) && s.files == {}
    requires l.Complete? || l.Wake?
    ensures DrainAgrees(Apply(s, l))
  {
    if l.Complete? {
      assert l.id in s.q.busy;
    }
  }

  lemma DrainTear(s: State)
    requires Core(s) && OwnersAgree(s) && DrainAgrees(s) && Shape(s) && Enabled(s, TearStep) && s.files == {}
    ensures DrainAgrees(TearNext(s))
  {
    QueueWhenClosed(s);
    hide Core, OwnersAgree;
  }

  lemma LimitStep(s: State, l: Label)
    requires LimitKept(s) && Shape(s) && Enabled(s, l)
    ensures LimitKept(Apply(s, l))
  {
    hide Shape, Without, PutBack, MoreRequests, NewRequests, TearNext;
    if l.TearStep? {
      AroundTear(s);
    }
  }

  /** What a step other than the readers' own does to what a reader relies on. */
  lemma Around(s: State, l: Label)
    requires Shape(s) && Enabled(s, l) && !ByReader(l)
    ensures var s' := Apply(s, l);
            && s'.readers == (if l.Wake? then WakeAll(s.readers) else s.readers)
            && (s'.files == s.files || (l.Open? && s.files <= s'.files) || (l.Release? && s'.files == s.files - {l.f}))
            && (s'.wakes == s.wakes || (l.Wake? && s'.q == s.q) || (l.Complete? && s'.wakes == s.wakes + 1))
            && (!l.Complete? && s.q.done == [] ==> s'.q.done == [])
  {
    hide Without, PutBack, MoreRequests, NewRequests, TearNext;
    if l.TearStep? {
      AroundTear(s);
    }
  }

  /** A step of the draining thread leaves readers, files, wake-ups and the limit alone. */
  lemma AroundTear(s: State)
    requires Shape(s) && Enabled(s, TearStep)
    ensures var s' := TearNext(s);
            && s'.readers == s.readers && s'.files == s.files && s'.wakes == s.wakes
            && (s.q.done == [] ==> s'.q.done == [])
            && s'.q.queued <= s.q.queued && s'.q.maxQueue == s.q.maxQueue && s'.maxEver == s.maxEver
            && s'.completed == s.completed && s'.q.block == s.q.block && |s'.reqs| == |s.reqs|
  {
    hide Without;
  }

  lemma ReadersStep(s: State, l: Label)
    requires ReadersAgree(s) && Shape(s) && Enabled(s, l)
    ensures ReadersAgree(Apply(s, l))
  {
    if ByReader(l) {
      var s' := Apply(s, l);
      forall r | r in s'.readers
        ensures ReaderOk(s', s'.readers[r])
      {
        if r in s.readers {
          assert ReaderOk(s, s.readers[r]);
        }
      }
    } else {
      Around(s, l);
      hide Apply;
      var s' := Apply(s, l);
      forall r | r in s'.readers
        ensures ReaderOk(s', s'.readers[r])
      {
        assert ReaderOk(s, s.readers[r]);
      }
    }
  }

  /** Every step keeps the invariant. */
  lemma StepKeepsInv(s: State, l: Label)
    requires Inv(s) && Enabled(s, l)
    ensures Shape(s) && Inv(Apply(s, l))
  {
    CoreStep(s, l);
    OwnersStep(s, l);
    DrainStep(s, l);
    LimitStep(s, l);
    ReadersStep(s, l);
    hide CountsAgree, ListsAgree, OwnersAgree, InOrder, FreedOnce, RequestsAgree, DrainAgrees, LimitKept, ReadersAgree,
         Apply, Enabled;
  }
}
