/**
 Taking finished commands off a bsg device (linux-2.6.24.3/block/bsg.c): the read path and the drain
 of the last release, each run by one thread while the block layer completes commands.  Which commands
 complete before each look of the thread at the device is a parameter.
 */
module BsgReaders {
  import opened Seqs
  import opened BsgQueue
  import opened BsgRequests

  /** The requests of some commands. */
  function HeldRequests(held: map<CmdId, Mapped>, ids: seq<CmdId>): set<ReqId> {
    if ids == [] then {}
    else
      var id := ids[|ids| - 1];
      HeldRequests(held, ids[..|ids| - 1]) + if id in held then Requests(held[id]) else {}
  }

  /** Each command holds live requests, one or two, and shares none with another. */
  ghost predicate Holding(held: map<CmdId, Mapped>, ids: seq<CmdId>, live: set<ReqId>) {
    && NoRepeats(ids)
    && (forall id :: id in ids ==> HoldsOwn(held, id, live))
    && (forall a, b :: a in ids && b in ids && a != b ==> Apart(held, a, b))
  }

  ghost predicate HoldsOwn(held: map<CmdId, Mapped>, id: CmdId, live: set<ReqId>) {
    id in held && |held[id].next| <= 1 && held[id].rq !in held[id].next && Requests(held[id]) <= live
  }

  ghost predicate Apart(held: map<CmdId, Mapped>, a: CmdId, b: CmdId) {
    a in held && b in held ==> Requests(held[a]) !! Requests(held[b])
  }

  lemma {:induction false} OthersApart(held: map<CmdId, Mapped>, ids: seq<CmdId>, id: CmdId)
    requires id in held && id !in ids && forall a :: a in ids ==> Apart(held, a, id)
    ensures Requests(held[id]) !! HeldRequests(held, ids)
  {
    if ids != [] {
      hide Requests;
      OthersApart(held, ids[..|ids| - 1], id);
      assert Apart(held, ids[|ids| - 1], id);
    }
  }

  lemma HeldMore(held: map<CmdId, Mapped>, ids: seq<CmdId>, id: CmdId)
    requires id in held
    ensures HeldRequests(held, ids + [id]) == HeldRequests(held, ids) + Requests(held[id])
  {
  }

  // ----- completions -----

  /** The commands of some batches, in order. */
  function Flat(batches: seq<seq<CmdId>>): seq<CmdId> {
    if batches == [] then [] else Flat(batches[..|batches| - 1]) + batches[|batches| - 1]
  }

  lemma FlatNone(batches: seq<seq<CmdId>>)
    ensures Flat(batches[..0]) == []
  {
  }

  lemma FlatMore(batches: seq<seq<CmdId>>, w: nat)
    requires w < |batches|
    ensures Flat(batches[..w + 1]) == Flat(batches[..w]) + batches[w]
  {
    assert batches[..w + 1][..w] == batches[..w];
  }

  lemma {:induction false} FlatPrefix(batches: seq<seq<CmdId>>, w: nat)
    requires w <= |batches|
    ensures Flat(batches[..w]) <= Flat(batches)
    decreases |batches|
  {
    if w == |batches| {
      assert batches[..w] == batches;
    } else {
      FlatPrefix(batches[..|batches| - 1], w);
      assert batches[..|batches| - 1][..w] == batches[..w];
    }
  }

  function WithoutAll(s: seq<CmdId>, ids: seq<CmdId>): seq<CmdId> {
    if ids == [] then s else Without(WithoutAll(s, ids[..|ids| - 1]), ids[|ids| - 1])
  }

  lemma WithoutMore(s: seq<CmdId>, ids: seq<CmdId>, id: CmdId)
    ensures WithoutAll(s, ids + [id]) == Without(WithoutAll(s, ids), id)
  {
    assert (ids + [id])[..|ids|] == ids;
  }

  lemma {:induction false} WithoutConcat(s: seq<CmdId>, a: seq<CmdId>, b: seq<CmdId>)
    ensures WithoutAll(s, a + b) == WithoutAll(WithoutAll(s, a), b)
    decreases |b|
  {
    if b == [] {
      assert a + b == a;
    } else {
      hide Without;
      var b', id := b[..|b| - 1], b[|b| - 1];
      WithoutConcat(s, a, b');
      assert a + b == (a + b') + [id] && b == b' + [id];
      WithoutMore(s, a + b', id);
      WithoutMore(WithoutAll(s, a), b', id);
    }
  }

  /** The queue after some commands have completed. */
  function Arrived(q: Queue, ids: seq<CmdId>): Queue {
    q.(busy := WithoutAll(q.busy, ids), done := q.done + ids, doneCmds := q.doneCmds + |ids|)
  }

  lemma ArrivedNone(q: Queue)
    ensures Arrived(q, []) == q
  {
    assert q.done + [] == q.done;
  }

  lemma ArrivedMore(q: Queue, a: seq<CmdId>, b: seq<CmdId>)
    ensures Arrived(Arrived(q, a), b) == Arrived(q, a + b)
  {
    hide WithoutAll;
    WithoutConcat(q.busy, a, b);
    assert q.done + a + b == q.done + (a + b);
  }

  method Arrive(d: BsgDevice, ids: seq<CmdId>)
    requires d.Valid()
    modifies d
    ensures d.Valid() && d.View() == Arrived(old(d.View()), ids)
  {
    var i := 0;
    ArrivedNone(d.View());
    assert ids[..0] == [];
    while i < |ids|
      invariant 0 <= i <= |ids| && d.Valid() && d.View() == Arrived(old(d.View()), ids[..i])
    {
      WithoutMore(old(d.busyList), ids[..i], ids[i]);
      assert ids[..i] + [ids[i]] == ids[..i + 1];
      d.RqEndIo(ids[i]);
      i := i + 1;
    }
    assert ids[..i] == ids;
  }

  /** Wait for a finished command and take it.  The next batch completes before each look at the done list;
      when there is none left, a signal ends the wait. */
  method GetDoneCmd(d: BsgDevice, batches: seq<seq<CmdId>>, w: nat) returns (r: Result<CmdId>, w': nat, ghost came: seq<CmdId>)
    requires d.Valid() && w <= |batches|
    modifies d
    ensures d.Valid() && w <= w' <= |batches| && Flat(batches[..w']) == Flat(batches[..w]) + came
    ensures w' > w + 1 ==> old(d.doneList) + Flat(batches[..w' - 1]) == Flat(batches[..w])
    ensures var q := Arrived(old(d.View()), came);
            match r
            case Ok(id) => q.done != [] && id == q.done[0] && d.View() == Taken(q)
            case Err(e) => q.done == [] && d.View() == q
                           && if q.block then e == ERESTARTSYS && w' == |batches| else e == EAGAIN
  {
    hide Flat, Arrived;
    w', came := w, [];
    ArrivedNone(d.View());
    assert Flat(batches[..w]) + [] == Flat(batches[..w]);
    ghost var q0 := d.View();
    while true
      invariant d.Valid() && w <= w' <= |batches| && Flat(batches[..w']) == Flat(batches[..w]) + came
      invariant d.View() == Arrived(q0, came) && (w' > w ==> d.doneList == [] && d.block && w' < |batches|)
      invariant w' > w ==> q0.done + Flat(batches[..w']) == Flat(batches[..w])
      decreases |batches| - w'
    {
      if w' < |batches| {
        FlatMore(batches, w');
        ArrivedMore(q0, came, batches[w']);
        Arrive(d, batches[w']);
        came := came + batches[w'];
        w' := w' + 1;
      }
      ArrivedMeans(q0, came);
      var found, id := d.NextDoneCmd();
      if found {
        return Ok(id), w', came;
      }
      if !d.block {
        return Err(EAGAIN), w', came;
      }
      if w' == |batches| {
        return Err(ERESTARTSYS), w', came;
      }
    }
  }

  lemma ArrivedMeans(q: Queue, ids: seq<CmdId>)
    ensures Arrived(q, ids).done == q.done + ids && Arrived(q, ids).block == q.block
  {
  }

  /** Put back the requests of a command that has been handed out, and free it. */
  method Finish(d: BsgDevice, pool: RequestPool, m: Mapped)
    requires d.Valid() && pool.Valid() && |m.next| <= 1 && m.rq !in m.next && Requests(m) <= pool.live
    modifies d, pool
    ensures d.Valid() && pool.Valid() && pool.live == old(pool.live) - Requests(m)
    ensures d.View() == Uncounted(old(d.View()))
  {
    pool.PutMapped(m);
    d.FreeCommand();
  }

  // ----- handing out -----

  /** The queue after `arrived` have completed and the first `k` finished commands have been handed out. */
  ghost function AfterTaking(q: Queue, arrived: seq<CmdId>, k: nat): Queue
    requires k <= |q.done + arrived|
  {
    Queue(q.queued - k, |q.done + arrived| - k, q.maxQueue, WithoutAll(q.busy, arrived), (q.done + arrived)[k..], q.block)
  }

  /** The next command of `all` to be handed out still holds its requests. */
  lemma NextHolds(held: map<CmdId, Mapped>, all: seq<CmdId>, k: nat, live0: set<ReqId>, live: set<ReqId>)
    requires Holding(held, all, live0) && k < |all| && live == live0 - HeldRequests(held, all[..k])
    ensures HoldsOwn(held, all[k], live) && all[..k + 1] == all[..k] + [all[k]]
    ensures live - Requests(held[all[k]]) == live0 - HeldRequests(held, all[..k + 1])
  {
    var id := all[k];
    assert id in all && HoldsOwn(held, id, live0);
    assert id !in all[..k];
    assert forall a :: a in all[..k] ==> a in all && a != id;
    OthersApart(held, all[..k], id);
    assert all[..k + 1] == all[..k] + [id];
    HeldMore(held, all[..k], id);
  }

  /** A thread that found queue `q` and `live0` requests has seen `arrived` complete and handed out `handed`. */
  ghost predicate Taking(q: Queue, held: map<CmdId, Mapped>, arrived: seq<CmdId>, live0: set<ReqId>,
                         now: Queue, live: set<ReqId>, handed: seq<CmdId>)
  {
    && handed <= q.done + arrived && now == AfterTaking(q, arrived, |handed|)
    && live == live0 - HeldRequests(held, handed)
  }

  lemma TakingStarts(q: Queue, held: map<CmdId, Mapped>, live: set<ReqId>)
    requires q.doneCmds == |q.done|
    ensures Taking(q, held, [], live, q, live, [])
  {
    assert q.done + [] == q.done && q.done[0..] == q.done;
  }

  lemma TakingMeans(q: Queue, held: map<CmdId, Mapped>, arrived: seq<CmdId>, live0: set<ReqId>,
                    now: Queue, live: set<ReqId>, handed: seq<CmdId>)
    requires Taking(q, held, arrived, live0, now, live, handed)
    ensures handed <= q.done + arrived
    ensures now == AfterTaking(q, arrived, |handed|) && live == live0 - HeldRequests(held, handed)
  {
  }

  /** More commands complete. */
  lemma TakingArrived(q: Queue, held: map<CmdId, Mapped>, arrived: seq<CmdId>, live0: set<ReqId>,
                      now: Queue, live: set<ReqId>, handed: seq<CmdId>, came: seq<CmdId>)
    requires Taking(q, held, arrived, live0, now, live, handed)
    ensures Taking(q, held, arrived + came, live0, Arrived(now, came), live, handed)
  {
    hide HeldRequests, WithoutAll;
    WithoutConcat(q.busy, arrived, came);
    var k, all := |handed|, q.done + arrived;
    assert q.done + (arrived + came) == all + came && (all + came)[k..] == all[k..] + came;
  }

  /** The oldest finished command is handed out. */
  lemma TakingOne(q: Queue, held: map<CmdId, Mapped>, arrived: seq<CmdId>, live0: set<ReqId>,
                  now: Queue, live: set<ReqId>, handed: seq<CmdId>)
    requires Taking(q, held, arrived, live0, now, live, handed) && now.done != []
    requires Holding(held, q.done + arrived, live0)
    ensures HoldsOwn(held, now.done[0], live)
    ensures Taking(q, held, arrived, live0, Uncounted(Taken(now)), live - Requests(held[now.done[0]]),
                   handed + [now.done[0]])
  {
    var all, k := q.done + arrived, |handed|;
    assert handed == all[..k] && now.done == all[k..] && now.done[0] == all[k];
    NextHolds(held, all, k, live0, live);
    hide Holding, HoldsOwn, HeldRequests, Requests, WithoutAll;
    assert all[..k + 1] <= all && all[k..][1..] == all[k + 1..];
  }

  lemma HoldingPrefix(held: map<CmdId, Mapped>, all: seq<CmdId>, some: seq<CmdId>, live: set<ReqId>)
    requires Holding(held, all, live) && some <= all
    ensures Holding(held, some, live)
  {
    assert forall id :: id in some ==> id in all;
  }

  /** Hand out one command: take it, put its requests back, and free it. */
  method TakeOne(d: BsgDevice, pool: RequestPool, held: map<CmdId, Mapped>, batches: seq<seq<CmdId>>, w: nat,
                 ghost q: Queue, ghost live0: set<ReqId>, ghost handed: seq<CmdId>)
    returns (r: Result<CmdId>, w': nat)
    requires d.Valid() && pool.Valid() && w <= |batches| && Holding(held, q.done + Flat(batches), live0)
    requires Taking(q, held, Flat(batches[..w]), live0, d.View(), pool.live, handed)
    modifies d, pool
    ensures d.Valid() && pool.Valid() && w <= w' <= |batches|
    ensures Taking(q, held, Flat(batches[..w']), live0, d.View(), pool.live, if r.Ok? then handed + [r.value] else handed)
    ensures r.Err? ==> handed == q.done + Flat(batches[..w'])
                       && if q.block then r.error == ERESTARTSYS && w' == |batches| else r.error == EAGAIN
  {
    ghost var now, live := d.View(), pool.live;
    BlockKept(q, held, Flat(batches[..w]), live0, now, live, handed);
    hide Taking, HeldRequests, Requests, Flat, Holding, HoldsOwn, WithoutAll;
    ghost var came;
    r, w', came := GetDoneCmd(d, batches, w);
    TakingArrived(q, held, Flat(batches[..w]), live0, now, live, handed, came);
    FlatPrefix(batches, w');
    HoldingPrefix(held, q.done + Flat(batches), q.done + Flat(batches[..w']), live0);
    if r.Err? {
      TakingEnds(q, held, Flat(batches[..w']), live0, d.View(), live, handed);
      return;
    }
    TakingOne(q, held, Flat(batches[..w']), live0, Arrived(now, came), live, handed);
    HoldsMeans(held, r.value, live);
    Finish(d, pool, held[r.value]);
  }

  lemma HoldsMeans(held: map<CmdId, Mapped>, id: CmdId, live: set<ReqId>)
    requires HoldsOwn(held, id, live)
    ensures id in held && |held[id].next| <= 1 && held[id].rq !in held[id].next && Requests(held[id]) <= live
  {
  }

  lemma BlockKept(q: Queue, held: map<CmdId, Mapped>, arrived: seq<CmdId>, live0: set<ReqId>,
                  now: Queue, live: set<ReqId>, handed: seq<CmdId>)
    requires Taking(q, held, arrived, live0, now, live, handed)
    ensures now.block == q.block
  {
  }

  /** With nothing on the done list, everything that has completed has been handed out. */
  lemma TakingEnds(q: Queue, held: map<CmdId, Mapped>, arrived: seq<CmdId>, live0: set<ReqId>,
                   now: Queue, live: set<ReqId>, handed: seq<CmdId>)
    requires Taking(q, held, arrived, live0, now, live, handed) && now.done == []
    ensures handed == q.done + arrived
  {
  }

  lemma ViewIs(d: BsgDevice)
    requires d.Valid()
    ensures d.View().done == d.doneList && d.View().doneCmds == |d.doneList| && d.View().block == d.block
  {
  }

  /** Hand out up to `n` commands to the user.  `copied` is what completing the i-th command and copying its
      header gives; one that cannot be copied is the last, and is freed all the same. */
  method ReadCommands(d: BsgDevice, pool: RequestPool, held: map<CmdId, Mapped>, n: nat, batches: seq<seq<CmdId>>,
                      copied: nat -> int)
    returns (ret: int, read: nat, handed: seq<CmdId>, looks: nat)
    requires d.Valid() && pool.Valid() && Holding(held, d.doneList + Flat(batches), pool.live)
    modifies d, pool
    ensures d.Valid() && pool.Valid() && looks <= |batches| && |handed| <= n
    ensures Taking(old(d.View()), held, Flat(batches[..looks]), old(pool.live), d.View(), pool.live, handed)
    ensures forall i :: 0 <= i < |handed| - 1 ==> copied(i) == 0
    ensures if handed != [] && copied(|handed| - 1) != 0
            then ret == copied(|handed| - 1) && read == |handed| - 1
            else read == |handed|
                 && if |handed| == n then ret == 0
                    else handed == old(d.doneList) + Flat(batches[..looks])
                         && if old(d.block) then ret == -512 && looks == |batches| else ret == -11
  {
    hide *;
    ghost var q, live := d.View(), pool.live;
    ViewIs(d);
    TakingStarts(q, held, live);
    FlatNone(batches);
    ret, read, handed, looks := 0, 0, [], 0;
    var left := n;
    while left != 0
      invariant 0 <= left == n - |handed| && ret == 0 && read == |handed|
      invariant d.Valid() && pool.Valid() && looks <= |batches|
      invariant Taking(q, held, Flat(batches[..looks]), live, d.View(), pool.live, handed)
      invariant forall i :: 0 <= i < |handed| ==> copied(i) == 0
    {
      var r;
      r, looks := TakeOne(d, pool, held, batches, looks, q, live, handed);
      if r.Err? {
        ret := if r.error == EAGAIN then -11 else -512;
        break;
      }
      ret := copied(|handed|);
      handed := handed + [r.value];
      if ret != 0 {
        break;
      }
      read := read + 1;
      left := left - 1;
    }
  }

  /** A read of `count` bytes: commands are handed out in order of completion, each once, up to the first that
      cannot be copied. */
  method Read(d: BsgDevice, pool: RequestPool, held: map<CmdId, Mapped>, count: nat, batches: seq<seq<CmdId>>,
              copied: nat -> int)
    returns (ret: int, bytes: nat, handed: seq<CmdId>, looks: nat)
    requires d.Valid() && pool.Valid() && Holding(held, d.doneList + Flat(batches), pool.live)
    modifies d, pool
    ensures d.Valid() && pool.Valid() && looks <= |batches|
    ensures handed <= old(d.doneList) + Flat(batches[..looks]) && |handed| <= count / HEADER_SIZE
    ensures d.View() == AfterTaking(old(d.View()), Flat(batches[..looks]), |handed|)
    ensures pool.live == old(pool.live) - HeldRequests(held, handed)
    ensures forall i :: 0 <= i < |handed| - 1 ==> copied(i) == 0
    ensures count % HEADER_SIZE != 0 ==> ret == -22 && handed == [] && bytes == 0
    ensures count % HEADER_SIZE == 0 ==>
              if handed != [] && copied(|handed| - 1) != 0
              then ret == copied(|handed| - 1) && bytes == (|handed| - 1) * HEADER_SIZE
              else bytes == |handed| * HEADER_SIZE
                   && if |handed| == count / HEADER_SIZE then ret == 0
                      else handed == old(d.doneList) + Flat(batches[..looks])
                           && if old(d.block) then ret == -512 && looks == |batches| else ret == -11
  {
    if count % HEADER_SIZE != 0 {
      TakingStarts(d.View(), held, pool.live);
      FlatNone(batches);
      return -22, 0, [], 0;
    }
    hide *;
    var read;
    ret, read, handed, looks := ReadCommands(d, pool, held, count / HEADER_SIZE, batches, copied);
    bytes := read * HEADER_SIZE;
    TakingMeans(old(d.View()), held, Flat(batches[..looks]), old(pool.live), d.View(), pool.live, handed);
  }

  // ----- the drain of the last release -----

  /** The commands on the busy list, in the order in which they will complete. */
  ghost predicate CompletionOrder(order: seq<CmdId>, busy: seq<CmdId>) {
    NoRepeats(busy) && |order| == |busy| && NoRepeats(order) && forall id :: id in busy <==> id in order
  }

  lemma FirstCompletes(order: seq<CmdId>, busy: seq<CmdId>)
    requires CompletionOrder(order, busy) && order != []
    ensures CompletionOrder(order[1..], Without(busy, order[0]))
  {
    assert order[0] in order;
    WithoutOne(busy, order[0]);
    hide Without;
    assert forall id :: id in order <==> id == order[0] || id in order[1..];
  }

  lemma {:induction false} SomeComplete(order: seq<CmdId>, k: nat, busy: seq<CmdId>)
    requires CompletionOrder(order, busy) && k <= |order|
    ensures CompletionOrder(order[k..], WithoutAll(busy, order[..k]))
    decreases k
  {
    if k == 0 {
      assert order[0..] == order;
    } else {
      SomeComplete(order, k - 1, busy);
      FirstCompletes(order[k - 1..], WithoutAll(busy, order[..k - 1]));
      WithoutMore(busy, order[..k - 1], order[k - 1]);
      assert order[..k - 1] + [order[k - 1]] == order[..k] && order[k - 1..][1..] == order[k..];
    }
  }

  /** With all of them completed, nothing is busy; with some left, something is. */
  lemma BusyIff(order: seq<CmdId>, batches: seq<seq<CmdId>>, w: nat, busy: seq<CmdId>)
    requires CompletionOrder(order, busy) && order == Flat(batches) && w <= |batches|
    ensures WithoutAll(busy, Flat(batches[..w])) == [] <==> Flat(batches[..w]) == order
    ensures |Flat(batches[..w])| + |WithoutAll(busy, Flat(batches[..w]))| == |busy|
    ensures w == |batches| ==> Flat(batches[..w]) == order
  {
    FlatPrefix(batches, w);
    var k := |Flat(batches[..w])|;
    SomeComplete(order, k, busy);
    assert order[..k] == Flat(batches[..w]);
    if w == |batches| {
      assert batches[..w] == batches;
    }
  }

  /** Sleep until every command has completed, any number of them during each sleep. */
  method WaitForAll(d: BsgDevice, batches: seq<seq<CmdId>>)
    requires d.Valid() && d.block && d.queuedCmds == |d.busyList| + |d.doneList|
    requires CompletionOrder(Flat(batches), d.busyList)
    modifies d
    ensures d.Valid() && d.View() == Arrived(old(d.View()), Flat(batches)) && d.busyList == []
  {
    ghost var q := d.View();
    var w := 0;
    assert Flat(batches[..0]) == [];
    ArrivedNone(q);
    hide Flat, CompletionOrder, WithoutAll;
    while true
      invariant 0 <= w <= |batches| && d.Valid() && d.View() == Arrived(q, Flat(batches[..w]))
      decreases |batches| - w
    {
      BusyIff(Flat(batches), batches, w, q.busy);
      var s := d.IoSchedule();
      if s == NoData {
        break;
      }
      FlatMore(batches, w);
      ArrivedMore(q, Flat(batches[..w]), batches[w]);
      Arrive(d, batches[w]);
      w := w + 1;
    }
  }

  /** `e` is the first of `n` results that is not 0, or 0. */
  ghost predicate IsFirstError(result: nat -> int, n: nat, e: int) {
    if e == 0 then forall i :: 0 <= i < n ==> result(i) == 0
    else exists k :: 0 <= k < n && result(k) == e && forall i :: 0 <= i < k ==> result(i) == 0
  }

  lemma NextError(result: nat -> int, n: nat, e: int)
    requires IsFirstError(result, n, e)
    ensures IsFirstError(result, n + 1, if e == 0 then result(n) else e)
  {
  }

  /** Complete and discard every command of a device that nobody has open any more.  `completed` is what
      completing the i-th command gives. */
  method CompleteAll(d: BsgDevice, pool: RequestPool, held: map<CmdId, Mapped>, batches: seq<seq<CmdId>>,
                     completed: nat -> int)
    returns (ret: int, handed: seq<CmdId>)
    requires d.Valid() && pool.Valid() && d.queuedCmds == |d.busyList| + |d.doneList|
    requires CompletionOrder(Flat(batches), d.busyList) && Holding(held, d.doneList + Flat(batches), pool.live)
    modifies d, pool
    ensures d.Valid() && pool.Valid() && handed == old(d.doneList) + Flat(batches)
    ensures d.View() == old(d.View()).(queued := 0, doneCmds := 0, busy := [], done := [], block := true)
    ensures pool.live == old(pool.live) - HeldRequests(held, old(d.doneList) + Flat(batches))
    ensures ret == 0 <==> forall i :: 0 <= i < |handed| ==> completed(i) == 0
    ensures ret != 0 ==> exists k :: 0 <= k < |handed| && completed(k) == ret && forall i :: 0 <= i < k ==> completed(i) == 0
  {
    d.block := true;
    WaitForAll(d, batches);
    ghost var q, live := d.View(), pool.live;
    ret, handed := 0, [];
    TakingStarts(q, held, live);
    assert Flat([]) == [] && q.done + [] == q.done;
    hide HeldRequests, Requests, Holding, CompletionOrder, Flat;
    var none: seq<seq<CmdId>> := [];
    assert none[..0] == none;
    while d.queuedCmds != 0
      invariant d.Valid() && pool.Valid() && Taking(q, held, [], live, d.View(), pool.live, handed)
      invariant IsFirstError(completed, |handed|, ret)
      decreases d.queuedCmds
    {
      var r, w := TakeOne(d, pool, held, none, 0, q, live, handed);
      assert none[..w] == none;
      var tret := completed(|handed|);
      NextError(completed, |handed|, ret);
      if ret == 0 {
        ret := tret;
      }
      handed := handed + [r.value];
    }
  }
}
