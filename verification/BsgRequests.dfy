/**
 Mapping a user header to block requests, and the write path that submits them
 (linux-2.6.24.3/block/bsg.c).  Calls into the block layer and copies from user space may fail; their
 outcomes are parameters.
 */
module BsgRequests {
  import opened Seqs
  import opened BsgQueue

  type ReqId = nat

  const HEADER_SIZE := 160
  const GUARD := 'Q' as int
  const MAX_CDB := 16
  const EOPNOTSUPP := -122   // as numbered on MIPS

  datatype Header = Header(guard: int, requestLen: nat, protocol: nat, subprotocol: nat, dout: nat, din: nat)

  datatype Limits = Limits(maxSectors: nat, bidi: bool)

  /** Outcomes of the calls that mapping makes; an error code of 0 is success. */
  datatype Outcomes = Outcomes(first: bool, fill: int, second: bool, mapSecond: int, mapFirst: int)

  datatype Mapped = Mapped(rq: ReqId, next: seq<ReqId>)

  function Requests(m: Mapped): set<ReqId> { {m.rq} + (set r | r in m.next) }

  /** Header checks; transfer limits are computed in 32 bits. */
  function Validate(h: Header, q: Limits): (e: int) {
    if h.guard != GUARD || h.requestLen > MAX_CDB then -22
    else if h.dout > q.maxSectors * 512 % 0x1_0000_0000 || h.din > q.maxSectors * 512 % 0x1_0000_0000 then -5
    else if h.protocol != 0 || (h.subprotocol != 0 && h.subprotocol != 2) then -22
    else 0
  }

  /** The first thing that goes wrong, or 0. */
  function MapError(h: Header, q: Limits, o: Outcomes): int {
    if Validate(h, q) != 0 then Validate(h, q)
    else if !o.first then -12
    else if o.fill != 0 then o.fill
    else if h.dout > 0 && h.din > 0 && !q.bidi then EOPNOTSUPP
    else if h.dout > 0 && h.din > 0 && !o.second then -12
    else if h.dout > 0 && h.din > 0 && o.mapSecond != 0 then o.mapSecond
    else if h.dout > 0 || h.din > 0 then o.mapFirst
    else 0
  }

  /** The transfer limit of a queue in bytes, as a 32-bit number. */
  function MaxBytes(q: Limits): nat { q.maxSectors * 512 % 0x1_0000_0000 }

  predicate BothWays(h: Header) { h.dout > 0 && h.din > 0 }

  /** A header is fine exactly if it carries the guard 'Q', a command of at most 16 bytes, the SCSI protocol
      with commands or transport, and transfers within the limit. */
  lemma ValidIff(h: Header, q: Limits)
    ensures Validate(h, q) == 0 <==>
            && h.guard == 81 && h.requestLen <= 16 && h.protocol == 0 && h.subprotocol in {0, 2}
            && h.dout <= MaxBytes(q) && h.din <= MaxBytes(q)
    ensures Validate(h, q) == -5 <==>
            h.guard == 81 && h.requestLen <= 16 && (h.dout > MaxBytes(q) || h.din > MaxBytes(q))
    ensures Validate(h, q) in {0, -5, -22}
  {
  }

  /** A header is mapped exactly if it is fine and every call it takes succeeds. */
  lemma MappedIff(h: Header, q: Limits, o: Outcomes)
    ensures MapError(h, q, o) == 0 <==>
            && Validate(h, q) == 0 && o.first && o.fill == 0
            && (BothWays(h) ==> q.bidi && o.second && o.mapSecond == 0)
            && (h.dout > 0 || h.din > 0 ==> o.mapFirst == 0)
  {
  }

  /** Which failure shows when, for a header that is fine. */
  lemma MapErrorIs(h: Header, q: Limits, o: Outcomes)
    requires Validate(h, q) == 0
    ensures !o.first ==> MapError(h, q, o) == -12
    ensures o.first && o.fill != 0 ==> MapError(h, q, o) == o.fill
    ensures o.first && o.fill == 0 && BothWays(h) && !q.bidi ==> MapError(h, q, o) == -122
    ensures o.first && o.fill == 0 && BothWays(h) && q.bidi && !o.second ==> MapError(h, q, o) == -12
    ensures o.first && o.fill == 0 && BothWays(h) && q.bidi && o.second && o.mapSecond != 0 ==>
              MapError(h, q, o) == o.mapSecond
    ensures o.first && o.fill == 0 && BothWays(h) && q.bidi && o.second && o.mapSecond == 0 ==>
              MapError(h, q, o) == o.mapFirst
    ensures o.first && o.fill == 0 && !BothWays(h) && (h.dout > 0 || h.din > 0) ==> MapError(h, q, o) == o.mapFirst
  {
  }

  /** Consecutive numbers. */
  function Ids(first: CmdId, n: nat): (ids: seq<CmdId>)
    ensures |ids| == n
  {
    seq(n, i requires 0 <= i < n => first + i)
  }

  class RequestPool {
    var next: ReqId            // requests are numbered as they are taken
    var live: set<ReqId>       // taken and not put back
    var puts: seq<ReqId>       // put back, in order

    /** Every request taken so far is either live or has been put back exactly once. */
    ghost predicate Valid()
      reads this
    {
      && (forall r :: r in live ==> r < next && r !in puts)
      && (forall r :: 0 <= r < next ==> r in live || r in puts)
      && (forall r :: r in puts ==> r < next)
      && NoRepeats(puts)
    }

    constructor ()
      ensures Valid() && next == 0 && live == {} && puts == []
    {
      next, live, puts := 0, {}, [];
    }

    method Get(ok: bool) returns (r: ReqId)
      requires Valid()
      modifies this
      ensures Valid() && r == old(next) && puts == old(puts)
      ensures ok ==> next == r + 1 && live == old(live) + {r}
      ensures !ok ==> next == old(next) && live == old(live)
    {
      r := next;
      if ok {
        next := next + 1;
        live := live + {r};
      }
    }

    method PutBack(r: ReqId)
      requires Valid() && r in live
      modifies this
      ensures Valid() && next == old(next) && live == old(live) - {r} && puts == old(puts) + [r]
    {
      live := live - {r};
      puts := puts + [r];
    }

    /** Map a header.  Whichever step fails, every request taken is put back. */
    method MapHeader(h: Header, q: Limits, o: Outcomes) returns (e: int, m: Mapped)
      requires Valid()
      modifies this
      ensures Valid() && e == MapError(h, q, o) && old(puts) <= puts
      ensures e == 0 <==>
              && h.guard == 81 && h.requestLen <= 16 && h.protocol == 0 && h.subprotocol in {0, 2}
              && h.dout <= MaxBytes(q) && h.din <= MaxBytes(q) && o.first && o.fill == 0
              && (BothWays(h) ==> q.bidi && o.second && o.mapSecond == 0)
              && (h.dout > 0 || h.din > 0 ==> o.mapFirst == 0)
      ensures e != 0 ==> live == old(live)
      ensures old(next) <= next <= old(next) + 2
      ensures e != 0 ==> puts == old(puts) + Ids(old(next), next - old(next))
      ensures e == 0 ==> puts == old(puts) && live == old(live) + Requests(m)
      ensures e == 0 ==> m.rq == old(next) && m.next == if h.dout > 0 && h.din > 0 then [old(next) + 1] else []
    {
      m := Mapped(0, []);
      e := Validate(h, q);
      if e != 0 {
        return;
      }
      var rq := Get(o.first);
      if !o.first {
        e := -12;
        return;
      }
      var second: seq<ReqId> := [];
      e := o.fill;
      if e == 0 && h.dout > 0 && h.din > 0 {
        if !q.bidi {
          e := EOPNOTSUPP;
        } else {
          var nextRq := Get(o.second);
          if !o.second {
            e := -12;
          } else {
            second := [nextRq];
            e := o.mapSecond;
          }
        }
      }
      if e == 0 && (h.dout > 0 || h.din > 0) {
        e := o.mapFirst;
      }
      if e == 0 {
        m := Mapped(rq, second);
        return;
      }
      PutBack(rq);
      if second != [] {
        PutBack(second[0]);
      }
    }

    /** Completion puts back both requests of a bidirectional command, the second first. */
    method PutMapped(m: Mapped)
      requires Valid() && |m.next| <= 1 && m.rq !in m.next && forall r :: r in Requests(m) ==> r in live
      modifies this
      ensures Valid() && next == old(next) && live == old(live) - Requests(m)
      ensures puts == old(puts) + m.next + [m.rq]
    {
      if m.next != [] {
        assert m.next[0] in Requests(m);
        PutBack(m.next[0]);
        assert m.next == [m.next[0]];
      }
      assert m.rq in Requests(m);
      PutBack(m.rq);
    }
  }

  /** What happens to one command of a write. */
  datatype Attempt = Attempt(memory: bool, copied: bool, header: Header, mapping: Outcomes)

  /** Error of the i-th command of a write, or 0, when `i` commands were accepted before it. */
  function AttemptError(q: Queue, lim: Limits, a: Attempt, i: nat): int {
    if q.queued + i >= q.maxQueue then -22
    else if !a.memory then -12
    else if !a.copied then -14
    else MapError(a.header, lim, a.mapping)
  }

  /** A command of a write is accepted exactly if there is room and memory and its header is copied and mapped;
      else the first of these that fails decides the error. */
  lemma AcceptedIff(q: Queue, lim: Limits, a: Attempt, i: nat)
    ensures AttemptError(q, lim, a, i) == 0 <==>
            q.queued + i < q.maxQueue && a.memory && a.copied && MapError(a.header, lim, a.mapping) == 0
    ensures q.queued + i >= q.maxQueue ==> AttemptError(q, lim, a, i) == -22
    ensures q.queued + i < q.maxQueue && !a.memory ==> AttemptError(q, lim, a, i) == -12
    ensures q.queued + i < q.maxQueue && a.memory && !a.copied ==> AttemptError(q, lim, a, i) == -14
    ensures q.queued + i < q.maxQueue && a.memory && a.copied ==>
              AttemptError(q, lim, a, i) == MapError(a.header, lim, a.mapping)
  {
    hide MapError;
  }

  lemma IdsMore(first: CmdId, n: nat)
    ensures Ids(first, n + 1) == Ids(first, n) + [first + n]
  {
  }

  /** The requests of some accepted commands. */
  function AllRequests(ms: seq<Mapped>): set<ReqId> {
    if ms == [] then {} else AllRequests(ms[..|ms| - 1]) + Requests(ms[|ms| - 1])
  }

  lemma AllRequestsNone()
    ensures AllRequests([]) == {}
    ensures forall first :: Ids(first, 0) == []
  {
  }

  lemma AllRequestsMore(ms: seq<Mapped>, m: Mapped)
    ensures AllRequests(ms + [m]) == AllRequests(ms) + Requests(m)
  {
  }

  /** One step of a write: reserve, copy the header, map it, and list the command.  If anything fails, the
      counters, the lists and the live requests are as before the step. */
  method WriteOne(d: BsgDevice, pool: RequestPool, lim: Limits, a: Attempt, id: CmdId) returns (e: int, m: Mapped)
    requires d.Valid() && pool.Valid()
    modifies d, pool
    ensures d.Valid() && pool.Valid() && e == AttemptError(old(d.View()), lim, a, 0)
    ensures e != 0 ==> d.View() == old(d.View()) && pool.live == old(pool.live)
    ensures e == 0 ==> d.View() == Listed(Counted(old(d.View())), id) && pool.live == old(pool.live) + Requests(m)
  {
    hide MapError, Requests;
    m := Mapped(0, []);
    var bc := d.AllocCommand(id, a.memory);
    if bc.Err? {
      return if bc.error == EINVAL then -22 else -12, m;
    }
    if !a.copied {
      d.FreeCommand();
      return -14, m;
    }
    e, m := pool.MapHeader(a.header, lim, a.mapping);
    if e != 0 {
      d.FreeCommand();
      return;
    }
    d.AddCommand(id);
  }

  /** A write of `count` bytes on a device that nobody else is using at the same time: commands are
      accepted up to the first that fails, and the failing one leaves no trace. */
  method Write(d: BsgDevice, pool: RequestPool, lim: Limits, count: nat, tries: seq<Attempt>, first: CmdId)
    returns (ret: int, written: nat, accepted: seq<Mapped>)
    requires d.Valid() && pool.Valid() && |tries| == count / HEADER_SIZE
    modifies d, pool
    ensures d.Valid() && pool.Valid()
    ensures pool.live == old(pool.live) + AllRequests(accepted)
    ensures written == |accepted| * HEADER_SIZE
    ensures count % HEADER_SIZE != 0 ==> ret == -22 && accepted == [] && d.View() == old(d.View())
    ensures count % HEADER_SIZE == 0 ==>
              var k := |accepted|;
              && k <= |tries|
              && (forall i :: 0 <= i < k ==> AttemptError(old(d.View()), lim, tries[i], i) == 0)
              && ret == (if k == |tries| then 0 else AttemptError(old(d.View()), lim, tries[k], k))
              && (k < |tries| ==> ret != 0)
              && d.View() == old(d.View()).(queued := old(d.queuedCmds) + k, busy := old(d.busyList) + Ids(first, k))
  {
    written, accepted := 0, [];
    if count % HEADER_SIZE != 0 {
      ret := -22;
      return;
    }
    hide MapError, AllRequests, Ids, Requests;
    ghost var v := d.View();
    AllRequestsNone();
    var k := 0;
    while k < |tries|
      invariant 0 <= k == |accepted| <= |tries| && written == k * HEADER_SIZE
      invariant pool.live == old(pool.live) + AllRequests(accepted)
      invariant d.Valid() && pool.Valid()
      invariant forall i :: 0 <= i < k ==> AttemptError(v, lim, tries[i], i) == 0
      invariant d.View() == v.(queued := v.queued + k, busy := v.busy + Ids(first, k))
    {
      var m;
      ret, m := WriteOne(d, pool, lim, tries[k], first + k);
      if ret != 0 {
        return;
      }
      IdsMore(first, k);
      AllRequestsMore(accepted, m);
      accepted := accepted + [m];
      k := k + 1;
      written := written + HEADER_SIZE;
    }
    ret := 0;
  }
}
