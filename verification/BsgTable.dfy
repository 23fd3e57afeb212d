/**
 The table of open bsg devices (linux-2.6.24.3/block/bsg.c): eight buckets by minor number, and a
 reference count for each device.  Each step is one section under the global mutex, or the allocation
 that precedes one; opens and releases of different threads interleave between steps.
 */
module BsgTable {
  import opened Bits
  import opened Seqs

  type DevId = nat
  type OpenId = nat

  const BUCKETS := 8

  function Bucket(minor: nat): (b: nat)
    ensures b < BUCKETS
  {
    minor % BUCKETS
  }

  /** Devices share a bucket exactly if their minor numbers agree in the three low bits. */
  lemma SameBucketIff(a: nat, b: nat)
    ensures Bucket(a) == Bucket(b) <==> ToBits(a, 3) == ToBits(b, 3)
  {
    LowBits(a);
    LowBits(b);
  }

  lemma LowBits(n: nat)
    ensures ToBits(n, 3) == [n % 2 == 1, n / 2 % 2 == 1, n / 4 % 2 == 1]
    ensures Bucket(n) == n % 2 + 2 * (n / 2 % 2) + 4 * (n / 4 % 2)
  {
    assert n / 2 / 2 == n / 4;
    assert ToBits(n / 4, 1) == [n / 4 % 2 == 1] + ToBits(n / 4 / 2, 0);
    assert ToBits(n / 2, 2) == [n / 2 % 2 == 1] + ToBits(n / 4, 1);
  }

  datatype Table = Table(
    buckets: seq<seq<DevId>>,
    minors: map<DevId, nat>,       // allocated devices
    refs: map<DevId, int>,
    bound: map<OpenId, DevId>,     // opens, finished or in progress, and their device
    pending: set<DevId>,           // allocated and not yet in the table
    missed: map<OpenId, nat>)      // opens that searched for a minor in vain and have no device yet

  function Empty(): Table {
    Table(seq(BUCKETS, _ => []), map[], map[], map[], {}, map[])
  }

  // ----- what the table promises -----

  predicate Listed(t: Table, d: DevId) { d in t.minors && d !in t.pending }

  function Opens(t: Table, d: DevId): set<OpenId> {
    set o | o in t.bound && t.bound[o] == d
  }

  /** Bucket `b` holds exactly the listed devices whose minor number belongs there. */
  ghost predicate BucketHolds(t: Table, b: nat)
    requires |t.buckets| == BUCKETS && b < BUCKETS
  {
    && (forall d :: d in t.buckets[b] ==> Listed(t, d) && Bucket(t.minors[d]) == b)
    && (forall d :: Listed(t, d) && Bucket(t.minors[d]) == b ==> d in t.buckets[b])
  }

  ghost predicate BucketsAgree(t: Table) {
    |t.buckets| == BUCKETS && forall b :: 0 <= b < BUCKETS ==> BucketHolds(t, b)
  }

  ghost predicate CountAgrees(t: Table, d: DevId)
    requires d in t.refs
  {
    t.refs[d] == |Opens(t, d)| && t.refs[d] >= 1
  }

  /** A device has as many references as there are opens bound to it, and at least one. */
  ghost predicate CountsAgree(t: Table) {
    && t.minors.Keys == t.refs.Keys && t.pending <= t.minors.Keys
    && (forall o :: o in t.bound ==> t.bound[o] in t.minors && o !in t.missed)
    && (forall d :: d in t.refs ==> CountAgrees(t, d))
  }

  ghost predicate Inv(t: Table) { BucketsAgree(t) && CountsAgree(t) }

  /** No two devices share a minor number. */
  ghost predicate Unique(t: Table) {
    forall a, b :: a in t.minors && b in t.minors && t.minors[a] == t.minors[b] ==> a == b
  }

  // ----- steps -----

  /** An open finds device `d`. */
  function Got(t: Table, o: OpenId, d: DevId): Table
    requires d in t.refs
  {
    t.(refs := t.refs[d := t.refs[d] + 1], bound := t.bound[o := d])
  }

  /** The search of an open finds nothing. */
  function Missed(t: Table, o: OpenId, minor: nat): Table {
    t.(missed := t.missed[o := minor])
  }

  /** An open that found nothing fails: no such device, or no memory. */
  function GivenUp(t: Table, o: OpenId): Table {
    t.(missed := t.missed - {o})
  }

  /** An open that found nothing allocates device `d`, with one reference. */
  function Allocated(t: Table, o: OpenId, d: DevId): Table
    requires o in t.missed
  {
    t.(minors := t.minors[d := t.missed[o]], refs := t.refs[d := 1], bound := t.bound[o := d],
       pending := t.pending + {d}, missed := t.missed - {o})
  }

  /** The new device goes to the head of its bucket. */
  function Inserted(t: Table, d: DevId): Table
    requires |t.buckets| == BUCKETS && d in t.minors
  {
    var b := Bucket(t.minors[d]);
    t.(buckets := t.buckets[b := [d] + t.buckets[b]], pending := t.pending - {d})
  }

  /** A release drops a reference; the last one removes the device. */
  function Put(t: Table, o: OpenId, d: DevId): Table
    requires |t.buckets| == BUCKETS && d in t.minors && d in t.refs
  {
    if t.refs[d] > 1 then t.(refs := t.refs[d := t.refs[d] - 1], bound := t.bound - {o})
    else
      var b := Bucket(t.minors[d]);
      t.(buckets := t.buckets[b := Without(t.buckets[b], d)], minors := t.minors - {d}, refs := t.refs - {d},
         bound := t.bound - {o})
  }

  // ----- every step keeps the promises -----

  lemma PlusOne(a: set<OpenId>, o: OpenId)
    requires o !in a
    ensures |a + {o}| == |a| + 1
  {
  }

  lemma GotKeeps(t: Table, o: OpenId, d: DevId)
    requires Inv(t) && o !in t.bound && o !in t.missed && Listed(t, d)
    ensures d in t.refs && Inv(Got(t, o, d))
  {
    assert d in t.refs;
    var t' := Got(t, o, d);
    forall b | 0 <= b < BUCKETS
      ensures BucketHolds(t', b)
    {
      assert BucketHolds(t, b);
    }
    forall x | x in t'.refs
      ensures CountAgrees(t', x)
    {
      assert CountAgrees(t, x);
      if x == d {
        PlusOne(Opens(t, d), o);
        assert Opens(t', d) == Opens(t, d) + {o};
      } else {
        assert Opens(t', x) == Opens(t, x);
      }
    }
  }

  /** Searching in vain and giving up change no device. */
  lemma SearchKeeps(t: Table, o: OpenId, minor: nat)
    requires Inv(t) && o !in t.bound
    ensures Inv(Missed(t, o, minor)) && Inv(GivenUp(t, o))
  {
    forall t' | t' == Missed(t, o, minor) || t' == GivenUp(t, o)
      ensures Inv(t')
    {
      forall b | 0 <= b < BUCKETS
        ensures BucketHolds(t', b)
      {
        assert BucketHolds(t, b);
      }
      forall x | x in t'.refs
        ensures CountAgrees(t', x)
      {
        assert CountAgrees(t, x) && Opens(t', x) == Opens(t, x);
      }
    }
  }

  lemma AllocatedKeeps(t: Table, o: OpenId, d: DevId)
    requires Inv(t) && o in t.missed && d !in t.minors
    ensures Inv(Allocated(t, o, d))
  {
    var t' := Allocated(t, o, d);
    forall b | 0 <= b < BUCKETS
      ensures BucketHolds(t', b)
    {
      assert BucketHolds(t, b);
    }
    forall x | x in t'.refs
      ensures CountAgrees(t', x)
    {
      if x == d {
        assert Opens(t', d) == {o};
      } else {
        assert CountAgrees(t, x);
        assert Opens(t', x) == Opens(t, x);
      }
    }
  }

  lemma InsertedKeeps(t: Table, d: DevId)
    requires Inv(t) && d in t.pending
    ensures Inv(Inserted(t, d)) && Listed(Inserted(t, d), d)
    ensures Inserted(t, d).buckets[Bucket(t.minors[d])][0] == d
  {
    var t' := Inserted(t, d);
    forall b | 0 <= b < BUCKETS
      ensures BucketHolds(t', b)
    {
      assert BucketHolds(t, b);
    }
    forall x | x in t'.refs
      ensures CountAgrees(t', x)
    {
      assert CountAgrees(t, x);
      assert Opens(t', x) == Opens(t, x);
    }
  }

  lemma PutBuckets(t: Table, o: OpenId, d: DevId)
    requires BucketsAgree(t) && Listed(t, d) && d in t.refs
    ensures BucketsAgree(Put(t, o, d))
  {
    var t' := Put(t, o, d);
    forall b | 0 <= b < BUCKETS
      ensures BucketHolds(t', b)
    {
      assert BucketHolds(t, b);
    }
  }

  lemma PutOpens(t: Table, o: OpenId, d: DevId)
    requires o in t.bound && t.bound[o] == d && Listed(t, d) && |t.buckets| == BUCKETS && d in t.refs
    ensures Opens(Put(t, o, d), d) == Opens(t, d) - {o} && |Opens(Put(t, o, d), d)| == |Opens(t, d)| - 1
    ensures forall x :: x != d ==> Opens(Put(t, o, d), x) == Opens(t, x)
  {
  }

  lemma PutKeeps(t: Table, o: OpenId, d: DevId)
    requires Inv(t) && o in t.bound && t.bound[o] == d && Listed(t, d)
    ensures d in t.refs && t.refs[d] >= 1 && |t.buckets| == BUCKETS && Inv(Put(t, o, d))
    ensures Listed(Put(t, o, d), d) <==> Opens(t, d) != {o}
  {
    assert d in t.refs && CountAgrees(t, d);
    PutBuckets(t, o, d);
    PutOpens(t, o, d);
    var t' := Put(t, o, d);
    hide BucketsAgree, Opens;
    if t.refs[d] == 1 {
      assert Opens(t', d) == {};
      NobodyBound(t', d);
    }
    forall x | x in t'.refs
      ensures CountAgrees(t', x)
    {
      assert CountAgrees(t, x);
    }
  }

  lemma NobodyBound(t: Table, d: DevId)
    requires Opens(t, d) == {}
    ensures forall o :: o in t.bound ==> t.bound[o] != d
  {
    forall o | o in t.bound
      ensures t.bound[o] != d
    {
      assert o !in Opens(t, d);
    }
  }

  // ----- whole runs -----

  /** A section under the mutex, or an allocation, of some open or release. */
  datatype Step =
    | Find(o: OpenId, d: DevId)
    | Miss(o: OpenId, minor: nat)
    | GiveUp(o: OpenId)
    | Allocate(o: OpenId, d: DevId)
    | Insert(d: DevId)
    | Release(o: OpenId)

  ghost predicate Can(t: Table, s: Step) {
    match s
    case Find(o, d) => o !in t.bound && o !in t.missed && Listed(t, d)
    case Miss(o, minor) => o !in t.bound && o !in t.missed && forall d :: Listed(t, d) ==> t.minors[d] != minor
    case GiveUp(o) => o in t.missed
    case Allocate(o, d) => o in t.missed && d !in t.minors
    case Insert(d) => d in t.pending
    case Release(o) => o in t.bound && Listed(t, t.bound[o])
  }

  ghost function After(t: Table, s: Step): (t': Table)
    requires Inv(t) && Can(t, s)
    ensures Inv(t')
  {
    match s
    case Find(o, d) => GotKeeps(t, o, d); Got(t, o, d)
    case Miss(o, minor) => SearchKeeps(t, o, minor); Missed(t, o, minor)
    case GiveUp(o) => SearchKeeps(t, o, 0); GivenUp(t, o)
    case Allocate(o, d) => AllocatedKeeps(t, o, d); Allocated(t, o, d)
    case Insert(d) => InsertedKeeps(t, d); Inserted(t, d)
    case Release(o) => PutKeeps(t, o, t.bound[o]); Put(t, o, t.bound[o])
  }

  /** An open that finds a device and a release right after it leave the table as it was. */
  lemma FindReleaseUndone(t: Table, o: OpenId, d: DevId)
    requires Inv(t) && o !in t.bound && o !in t.missed && Listed(t, d)
    ensures Can(t, Find(o, d)) && Can(After(t, Find(o, d)), Release(o))
    ensures After(After(t, Find(o, d)), Release(o)) == t
  {
    hide BucketsAgree;
    assert CountAgrees(t, d);
    var t' := After(t, Find(o, d));
    assert t'.refs[d := t'.refs[d] - 1] == t.refs;
    assert t'.bound - {o} == t.bound;
  }

  lemma EmptyAgrees()
    ensures Inv(Empty())
  {
  }

  function Before(ss: seq<Step>): seq<Step>
    requires ss != []
  {
    ss[..|ss| - 1]
  }

  function Last(ss: seq<Step>): Step
    requires ss != []
  {
    ss[|ss| - 1]
  }

  /** A run of an empty table: opens and releases of any number of threads, interleaved. */
  ghost predicate Possible(ss: seq<Step>)
    decreases |ss|, 0
  {
    ss == [] || (Possible(Before(ss)) && Can(Reached(Before(ss)), Last(ss)))
  }

  ghost function Reached(ss: seq<Step>): (t: Table)
    requires Possible(ss)
    ensures Inv(t)
    decreases |ss|, 1
  {
    if ss == [] then EmptyAgrees(); Empty() else After(Reached(Before(ss)), Last(ss))
  }

  /** After any interleaving of opens and releases, a device is in the table exactly in the bucket of its
      minor number, and has one reference for each open bound to it. */
  lemma TableAgrees(ss: seq<Step>, d: DevId)
    requires Possible(ss) && d in Reached(ss).minors
    ensures var t := Reached(ss);
            && d in t.refs && t.refs[d] == |Opens(t, d)| >= 1 && |t.buckets| == BUCKETS
            && (forall b :: 0 <= b < BUCKETS ==> (d in t.buckets[b] <==> Listed(t, d) && b == Bucket(t.minors[d])))
  {
    var t := Reached(ss);
    hide Reached;
    assert d in t.refs && CountAgrees(t, d);
    forall b | 0 <= b < BUCKETS
      ensures d in t.buckets[b] <==> Listed(t, d) && b == Bucket(t.minors[d])
    {
      assert BucketHolds(t, b);
    }
  }

  /** `d` is the first of the list with this minor number. */
  ghost predicate FirstOf(list: seq<DevId>, minors: map<DevId, nat>, minor: nat, d: DevId) {
    exists i :: 0 <= i < |list| && list[i] == d && forall j :: 0 <= j < i ==> list[j] in minors && minors[list[j]] != minor
  }

  class DeviceTable {
    var buckets: seq<seq<DevId>>
    var minors: map<DevId, nat>
    var refs: map<DevId, int>
    var bound: map<OpenId, DevId>
    var pending: set<DevId>
    var missed: map<OpenId, nat>

    function View(): Table
      reads this
    {
      Table(buckets, minors, refs, bound, pending, missed)
    }

    constructor ()
      ensures View() == Empty() && Inv(View())
    {
      buckets := seq(BUCKETS, _ => []);
      minors, refs, bound, pending, missed := map[], map[], map[], {}, map[];
    }

    /** Search the bucket of `minor`. */
    method Search(minor: nat) returns (found: bool, d: DevId)
      requires Inv(View())
      ensures found <==> exists x :: Listed(View(), x) && minors[x] == minor
      ensures found ==> Listed(View(), d) && minors[d] == minor
      ensures found ==> |buckets| == BUCKETS && FirstOf(buckets[Bucket(minor)], minors, minor, d)
    {
      var bucket := buckets[Bucket(minor)];
      assert BucketHolds(View(), Bucket(minor));
      hide Inv;
      found, d := false, 0;
      var i := 0;
      while i < |bucket|
        invariant 0 <= i <= |bucket|
        invariant forall j :: 0 <= j < i ==> bucket[j] in minors && minors[bucket[j]] != minor
      {
        assert bucket[i] in bucket;
        if minors[bucket[i]] == minor {
          return true, bucket[i];
        }
        i := i + 1;
      }
    }

    /** Look for a device with this minor number; one that is found gains a reference. */
    method GetDevice(o: OpenId, minor: nat) returns (found: bool, d: DevId)
      requires Inv(View()) && o !in bound && o !in missed
      modifies this
      ensures Inv(View())
      ensures found <==> exists x :: Listed(old(View()), x) && old(minors)[x] == minor
      ensures found ==> Listed(old(View()), d) && old(minors)[d] == minor
                        && d in old(refs) && View() == Got(old(View()), o, d)
      ensures !found ==> View() == Missed(old(View()), o, minor)
    {
      hide Inv;
      found, d := Search(minor);
      if found {
        GotKeeps(View(), o, d);
        refs := refs[d := refs[d] + 1];
        bound := bound[o := d];
      } else {
        SearchKeeps(View(), o, minor);
        missed := missed[o := minor];
      }
    }

    /** Allocate a device for an open that found none; without memory the open fails. */
    method AllocDevice(o: OpenId, d: DevId, memory: bool)
      requires Inv(View()) && o in missed && d !in minors
      modifies this
      ensures Inv(View()) && View() == if memory then Allocated(old(View()), o, d) else GivenUp(old(View()), o)
    {
      SearchKeeps(View(), o, 0);
      AllocatedKeeps(View(), o, d);
      if memory {
        minors := minors[d := missed[o]];
        refs := refs[d := 1];
        bound := bound[o := d];
        pending := pending + {d};
      }
      missed := missed - {o};
    }

    method InsertDevice(d: DevId)
      requires Inv(View()) && d in pending
      modifies this
      ensures Inv(View()) && Listed(View(), d) && View() == Inserted(old(View()), d)
    {
      InsertedKeeps(View(), d);
      var b := Bucket(minors[d]);
      buckets := buckets[b := [d] + buckets[b]];
      pending := pending - {d};
    }

    method PutDevice(o: OpenId, d: DevId)
      requires Inv(View()) && o in bound && bound[o] == d && Listed(View(), d)
      modifies this
      ensures Inv(View()) && d in old(refs) && View() == Put(old(View()), o, d)
    {
      hide Inv;
      PutKeeps(View(), o, d);
      bound := bound - {o};
      refs := refs[d := refs[d] - 1];
      if refs[d] == 0 {
        var b := Bucket(minors[d]);
        buckets := buckets[b := Without(buckets[b], d)];
        assert refs - {d} == old(refs) - {d};
        refs := refs - {d};
        minors := minors - {d};
      }
    }
  }
}
