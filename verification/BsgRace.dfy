/**
 When two bsg devices get the same minor number (linux-2.6.24.3/block/bsg.c).  An open searches the
 table, and only later, in another section under the mutex, lists a device of its own.
 */
module BsgRace {
  import opened Seqs
  import opened BsgTable

  /** The step takes device `d` away. */
  ghost predicate Removes(t: Table, s: Step, d: DevId) {
    s.Release? && s.o in t.bound && t.bound[s.o] == d && d in t.refs && t.refs[d] <= 1
  }

  ghost function MinorsAfter(t: Table, s: Step): map<DevId, nat>
    requires Can(t, s)
  {
    match s
    case Allocate(o, d) => t.minors[d := t.missed[o]]
    case Release(o) => if Removes(t, s, t.bound[o]) then t.minors - {t.bound[o]} else t.minors
    case _ => t.minors
  }

  ghost function MissedAfter(t: Table, s: Step): map<OpenId, nat> {
    match s
    case Miss(o, minor) => t.missed[o := minor]
    case GiveUp(o) => t.missed - {o}
    case Allocate(o, _) => t.missed - {o}
    case _ => t.missed
  }

  lemma Effect(t: Table, s: Step)
    requires Inv(t) && Can(t, s)
    ensures After(t, s).minors == MinorsAfter(t, s) && After(t, s).missed == MissedAfter(t, s)
  {
    hide Inv, Without;
    HaveReferences(t);
    if s.Release? {
      assert t.bound[s.o] in t.minors;
    }
  }

  lemma HaveReferences(t: Table)
    requires Inv(t)
    ensures |t.buckets| == BUCKETS && forall d :: d in t.minors ==> d in t.refs
  {
  }

  /** Devices of a minor number. */
  ghost function Having(minors: map<DevId, nat>, minor: nat): set<DevId> {
    set d | d in minors && minors[d] == minor
  }

  /** How a step changes the devices that compete with open `o`. */
  ghost function RivalsAfter(t: Table, s: Step, rivals: set<DevId>, o: OpenId): set<DevId>
    requires Can(t, s)
  {
    match s
    case Miss(p, minor) => if p == o then Having(t.minors, minor) * t.pending else rivals
    case Allocate(p, d) => if p != o && o in t.missed && t.missed[o] == t.missed[p] then rivals + {d} else rivals
    case Release(p) => if Removes(t, s, t.bound[p]) then rivals - {t.bound[p]} else rivals
    case _ => rivals
  }

  /** The devices that compete with an open which has found nothing: those of its minor number that were
      not yet listed when it searched, or were allocated after its search, and that are still there. */
  ghost function Rivals(ss: seq<Step>, o: OpenId): set<DevId>
    requires Possible(ss)
    decreases |ss|
  {
    if ss == [] then {} else RivalsAfter(Reached(Before(ss)), Last(ss), Rivals(Before(ss), o), o)
  }

  lemma RivalsStep(t: Table, s: Step, rivals: set<DevId>, o: OpenId)
    requires Inv(t) && Can(t, s) && o in MissedAfter(t, s)
    requires o in t.missed ==> rivals == Having(t.minors, t.missed[o])
    ensures RivalsAfter(t, s, rivals, o) == Having(MinorsAfter(t, s), MissedAfter(t, s)[o])
  {
    hide Inv;
    var had, has := Having(t.minors, MissedAfter(t, s)[o]), Having(MinorsAfter(t, s), MissedAfter(t, s)[o]);
    if s.Miss? && s.o == o {
      assert had <= t.pending;
    } else if s.Allocate? {
      assert has == if t.missed[o] == t.missed[s.o] then had + {s.d} else had;
    } else if s.Release? && Removes(t, s, t.bound[s.o]) {
      assert has == had - {t.bound[s.o]};
    }
  }

  /** A device that was listed when an open searched is never in its way: the search would have found it. */
  lemma {:induction false} RivalsAre(ss: seq<Step>, o: OpenId)
    requires Possible(ss) && o in Reached(ss).missed
    ensures Rivals(ss, o) == Having(Reached(ss).minors, Reached(ss).missed[o])
    decreases |ss|
  {
    RunStep(ss);
    var t, s := Reached(Before(ss)), Last(ss);
    Effect(t, s);
    hide Inv, Reached, After, Can, Having, RivalsAfter;
    if o in t.missed {
      RivalsAre(Before(ss), o);
    }
    RivalsStep(t, s, Rivals(Before(ss), o), o);
  }

  lemma RunStep(ss: seq<Step>)
    requires ss != [] && Possible(ss)
    ensures Possible(Before(ss)) && Can(Reached(Before(ss)), Last(ss))
    ensures Reached(ss) == After(Reached(Before(ss)), Last(ss))
  {
  }

  // ----- uniqueness -----

  /** Minor numbers are unique all along a run. */
  ghost predicate StaysUnique(ss: seq<Step>)
    requires Possible(ss)
    decreases |ss|
  {
    Unique(Reached(ss)) && (ss != [] ==> StaysUnique(Before(ss)))
  }

  /** No open allocates its device while it has a rival. */
  ghost predicate NoRace(ss: seq<Step>)
    requires Possible(ss)
    decreases |ss|
  {
    ss == [] || (NoRace(Before(ss)) && (Last(ss).Allocate? ==> Rivals(Before(ss), Last(ss).o) == {}))
  }

  lemma UniqueStep(t: Table, s: Step)
    requires Inv(t) && Can(t, s) && Unique(t)
    ensures Unique(After(t, s)) <==> (s.Allocate? ==> Having(t.minors, t.missed[s.o]) == {})
  {
    Effect(t, s);
    hide Inv, After;
    var t' := After(t, s);
    if s.Allocate? {
      var had := Having(t.minors, t.missed[s.o]);
      if had != {} {
        var x :| x in had;
        assert t'.minors[x] == t'.minors[s.d];
      } else {
        assert forall x :: x in t.minors ==> x !in had;
      }
    }
  }

  /** Over every run: minor numbers stay unique exactly when no open allocates while another open's device
      of that minor number, not listed when it searched, is there. */
  lemma {:induction false} UniqueIff(ss: seq<Step>)
    requires Possible(ss)
    ensures StaysUnique(ss) <==> NoRace(ss)
    decreases |ss|
  {
    if ss != [] {
      UniqueIff(Before(ss));
      RunStep(ss);
      var t, s := Reached(Before(ss)), Last(ss);
      hide Inv, Reached, Rivals, Unique, After, Having;
      if s.Allocate? {
        RivalsAre(Before(ss), s.o);
      }
      if Unique(t) {
        UniqueStep(t, s);
      }
    }
  }

  // ----- a condition on opens -----

  /** No other open of this minor number is between its search and the listing of its device. */
  ghost predicate Alone(t: Table, minor: nat) {
    && (forall d :: d in t.pending && d in t.minors ==> t.minors[d] != minor)
    && (forall p :: p in t.missed ==> t.missed[p] != minor)
  }

  /** Opens of one minor number do not overlap. */
  ghost predicate Serial(ss: seq<Step>)
    requires Possible(ss)
    decreases |ss|
  {
    ss == [] || (Serial(Before(ss)) && (Last(ss).Miss? ==> Alone(Reached(Before(ss)), Last(ss).minor)))
  }

  /** No open looks for the number of a device. */
  ghost predicate NoneHad(minors: map<DevId, nat>, missed: map<OpenId, nat>) {
    forall o, d :: o in missed && d in minors ==> minors[d] != missed[o]
  }

  /** No two opens look for the same number. */
  ghost predicate NoneTwice(missed: map<OpenId, nat>) {
    forall o, p :: o in missed && p in missed && o != p ==> missed[o] != missed[p]
  }

  ghost predicate Uncontended(t: Table) { NoneHad(t.minors, t.missed) && NoneTwice(t.missed) }

  lemma NoneTwiceStep(t: Table, s: Step)
    requires Can(t, s) && NoneTwice(t.missed) && (s.Miss? ==> Alone(t, s.minor))
    ensures NoneTwice(MissedAfter(t, s))
  {
  }

  lemma NoneHadStep(t: Table, s: Step)
    requires Can(t, s) && Uncontended(t) && (s.Miss? ==> Alone(t, s.minor))
    ensures NoneHad(MinorsAfter(t, s), MissedAfter(t, s))
  {
    if s.Miss? {
      assert forall d :: d in t.minors ==> Listed(t, d) || d in t.pending;
    }
  }

  lemma UncontendedStep(t: Table, s: Step)
    requires Inv(t) && Can(t, s) && Uncontended(t) && (s.Miss? ==> Alone(t, s.minor))
    ensures Uncontended(After(t, s)) && (s.Allocate? ==> Having(t.minors, t.missed[s.o]) == {})
  {
    hide Inv, After, MinorsAfter, MissedAfter, Alone, NoneTwice;
    Effect(t, s);
    NoneTwiceStep(t, s);
    NoneHadStep(t, s);
  }

  lemma {:induction false} SerialUncontended(ss: seq<Step>)
    requires Possible(ss) && Serial(ss)
    ensures Uncontended(Reached(ss)) && NoRace(ss)
    decreases |ss|
  {
    if ss != [] {
      SerialUncontended(Before(ss));
      RunStep(ss);
      var t, s := Reached(Before(ss)), Last(ss);
      hide Inv, Reached, Rivals, After, Uncontended, Alone, Having;
      UncontendedStep(t, s);
      if s.Allocate? {
        RivalsAre(Before(ss), s.o);
      }
    }
  }

  /** If no open starts while another of the same minor number has searched and not yet listed its device,
      minor numbers stay unique. */
  lemma SerialOpens(ss: seq<Step>)
    requires Possible(ss) && Serial(ss)
    ensures StaysUnique(ss)
  {
    SerialUncontended(ss);
    UniqueIff(ss);
  }

  // ----- the race -----

  lemma OneMore(ss: seq<Step>, s: Step)
    requires Possible(ss) && Can(Reached(ss), s)
    ensures Possible(ss + [s]) && Reached(ss + [s]) == After(Reached(ss), s)
  {
    assert Before(ss + [s]) == ss && Last(ss + [s]) == s;
  }

  /** Two first opens of a minor number, both searching before either device is listed. */
  function TwoOpens(minor: nat): seq<Step> {
    [Miss(0, minor), Miss(1, minor), Allocate(0, 0), Insert(0), Allocate(1, 1), Insert(1)]
  }

  lemma TwoFirstOpens(minor: nat)
    ensures Possible(TwoOpens(minor)) && !Unique(Reached(TwoOpens(minor)))
    ensures Listed(Reached(TwoOpens(minor)), 0) && Listed(Reached(TwoOpens(minor)), 1)
  {
    var all := TwoOpens(minor);
    Nothing();
    hide Inv, Possible, Reached;
    OneMore([], all[0]);
    assert [] + [all[0]] == all[..1];
    OneMore(all[..1], all[1]);
    assert all[..1] + [all[1]] == all[..2];
    OneMore(all[..2], all[2]);
    assert all[..2] + [all[2]] == all[..3];
    OneMore(all[..3], all[3]);
    assert all[..3] + [all[3]] == all[..4];
    OneMore(all[..4], all[4]);
    assert all[..4] + [all[4]] == all[..5];
    OneMore(all[..5], all[5]);
    assert all[..5] + [all[5]] == all;
    var t := Reached(all);
    assert t.minors[0] == t.minors[1];
  }

  lemma Nothing()
    ensures Possible([]) && Reached([]) == Empty()
  {
  }

  lemma {:induction false} Above(s: set<nat>) returns (n: nat)
    ensures forall x :: x in s ==> x < n
    decreases |s|
  {
    n := 0;
    if s != {} {
      var x :| x in s;
      n := Above(s - {x});
      n := if x < n then n else x + 1;
      assert forall y :: y in s ==> y == x || y in s - {x};
    }
  }

  /** An open that has found nothing while a device of its minor number exists may allocate a second one. */
  lemma SecondDevice(ss: seq<Step>, o: OpenId, x: DevId) returns (more: seq<Step>)
    requires Possible(ss) && o in Reached(ss).missed
    requires x in Reached(ss).minors && Reached(ss).minors[x] == Reached(ss).missed[o]
    ensures Possible(ss + more) && !Unique(Reached(ss + more)) && |more| == 1
  {
    hide Inv, Reached, Possible, After;
    var t := Reached(ss);
    var d := Above(t.minors.Keys);
    assert d !in t.minors.Keys;
    more := [Allocate(o, d)];
    OneMore(ss, more[0]);
    Effect(t, more[0]);
    var t' := Reached(ss + more);
    assert t'.minors[x] == t'.minors[d];
  }

  /** Two opens that have both found nothing may both allocate. */
  lemma TwoSearches(ss: seq<Step>, p: OpenId, o: OpenId) returns (more: seq<Step>)
    requires Possible(ss) && p != o && p in Reached(ss).missed && o in Reached(ss).missed
    requires Reached(ss).missed[p] == Reached(ss).missed[o]
    ensures Possible(ss + more) && !Unique(Reached(ss + more))
  {
    hide Inv, Reached, Possible, After, Unique;
    var t := Reached(ss);
    var d := Above(t.minors.Keys);
    assert d !in t.minors.Keys;
    OneMore(ss, Allocate(p, d));
    Effect(t, Allocate(p, d));
    var rest := SecondDevice(ss + [Allocate(p, d)], o, d);
    more := [Allocate(p, d)] + rest;
    assert ss + [Allocate(p, d)] + rest == ss + more;
  }

  lemma SearchStep(ss: seq<Step>, o: OpenId, minor: nat)
    requires Possible(ss + [Miss(o, minor)])
    ensures Possible(ss) && o !in Reached(ss).missed
    ensures Reached(ss + [Miss(o, minor)]).minors == Reached(ss).minors
    ensures Reached(ss + [Miss(o, minor)]).missed == Reached(ss).missed[o := minor]
  {
    var missed := ss + [Miss(o, minor)];
    assert Before(missed) == ss && Last(missed) == Miss(o, minor);
    hide Inv;
    RunStep(missed);
    Effect(Reached(ss), Miss(o, minor));
  }

  /** The condition of `SerialOpens` cannot be relaxed: a search that misses while another open of that minor
      number has searched and not yet listed its device can end in two devices. */
  lemma OverlapBreaks(ss: seq<Step>, o: OpenId, minor: nat) returns (more: seq<Step>)
    requires Possible(ss + [Miss(o, minor)]) && Possible(ss) && !Alone(Reached(ss), minor)
    ensures Possible(ss + [Miss(o, minor)] + more) && !Unique(Reached(ss + [Miss(o, minor)] + more))
  {
    hide Inv, Reached, Possible, After, Unique;
    SearchStep(ss, o, minor);
    var t := Reached(ss);
    if x :| x in t.pending && x in t.minors && t.minors[x] == minor {
      more := SecondDevice(ss + [Miss(o, minor)], o, x);
    } else {
      var p :| p in t.missed && t.missed[p] == minor;
      more := TwoSearches(ss + [Miss(o, minor)], p, o);
    }
  }
}
