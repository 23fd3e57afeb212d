/**
 Setups, teardowns and shutdowns of any number of queues at the same time
 (linux-2.6.24.3/block/blktrace.c).  Each acquisition, each release and each section under the directory
 mutex is a step of its own, steps of different calls interleave freely, and a setup may fail at any of
 its steps.
 */
module BlkTraceDirs {
  import opened BlkTrace

  datatype Phase =
    | Building(q: QueueId)   // a setup for this queue is under way
    | Ready(q: QueueId)      // attached to this queue
    | Lost                   // detached while it was running
    | Releasing              // a failed setup or a cleanup is giving back what it owns

  datatype State = State(
    tree: Tree,
    phases: map<TraceId, Phase>,
    running: set<TraceId>,
    queues: map<QueueId, TraceId>,
    next: TraceId)

  function Start(): State {
    State(Tree(false, 0, {}), map[], {}, map[], 0)
  }

  datatype Label =
    | Begin(q: QueueId)                     // a setup that gets its memory
    | Acquire(r: Resource, ok: bool)        // the next thing a setup needs
    | Publish(t: TraceId)                   // attach the trace if the queue has none
    | Run(q: QueueId, on: bool)
    | Detach(q: QueueId)
    | Release(r: Resource)
    | Finish(t: TraceId)

  predicate Is(s: State, t: TraceId, p: Phase) { t in s.phases && s.phases[t] == p }

  /** What a setup has when it asks for `r`. */
  predicate InTurn(s: State, r: Resource) {
    match r
    case Memory(_) => false
    case Percpu(t) => Memory(t) in s.tree.live
    case Dir(t) => Percpu(t) in s.tree.live
    case Dropped(t) => Dir(t) in s.tree.live
    case Channel(t) => Dropped(t) in s.tree.live
  }

  predicate Enabled(s: State, l: Label) {
    match l
    case Begin(_) => true
    case Acquire(r, _) => r.trace in s.phases && s.phases[r.trace].Building? && InTurn(s, r) && r !in s.tree.live
    case Publish(t) => t in s.phases && s.phases[t].Building? && Owned(t) <= s.tree.live
    case Run(q, on) => q in s.queues
    case Detach(q) => q in s.queues && s.queues[q] in s.phases
    case Release(r) => Is(s, r.trace, Releasing) && r in s.tree.live && (r.Dir? ==> s.tree.rootUsers > 0)
    case Finish(t) => Is(s, t, Releasing) && Owned(t) !! s.tree.live
  }

  function WithPhase(s: State, t: TraceId, p: Phase): State {
    s.(phases := s.phases[t := p])
  }

  function Acquired(tree: Tree, r: Resource): (tree': Tree)
    ensures tree'.live == tree.live + {r}
  {
    if r.Dir? then TreeMade(tree, r.trace) else tree.(live := tree.live + {r})
  }

  function Released(tree: Tree, r: Resource): (tree': Tree)
    requires r.Dir? ==> tree.rootUsers > 0
    ensures tree'.live == tree.live - {r}
  {
    if r.Dir? then TreeRemoved(tree, r.trace) else tree.(live := tree.live - {r})
  }

  function Apply(s: State, l: Label): State
    requires Enabled(s, l)
  {
    match l
    case Begin(q) =>
      WithPhase(s, s.next, Building(q)).(tree := Acquired(s.tree, Memory(s.next)), next := s.next + 1)
    case Acquire(r, ok) =>
      if ok then s.(tree := Acquired(s.tree, r)) else WithPhase(s, r.trace, Releasing)
    case Publish(t) =>
      var q := s.phases[t].q;
      if q in s.queues then WithPhase(s, t, Releasing)
      else WithPhase(s, t, Ready(q)).(queues := s.queues[q := t])
    case Run(q, on) => s.(running := if on then s.running + {s.queues[q]} else s.running - {s.queues[q]})
    case Detach(q) =>
      WithPhase(s, s.queues[q], if s.queues[q] in s.running then Lost else Releasing).(queues := s.queues - {q})
    case Release(r) => s.(tree := Released(s.tree, r))
    case Finish(t) => s.(phases := s.phases - {t})
  }

  // ----- what every step keeps -----

  /** Whatever is allocated belongs to a known trace, and an attached or lost trace owns everything. */
  ghost predicate OwnersAgree(s: State) {
    && (forall r :: r in s.tree.live ==> r.trace in s.phases)
    && (forall t :: t in s.phases ==> OwnsEnough(s, t))
  }

  ghost predicate OwnsEnough(s: State, t: TraceId)
    requires t in s.phases
  {
    t < s.next && (s.phases[t].Ready? || s.phases[t].Lost? ==> Owned(t) <= s.tree.live)
  }

  /** Attached traces and queues correspond one to one. */
  ghost predicate QueuesMatch(s: State) {
    && (forall q :: q in s.queues ==> Is(s, s.queues[q], Ready(q)))
    && (forall t :: t in s.phases && s.phases[t].Ready? ==> s.phases[t].q in s.queues && s.queues[s.phases[t].q] == t)
  }

  ghost predicate Inv(s: State) { RootAgrees(s.tree) && OwnersAgree(s) && QueuesMatch(s) }

  lemma RootStep(s: State, l: Label)
    requires RootAgrees(s.tree) && OwnersAgree(s) && Enabled(s, l)
    ensures RootAgrees(Apply(s, l).tree)
  {
    hide RootAgrees, Owned;
    if l.Begin? {
      OthersAgree(s.tree, s.tree.live + {Memory(s.next)});
    } else if l.Acquire? && l.ok {
      if l.r.Dir? {
        TreeMadeAgrees(s.tree, l.r.trace);
      } else {
        OthersAgree(s.tree, s.tree.live + {l.r});
      }
    } else if l.Release? {
      if l.r.Dir? {
        TreeRemovedAgrees(s.tree, l.r.trace);
      } else {
        OthersAgree(s.tree, s.tree.live - {l.r});
      }
    }
  }

  lemma OwnersStep(s: State, l: Label)
    requires OwnersAgree(s) && QueuesMatch(s) && Enabled(s, l)
    ensures OwnersAgree(Apply(s, l))
  {
    hide Acquired, Released, Owned;
    var s' := Apply(s, l);
    if l.Detach? {
      assert Is(s, s.queues[l.q], Ready(l.q));
    }
    forall t | t in s'.phases
      ensures OwnsEnough(s', t)
    {
      if t in s.phases {
        assert OwnsEnough(s, t);
      }
    }
    hide OwnsEnough, QueuesMatch;
    assert forall t :: t in s.phases && t !in s'.phases ==> l == Finish(t);
  }

  lemma QueuesStep(s: State, l: Label)
    requires OwnersAgree(s) && QueuesMatch(s) && Enabled(s, l)
    ensures QueuesMatch(Apply(s, l))
  {
    hide Owned;
    if l.Begin? {
      assert s.next in s.phases ==> OwnsEnough(s, s.next);
    }
  }

  lemma StepKeeps(s: State, l: Label)
    requires Inv(s) && Enabled(s, l)
    ensures Inv(Apply(s, l))
  {
    hide RootAgrees, OwnersAgree, QueuesMatch, Apply, Enabled;
    RootStep(s, l);
    OwnersStep(s, l);
    QueuesStep(s, l);
  }

  // ----- whole runs -----

  lemma StartAgrees()
    ensures Inv(Start())
  {
    assert Dirs(Start().tree) == {};
  }

  function Before(ls: seq<Label>): seq<Label>
    requires ls != []
  {
    ls[..|ls| - 1]
  }

  ghost predicate Possible(ls: seq<Label>)
    decreases |ls|, 0
  {
    ls == [] || (Possible(Before(ls)) && Enabled(Reached(Before(ls)), ls[|ls| - 1]))
  }

  ghost function Reached(ls: seq<Label>): (s: State)
    requires Possible(ls)
    ensures Inv(s)
    decreases |ls|, 1
  {
    if ls == [] then StartAgrees(); Start()
    else
      var s := Reached(Before(ls));
      StepKeeps(s, ls[|ls| - 1]);
      Apply(s, ls[|ls| - 1])
  }

  /** After every interleaving of setups, successful, failed or under way, and of teardowns: the user count is
      the number of trace directories created and not removed, and the root exists exactly while it is
      positive. */
  lemma DirectoryAccounts(ls: seq<Label>)
    requires Possible(ls)
    ensures var tree := Reached(ls).tree;
            tree.rootUsers == |Dirs(tree)| && (tree.rootExists <==> tree.rootUsers > 0)
  {
    hide Reached;
  }

  /** And the trace of every queue owns all that a trace owns. */
  lemma QueuesAreComplete(ls: seq<Label>, q: QueueId)
    requires Possible(ls) && q in Reached(ls).queues
    ensures Owned(Reached(ls).queues[q]) <= Reached(ls).tree.live
  {
    hide Reached, Owned, RootAgrees;
    var s := Reached(ls);
    assert Is(s, s.queues[q], Ready(q));
    assert OwnsEnough(s, s.queues[q]);
  }

  /** When no setup and no release is under way, the directories are those of the queues' traces and of the
      traces that were detached while running. */
  lemma AtRest(ls: seq<Label>)
    requires Possible(ls)
    requires forall t :: t in Reached(ls).phases ==> Reached(ls).phases[t].Ready? || Reached(ls).phases[t].Lost?
    ensures var s := Reached(ls); Dirs(s.tree) == s.phases.Keys
    ensures var s := Reached(ls);
            (forall t :: t in s.phases ==> !s.phases[t].Lost?) ==> Dirs(s.tree) == s.queues.Values
  {
    hide Reached, RootAgrees;
    var s := Reached(ls);
    forall t | t in s.phases
      ensures t in Dirs(s.tree)
    {
      assert OwnsEnough(s, t);
      assert Dir(t) in Owned(t) && Dir(t) in s.tree.live;
    }
    assert Dirs(s.tree) == s.phases.Keys;
    if forall t :: t in s.phases ==> !s.phases[t].Lost? {
      forall t | t in s.phases
        ensures t in s.queues.Values
      {
        assert s.phases[t].q in s.queues.Keys && s.queues[s.phases[t].q] == t;
      }
      forall t | t in s.queues.Values
        ensures t in s.phases
      {
        var q :| q in s.queues && s.queues[q] == t;
        assert Is(s, t, Ready(q));
      }
    }
  }

  /** A trace under construction has each thing only after the one before it, as the failure path relies on. */
  ghost predicate HeldInOrder(s: State, t: TraceId) {
    t in s.phases && s.phases[t].Building? ==>
      && Memory(t) in s.tree.live
      && (Dir(t) in s.tree.live ==> Percpu(t) in s.tree.live)
      && (Dropped(t) in s.tree.live ==> Dir(t) in s.tree.live)
      && (Channel(t) in s.tree.live ==> Dropped(t) in s.tree.live)
  }

  lemma OrderStep(s: State, l: Label, t: TraceId)
    requires OwnersAgree(s) && Enabled(s, l) && HeldInOrder(s, t)
    ensures HeldInOrder(Apply(s, l), t)
  {
    hide Owned, Acquired, Released;
  }

  /** After every interleaving, a setup under way holds the parts of its trace in the order it asks for them:
      no channel without its directory and no directory without its counters. */
  lemma {:induction false} BuiltInOrder(ls: seq<Label>, t: TraceId)
    requires Possible(ls)
    ensures HeldInOrder(Reached(ls), t)
    decreases |ls|
  {
    hide HeldInOrder, Enabled, Apply;
    if ls == [] {
      NothingAtStart(t);
    } else {
      BuiltInOrder(Before(ls), t);
      OrderStep(Reached(Before(ls)), ls[|ls| - 1], t);
    }
  }

  lemma NothingAtStart(t: TraceId)
    ensures HeldInOrder(Start(), t)
  {
  }

  // ----- single calls among all the others -----

  /** A queue's trace changes only when a setup for it attaches a trace to a queue that has none, and when it
      is detached.  So a setup that fails, at whatever step, leaves it alone. */
  lemma QueueChanges(s: State, l: Label, q: QueueId)
    requires Enabled(s, l)
    ensures q in s.queues ==> l == Detach(q) || (q in Apply(s, l).queues && Apply(s, l).queues[q] == s.queues[q])
    ensures q !in s.queues && q in Apply(s, l).queues ==>
              l.Publish? && s.phases[l.t] == Building(q) && Apply(s, l).queues[q] == l.t
  {
    hide Owned;
  }

  /** A step of a setup that fails starts the release of what it has, and so does a queue that has a trace. */
  lemma FailureReleases(s: State, l: Label)
    requires Inv(s) && Enabled(s, l)
    ensures l.Acquire? && !l.ok ==> Is(Apply(s, l), l.r.trace, Releasing) && Apply(s, l).tree == s.tree
    ensures l.Publish? && s.phases[l.t].q in s.queues ==> Is(Apply(s, l), l.t, Releasing) && Apply(s, l).tree == s.tree
  {
    hide Owned;
  }

  /** What a setup does when nothing fails, for trace `t`. */
  function SetupSteps(q: QueueId, t: TraceId): seq<Label> {
    [Begin(q), Acquire(Percpu(t), true), Acquire(Dir(t), true), Acquire(Dropped(t), true), Acquire(Channel(t), true),
     Publish(t)]
  }

  /** A setup step that succeeds, and what it leaves to do. */
  lemma AcquireStep(s: State, q: QueueId, t: TraceId, r: Resource)
    requires Is(s, t, Building(q)) && r.trace == t && InTurn(s, r) && r !in s.tree.live
    ensures Enabled(s, Acquire(r, true))
    ensures var s' := Apply(s, Acquire(r, true));
            && Is(s', t, Building(q)) && s'.queues == s.queues && s'.tree.live == s.tree.live + {r}
  {
    hide Owned, Acquired;
  }

  /** Among whatever else is under way, a setup can always go through: it attaches a complete trace to a queue
      that has none, and otherwise starts its release. */
  lemma SetupGoesThrough(ls: seq<Label>, q: QueueId)
    requires Possible(ls)
    ensures var t := Reached(ls).next;
            && Possible(ls + SetupSteps(q, t))
            && var s := Reached(ls + SetupSteps(q, t));
               if q in Reached(ls).queues then Is(s, t, Releasing) && s.queues == Reached(ls).queues
               else Is(s, t, Ready(q)) && q in s.queues && s.queues[q] == t && Owned(t) <= s.tree.live
  {
    hide Possible, Reached, Inv, Apply, Enabled, Owned;
    var t := Reached(ls).next;
    HalfSetUp(ls, q, t);
    var l3 := ls + HalfSteps(q, t);
    AcquireMore(l3, q, t, Dropped(t));
    var l4 := l3 + [Acquire(Dropped(t), true)];
    AcquireMore(l4, q, t, Channel(t));
    var l5 := l4 + [Acquire(Channel(t), true)];
    PublishStep(Reached(l5), q, t);
    OneMore(l5, Publish(t));
    assert l5 + [Publish(t)] == ls + SetupSteps(q, t);
  }

  /** The first half of them: memory, counters and directory. */
  function HalfSteps(q: QueueId, t: TraceId): seq<Label> {
    [Begin(q), Acquire(Percpu(t), true), Acquire(Dir(t), true)]
  }

  lemma HalfSetUp(ls: seq<Label>, q: QueueId, t: TraceId)
    requires Possible(ls) && t == Reached(ls).next
    ensures Possible(ls + HalfSteps(q, t))
    ensures var s := Reached(ls + HalfSteps(q, t));
            && Is(s, t, Building(q)) && s.queues == Reached(ls).queues
            && Memory(t) in s.tree.live && Percpu(t) in s.tree.live && Dir(t) in s.tree.live
            && Dropped(t) !in s.tree.live && Channel(t) !in s.tree.live
  {
    hide Possible, Reached, Inv, Apply, Enabled;
    NewOwnsNothing(Reached(ls));
    BeginStep(Reached(ls), q);
    OneMore(ls, Begin(q));
    var l1 := ls + [Begin(q)];
    AcquireMore(l1, q, t, Percpu(t));
    var l2 := l1 + [Acquire(Percpu(t), true)];
    AcquireMore(l2, q, t, Dir(t));
    assert l2 + [Acquire(Dir(t), true)] == ls + HalfSteps(q, t);
  }

  lemma AcquireMore(ls: seq<Label>, q: QueueId, t: TraceId, r: Resource)
    requires Possible(ls) && Is(Reached(ls), t, Building(q)) && r.trace == t
    requires InTurn(Reached(ls), r) && r !in Reached(ls).tree.live
    ensures Possible(ls + [Acquire(r, true)])
    ensures var s, s' := Reached(ls), Reached(ls + [Acquire(r, true)]);
            Is(s', t, Building(q)) && s'.queues == s.queues && s'.tree.live == s.tree.live + {r}
  {
    hide Possible, Reached, Inv, Apply, Enabled;
    AcquireStep(Reached(ls), q, t, r);
    OneMore(ls, Acquire(r, true));
  }

  lemma NewOwnsNothing(s: State)
    requires Inv(s)
    ensures forall r :: r in s.tree.live ==> r.trace != s.next
  {
    hide RootAgrees, QueuesMatch;
    forall r | r in s.tree.live
      ensures r.trace != s.next
    {
      assert OwnsEnough(s, r.trace);
    }
  }

  lemma BeginStep(s: State, q: QueueId)
    ensures Enabled(s, Begin(q))
    ensures var s' := Apply(s, Begin(q));
            Is(s', s.next, Building(q)) && s'.queues == s.queues && s'.tree.live == s.tree.live + {Memory(s.next)}
  {
    hide Acquired;
  }

  lemma PublishStep(s: State, q: QueueId, t: TraceId)
    requires Is(s, t, Building(q))
    requires Memory(t) in s.tree.live && Percpu(t) in s.tree.live && Dir(t) in s.tree.live
    requires Dropped(t) in s.tree.live && Channel(t) in s.tree.live
    ensures Enabled(s, Publish(t)) && Owned(t) <= s.tree.live
    ensures var s' := Apply(s, Publish(t));
            && s'.tree == s.tree
            && if q in s.queues then Is(s', t, Releasing) && s'.queues == s.queues
               else Is(s', t, Ready(q)) && q in s'.queues && s'.queues[q] == t
  {
  }

  /** Detaching starts the release of the trace exactly when it is not running. */
  lemma DetachReleasesIff(s: State, q: QueueId)
    requires Inv(s) && q in s.queues
    ensures Enabled(s, Detach(q)) && (Is(Apply(s, Detach(q)), s.queues[q], Releasing) <==> s.queues[q] !in s.running)
  {
    hide Owned, RootAgrees;
    assert Is(s, s.queues[q], Ready(q));
  }

  /** The last start or stop of a queue in some steps was a start. */
  predicate StartedLast(ls: seq<Label>, q: QueueId) {
    ls != [] && var l := ls[|ls| - 1]; if l.Run? && l.q == q then l.on else StartedLast(ls[..|ls| - 1], q)
  }

  lemma OneMore(ls: seq<Label>, l: Label)
    ensures Possible(ls + [l]) <==> Possible(ls) && Enabled(Reached(ls), l)
    ensures Possible(ls + [l]) ==> Reached(ls + [l]) == Apply(Reached(ls), l)
  {
    assert Before(ls + [l]) == ls && (ls + [l])[|ls|] == l;
  }

  /** A start or stop of another queue does not touch the trace of this one. */
  lemma RunningStep(s: State, l: Label, q: QueueId)
    requires Inv(s) && Enabled(s, l) && q in s.queues && l != Detach(q)
    ensures q in Apply(s, l).queues && Apply(s, l).queues[q] == s.queues[q]
    ensures s.queues[q] in Apply(s, l).running <==> if l.Run? && l.q == q then l.on else s.queues[q] in s.running
  {
    hide Owned, RootAgrees, OwnersAgree;
    assert Is(s, s.queues[q], Ready(q));
    if l.Run? {
      assert Is(s, s.queues[l.q], Ready(l.q));
    }
  }

  /** After a stop and any steps of any calls but a detaching of this queue, its trace is running exactly if a
      start came last. */
  lemma {:induction false} RunningSinceStop(ls: seq<Label>, q: QueueId, mid: seq<Label>)
    requires Possible(ls) && q in Reached(ls).queues && Detach(q) !in mid
    requires Possible(ls + [Run(q, false)] + mid)
    ensures var s := Reached(ls + [Run(q, false)] + mid);
            && q in s.queues && s.queues[q] == Reached(ls).queues[q]
            && (s.queues[q] in s.running <==> StartedLast(mid, q))
    decreases |mid|
  {
    hide Reached, Possible, Inv, Enabled;
    var off := ls + [Run(q, false)];
    if mid == [] {
      assert off + mid == off;
      OneMore(ls, Run(q, false));
      RunningStep(Reached(ls), Run(q, false), q);
    } else {
      var mid', l := mid[..|mid| - 1], mid[|mid| - 1];
      assert off + mid == (off + mid') + [l];
      OneMore(off + mid', l);
      RunningSinceStop(ls, q, mid');
      RunningStep(Reached(off + mid'), l, q);
    }
  }

  /** Shutdown stops a trace and then detaches it.  Whatever other calls do in between, that starts the release
      exactly if no start of this queue came last in between. */
  lemma ShutdownReleasesIff(ls: seq<Label>, q: QueueId, mid: seq<Label>)
    requires Possible(ls) && q in Reached(ls).queues && Detach(q) !in mid
    requires Possible(ls + [Run(q, false)] + mid)
    ensures Possible(ls + [Run(q, false)] + mid + [Detach(q)])
    ensures Is(Reached(ls + [Run(q, false)] + mid + [Detach(q)]), Reached(ls).queues[q], Releasing) <==> !StartedLast(mid, q)
  {
    hide Reached, Possible, Inv, Enabled, Apply;
    var before := ls + [Run(q, false)] + mid;
    RunningSinceStop(ls, q, mid);
    DetachReleasesIff(Reached(before), q);
    OneMore(before, Detach(q));
  }

  /** What is left to give back. */
  function Left(s: State, t: TraceId): set<Resource> { Owned(t) * s.tree.live }

  /** A release is never stuck. */
  lemma ReleaseGoesOn(s: State, t: TraceId)
    requires Inv(s) && Is(s, t, Releasing)
    ensures Enabled(s, Finish(t)) || exists r: Resource :: r.trace == t && Enabled(s, Release(r))
  {
    if Left(s, t) != {} {
      var r :| r in Left(s, t);
      if r.Dir? {
        TreeRemovedAgrees(s.tree, t);
      }
      assert r.trace == t && Enabled(s, Release(r));
    } else {
      assert forall r :: r in Owned(t) && r in s.tree.live ==> r in Left(s, t);
    }
  }

  /** Whatever other calls do meanwhile, what is left to release never grows, and each step of the release
      takes something away. */
  lemma ReleaseShrinks(s: State, t: TraceId, l: Label)
    requires Inv(s) && Is(s, t, Releasing) && Enabled(s, l) && l != Finish(t)
    ensures Is(Apply(s, l), t, Releasing) && Left(Apply(s, l), t) <= Left(s, t)
    ensures l.Release? && l.r.trace == t ==> Left(Apply(s, l), t) == Left(s, t) - {l.r} && l.r in Left(s, t)
  {
    hide Owned, RootAgrees;
    if l.Detach? {
      assert Is(s, s.queues[l.q], Ready(l.q));
    }
    assert OwnsEnough(s, t);
  }
  /** Steps of the release of `t`. */
  function Releases(ls: seq<Label>, t: TraceId): nat {
    if ls == [] then 0
    else
      var l := ls[|ls| - 1];
      Releases(ls[..|ls| - 1], t) + if l.Release? && l.r.trace == t then 1 else 0
  }

  /** Whatever else happens, a release under way goes on until it is finished, with at most as many steps as
      there were things to give back; finished, it has left nothing. */
  lemma {:induction false} ReleaseBounded(ls: seq<Label>, t: TraceId, more: seq<Label>)
    requires Possible(ls) && Is(Reached(ls), t, Releasing) && Possible(ls + more)
    ensures var s := Reached(ls + more);
            && t < s.next && (Is(s, t, Releasing) || t !in s.phases)
            && Releases(more, t) + |Left(s, t)| <= |Left(Reached(ls), t)|
            && (t !in s.phases ==> Left(s, t) == {})
    decreases |more|
  {
    hide Reached, Possible, Owned, Enabled, RootAgrees;
    if more == [] {
      assert ls + more == ls;
      assert OwnsEnough(Reached(ls), t);
    } else {
      var more', l := more[..|more| - 1], more[|more| - 1];
      assert ls + more == (ls + more') + [l];
      OneMore(ls + more', l);
      ReleaseBounded(ls, t, more');
      ReleaseStep(Reached(ls + more'), t, l);
    }
  }

  lemma ReleaseStep(s: State, t: TraceId, l: Label)
    requires Inv(s) && Enabled(s, l) && t < s.next && (Is(s, t, Releasing) || t !in s.phases)
    ensures var s' := Apply(s, l);
            && t < s'.next && (Is(s', t, Releasing) || t !in s'.phases)
            && |Left(s', t)| + (if l.Release? && l.r.trace == t then 1 else 0) <= |Left(s, t)|
            && (t !in s'.phases ==> Left(s', t) == {})
  {
    hide Owned, Inv, Enabled, Apply, Left;
    StepKeeps(s, l);
    NothingOfUnknown(Apply(s, l), t);
    if Is(s, t, Releasing) && l != Finish(t) {
      ReleaseShrinks(s, t, l);
      KnownStays(s, t, l);
      Smaller(Left(Apply(s, l), t), Left(s, t));
    } else {
      NothingOfUnknown(s, t);
      UnknownStays(s, t, l);
    }
  }

  lemma KnownStays(s: State, t: TraceId, l: Label)
    requires Enabled(s, l) && t < s.next
    ensures t < Apply(s, l).next
  {
    hide Owned;
  }

  lemma UnknownStays(s: State, t: TraceId, l: Label)
    requires Inv(s) && Enabled(s, l) && t < s.next && (t !in s.phases || l == Finish(t))
    ensures t < Apply(s, l).next && t !in Apply(s, l).phases && !(l.Release? && l.r.trace == t)
  {
    hide Owned, RootAgrees, OwnersAgree;
    if l.Detach? {
      assert Is(s, s.queues[l.q], Ready(l.q));
    }
  }

  lemma Smaller(a: set<Resource>, b: set<Resource>)
    requires a <= b
    ensures |a| <= |b|
    ensures forall r :: r in b && a == b - {r} ==> |a| == |b| - 1
  {
    var rest := b - a;
    assert b == a + rest;
  }

  lemma NothingOfUnknown(s: State, t: TraceId)
    requires Inv(s)
    ensures t !in s.phases ==> Left(s, t) == {}
  {
    hide RootAgrees, QueuesMatch;
    if t !in s.phases {
      assert forall r :: r in Owned(t) ==> r !in s.tree.live;
    }
  }

  /** A run that offers no further step of a release under way has nothing of that trace left. */
  lemma ReleaseCompletes(ls: seq<Label>, t: TraceId, more: seq<Label>)
    requires Possible(ls) && Is(Reached(ls), t, Releasing) && Possible(ls + more)
    requires !Enabled(Reached(ls + more), Finish(t))
    requires forall r: Resource :: r.trace == t ==> !Enabled(Reached(ls + more), Release(r))
    ensures t !in Reached(ls + more).phases && Owned(t) !! Reached(ls + more).tree.live
  {
    hide Reached, Possible, Enabled, Inv;
    ReleaseBounded(ls, t, more);
    var s := Reached(ls + more);
    if Is(s, t, Releasing) {
      ReleaseGoesOn(s, t);
    }
    assert forall r :: r in Owned(t) && r in s.tree.live ==> r in Left(s, t);
  }
}
