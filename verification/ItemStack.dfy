/**
 What the hierarchical item list means (gp2xmb/src/itemlist.c): a stack of levels, each a sequence of
 items with a cursor, and a flag that the next item added opens a new level.
 */
module ItemStack {

  datatype Level<T> = Level(items: seq<T>, cursor: nat)

  datatype Stack<T> = Stack(levels: seq<Level<T>>, pending: bool)

  function Top<T>(s: Stack<T>): Level<T>
    requires s.levels != []
  {
    s.levels[|s.levels| - 1]
  }

  function WithTop<T>(s: Stack<T>, l: Level<T>): Stack<T>
    requires s.levels != []
  {
    s.(levels := s.levels[|s.levels| - 1 := l])
  }

  /** No level is empty and every cursor is on an item. */
  ghost predicate InRange<T>(s: Stack<T>) {
    forall k :: 0 <= k < |s.levels| ==> s.levels[k].cursor < |s.levels[k].items|
  }

  function Empty<T>(): Stack<T> { Stack([], false) }

  /** The first item of all does not clear the flag. */
  function Add<T>(s: Stack<T>, x: T): Stack<T> {
    if s.levels == [] then s.(levels := [Level([x], 0)])
    else if s.pending then Stack(s.levels + [Level([x], 0)], false)
    else WithTop(s, Top(s).(items := Top(s).items + [x]))
  }

  function In<T>(s: Stack<T>): Stack<T> { s.(pending := true) }

  predicate CanLeave<T>(s: Stack<T>) { s.pending || |s.levels| >= 2 }

  function Out<T>(s: Stack<T>): Stack<T> {
    if s.pending then s.(pending := false)
    else if |s.levels| >= 2 then s.(levels := s.levels[..|s.levels| - 1])
    else s
  }

  predicate CanUp<T>(s: Stack<T>) { s.levels != [] && Top(s).cursor > 0 && !s.pending }

  function Up<T>(s: Stack<T>): Stack<T> {
    if CanUp(s) then WithTop(s, Top(s).(cursor := Top(s).cursor - 1)) else s
  }

  predicate CanDown<T>(s: Stack<T>) { s.levels != [] && Top(s).cursor + 1 < |Top(s).items| && !s.pending }

  function Down<T>(s: Stack<T>): Stack<T> {
    if CanDown(s) then WithTop(s, Top(s).(cursor := Top(s).cursor + 1)) else s
  }

  /** The results of the operations say whether they changed anything. */
  lemma ResultsTell<T>(s: Stack<T>)
    ensures CanLeave(s) <==> Out(s) != s
    ensures CanUp(s) <==> Up(s) != s
    ensures CanDown(s) <==> Down(s) != s
  {
    if CanUp(s) {
      assert Top(Up(s)) != Top(s);
    }
    if CanDown(s) {
      assert Top(Down(s)) != Top(s);
    }
  }

  // ----- sequences of operations -----

  datatype Op<T> = DoAdd(x: T) | DoUp | DoDown | DoIn | DoOut

  function Apply<T>(s: Stack<T>, op: Op<T>): Stack<T> {
    match op
    case DoAdd(x) => Add(s, x)
    case DoUp => Up(s)
    case DoDown => Down(s)
    case DoIn => In(s)
    case DoOut => Out(s)
  }

  function Run<T>(s: Stack<T>, ops: seq<Op<T>>): Stack<T>
    decreases |ops|
  {
    if ops == [] then s else Run(Apply(s, ops[0]), ops[1..])
  }

  lemma {:induction false} RunInRange<T>(s: Stack<T>, ops: seq<Op<T>>)
    requires InRange(s)
    ensures InRange(Run(s, ops))
    decreases |ops|
  {
    if ops != [] {
      RunInRange(Apply(s, ops[0]), ops[1..]);
    }
  }

  lemma {:induction false} RunConcat<T>(s: Stack<T>, a: seq<Op<T>>, b: seq<Op<T>>)
    ensures Run(s, a + b) == Run(Run(s, a), b)
    decreases |a|
  {
    if a == [] {
      assert a + b == b;
    } else {
      RunConcat(Apply(s, a[0]), a[1..], b);
      assert (a + b)[1..] == a[1..] + b;
    }
  }

  lemma RunOne<T>(s: Stack<T>, op: Op<T>)
    ensures Run(s, [op]) == Apply(s, op)
  {
  }

  // ----- entering and leaving -----

  /** What a program does inside a level: add items, move, and visit further levels. */
  datatype Step<T> = Place(x: T) | MoveUp | MoveDown | Enter(inside: seq<Step<T>>)

  function Ops<T>(steps: seq<Step<T>>): seq<Op<T>> {
    if steps == [] then [] else StepOps(steps[0]) + Ops(steps[1..])
  }

  function StepOps<T>(step: Step<T>): seq<Op<T>> {
    match step
    case Place(x) => [DoAdd(x)]
    case MoveUp => [DoUp]
    case MoveDown => [DoDown]
    case Enter(inside) => [DoIn] + Ops(inside) + [DoOut]
  }

  /** A level is entered only from a level that has an item. */
  predicate Sound<T>(steps: seq<Step<T>>, pending: bool) {
    steps == [] ||
    (match steps[0]
     case Place(_) => Sound(steps[1..], false)
     case Enter(inside) => !pending && Sound(inside, true) && Sound(steps[1..], false)
     case _ => Sound(steps[1..], pending))
  }

  /** The stack `s` with one more level, or about to get one. */
  ghost predicate Above<T>(s: Stack<T>, t: Stack<T>) {
    || (t.pending && t.levels == s.levels)
    || (!t.pending && |t.levels| == |s.levels| + 1 && t.levels[..|s.levels|] == s.levels)
  }

  lemma {:induction false} RunVisit<T>(s: Stack<T>, inside: seq<Op<T>>)
    ensures Run(s, [DoIn] + inside + [DoOut]) == Out(Run(In(s), inside))
  {
    RunConcat(s, [DoIn] + inside, [DoOut]);
    RunConcat(s, [DoIn], inside);
    RunOne(s, DoIn);
    RunOne(Run(In(s), inside), DoOut);
  }

  lemma {:induction false} StaysAbove<T>(s: Stack<T>, t: Stack<T>, steps: seq<Step<T>>)
    requires s.levels != [] && Above(s, t) && Sound(steps, t.pending)
    ensures Above(s, Run(t, Ops(steps)))
    decreases steps, 0
  {
    if steps != [] {
      var t' := Run(t, StepOps(steps[0]));
      RunConcat(t, StepOps(steps[0]), Ops(steps[1..]));
      match steps[0] {
        case Place(x) => RunOne(t, DoAdd(x));
        case MoveUp => RunOne(t, DoUp);
        case MoveDown => RunOne(t, DoDown);
        case Enter(inside) => EnterLeave(t, inside);
      }
      StaysAbove(s, t', steps[1..]);
    }
  }

  /** Entering a level, whatever is added, moved and visited there, then leaving it: the list is as it
      was, cursor included. */
  lemma {:induction false} EnterLeave<T>(s: Stack<T>, inside: seq<Step<T>>)
    requires s.levels != [] && !s.pending && Sound(inside, true)
    ensures Run(s, StepOps(Enter(inside))) == s
    decreases inside, 1
  {
    RunVisit(s, Ops(inside));
    StaysAbove(s, In(s), inside);
  }

  // ----- exactly when -----

  /** How many levels are above the lowest one, and whether one more is due. */
  datatype Depth = Depth(above: nat, pending: bool)

  function DepthOf<T>(s: Stack<T>): Depth
    requires s.levels != []
  {
    Depth(|s.levels| - 1, s.pending)
  }

  function Measure(d: Depth): nat { d.above + if d.pending then 1 else 0 }

  function Deeper<T>(d: Depth, op: Op<T>): Depth {
    match op
    case DoAdd(_) => if d.pending then Depth(d.above + 1, false) else d
    case DoIn => d.(pending := true)
    case DoOut => if d.pending then d.(pending := false) else if d.above > 0 then d.(above := d.above - 1) else d
    case _ => d
  }

  function DeeperAll<T>(d: Depth, ops: seq<Op<T>>): Depth
    decreases |ops|
  {
    if ops == [] then d else DeeperAll(Deeper(d, ops[0]), ops[1..])
  }

  /** The additions and moves that are made on the lowest level. */
  function AtBase<T>(d: Depth, ops: seq<Op<T>>): seq<Op<T>>
    decreases |ops|
  {
    if ops == [] then []
    else (if d == Depth(0, false) && (ops[0].DoAdd? || ops[0].DoUp? || ops[0].DoDown?) then [ops[0]] else [])
         + AtBase(Deeper(d, ops[0]), ops[1..])
  }

  function Touch<T>(l: Level<T>, op: Op<T>): Level<T> {
    match op
    case DoAdd(x) => l.(items := l.items + [x])
    case DoUp => if l.cursor > 0 then l.(cursor := l.cursor - 1) else l
    case DoDown => if l.cursor + 1 < |l.items| then l.(cursor := l.cursor + 1) else l
    case _ => l
  }

  function TouchAll<T>(l: Level<T>, ops: seq<Op<T>>): Level<T>
    decreases |ops|
  {
    if ops == [] then l else TouchAll(Touch(l, ops[0]), ops[1..])
  }

  lemma BaseStep<T>(t: Stack<T>, op: Op<T>)
    requires t.levels != []
    ensures var t', d := Apply(t, op), DepthOf(t);
            && t'.levels != [] && DepthOf(t') == Deeper(d, op)
            && t'.levels[0] == if d == Depth(0, false) && (op.DoAdd? || op.DoUp? || op.DoDown?)
                               then Touch(t.levels[0], op) else t.levels[0]
  {
  }

  /** A run changes the lowest level only by what is done there. */
  lemma {:induction false} BaseTracked<T>(t: Stack<T>, ops: seq<Op<T>>)
    requires t.levels != []
    ensures Run(t, ops).levels != [] && DepthOf(Run(t, ops)) == DeeperAll(DepthOf(t), ops)
    ensures Run(t, ops).levels[0] == TouchAll(t.levels[0], AtBase(DepthOf(t), ops))
    decreases |ops|
  {
    if ops != [] {
      hide Apply, Deeper, Touch;
      BaseStep(t, ops[0]);
      BaseTracked(Apply(t, ops[0]), ops[1..]);
      var rest := AtBase(Deeper(DepthOf(t), ops[0]), ops[1..]);
      assert ([ops[0]] + rest)[1..] == rest && [] + rest == rest;
    }
  }

  lemma {:induction false} DeeperConcat<T>(d: Depth, a: seq<Op<T>>, b: seq<Op<T>>)
    ensures DeeperAll(d, a + b) == DeeperAll(DeeperAll(d, a), b)
    decreases |a|
  {
    if a == [] {
      assert a + b == b;
    } else {
      assert (a + b)[1..] == a[1..] + b;
      DeeperConcat(Deeper(d, a[0]), a[1..], b);
    }
  }

  lemma DeeperVisit<T>(d: Depth, inside: seq<Op<T>>)
    ensures DeeperAll(d, [DoIn] + inside + [DoOut])
         == Deeper<T>(DeeperAll(d.(pending := true), inside), DoOut)
  {
    DeeperConcat(d, [DoIn] + inside, [DoOut]);
    DeeperConcat(d, [DoIn], inside);
    DeeperOne<T>(d, DoIn);
    DeeperOne<T>(DeeperAll(d.(pending := true), inside), DoOut);
  }

  lemma DeeperOne<T>(d: Depth, op: Op<T>)
    ensures DeeperAll(d, [op]) == Deeper(d, op)
  {
    assert [op][1..] == [];
  }

  /** Steps never end higher than they began, and lower if a level was entered while one was due. */
  lemma {:induction false} NeverHigher<T>(d: Depth, steps: seq<Step<T>>)
    ensures var d' := DeeperAll(d, Ops(steps));
            && Measure(d') <= Measure(d)
            && (!Sound(steps, d.pending) ==> Measure(d') < Measure(d) || Measure(d) == 0)
    decreases steps, 0
  {
    if steps != [] {
      DeeperConcat(d, StepOps(steps[0]), Ops(steps[1..]));
      var d1 := DeeperAll(d, StepOps(steps[0]));
      match steps[0] {
        case Place(x) => DeeperOne(d, DoAdd(x));
        case MoveUp => DeeperOne<T>(d, DoUp);
        case MoveDown => DeeperOne<T>(d, DoDown);
        case Enter(inside) => VisitNeverHigher(d, inside);
      }
      NeverHigher(d1, steps[1..]);
    }
  }

  lemma {:induction false} VisitNeverHigher<T>(d: Depth, inside: seq<Step<T>>)
    ensures var d' := DeeperAll(d, StepOps(Enter(inside)));
            && !d'.pending && Measure(d') <= Measure(d)
            && (d.pending || !Sound(inside, true) ==> Measure(d') < Measure(d) || Measure(d) == 0)
    decreases inside, 1
  {
    DeeperVisit(d, Ops(inside));
    NeverHigher(d.(pending := true), inside);
  }

  predicate Adds<T>(ops: seq<Op<T>>) {
    exists i :: 0 <= i < |ops| && ops[i].DoAdd?
  }

  lemma {:induction false} EmptyIff<T>(t: Stack<T>, ops: seq<Op<T>>)
    ensures Run(t, ops).levels == [] <==> t.levels == [] && !Adds(ops)
    decreases |ops|
  {
    if ops != [] {
      EmptyIff(Apply(t, ops[0]), ops[1..]);
      assert Adds(ops[1..]) ==> Adds(ops);
      assert Adds(ops) ==> ops[0].DoAdd? || Adds(ops[1..]);
    }
  }

  /** Where moves take the cursor of a level with `n` items. */
  function CursorAfter<T>(cursor: nat, n: nat, moves: seq<Op<T>>): nat
    decreases |moves|
  {
    if moves == [] then cursor
    else
      var c := if moves[0].DoUp? && cursor > 0 then cursor - 1
               else if moves[0].DoDown? && cursor + 1 < n then cursor + 1 else cursor;
      CursorAfter(c, n, moves[1..])
  }

  lemma {:induction false} UntouchedIff<T>(l: Level<T>, ops: seq<Op<T>>)
    ensures |TouchAll(l, ops).items| >= |l.items|
    ensures Adds(ops) ==> |TouchAll(l, ops).items| > |l.items|
    ensures !Adds(ops) ==> TouchAll(l, ops) == l.(cursor := CursorAfter(l.cursor, |l.items|, ops))
    decreases |ops|
  {
    if ops != [] {
      UntouchedIff(Touch(l, ops[0]), ops[1..]);
      assert Adds(ops[1..]) ==> Adds(ops);
      assert Adds(ops) ==> ops[0].DoAdd? || Adds(ops[1..]);
    }
  }

  /** What a visit does on the lowest level. */
  function OnBase<T>(inside: seq<Step<T>>): seq<Op<T>> {
    AtBase(Depth(0, false), StepOps(Enter(inside)))
  }

  /** Entering a level and leaving it, with any visits inside, restores the list exactly when no level was
      due and: in an empty list, nothing is added; with one level, nothing is added to that level and the
      moves made on it bring the cursor back; with more levels, no level is entered while one is due. */
  lemma EnterLeaveIff<T>(s: Stack<T>, inside: seq<Step<T>>)
    ensures Run(s, StepOps(Enter(inside))) == s <==>
            && !s.pending
            && (if s.levels == [] then !Adds(Ops(inside))
                else if |s.levels| == 1 then
                  !Adds(OnBase(inside))
                  && CursorAfter(s.levels[0].cursor, |s.levels[0].items|, OnBase(inside)) == s.levels[0].cursor
                else Sound(inside, true))
  {
    RunVisit(s, Ops(inside));
    var s' := Run(s, StepOps(Enter(inside)));
    assert !s'.pending;
    if s.levels == [] {
      EmptyIff(In(s), Ops(inside));
      assert Run(In(s), Ops(inside)).levels == [] <==> s'.levels == [];
    } else if !s.pending {
      BaseTracked(s, StepOps(Enter(inside)));
      VisitNeverHigher(DepthOf(s), inside);
      if |s.levels| == 1 {
        UntouchedIff(s.levels[0], OnBase(inside));
        assert s'.levels == [s'.levels[0]] && s.levels == [s.levels[0]];
      } else if Sound(inside, true) {
        EnterLeave(s, inside);
      }
    }
  }

  /** Entering a level twice, leaving it once and adding puts the item beside the item it was meant for. */
  lemma MisplacedItem<T>(a: T, x: T)
    ensures Run(Stack([Level([a], 0)], false), StepOps(Enter([Enter([]), Place(x)]))) == Stack([Level([a, x], 0)], false)
  {
    var s := Stack([Level([a], 0)], false);
    var none: seq<Step<T>> := [];
    var inner := StepOps(Enter(none));
    var steps := [Enter(none), Place(x)];
    RunVisit(s, Ops(steps));
    assert steps[1..] == [Place(x)] && [Place(x)][1..] == none;
    assert Ops([Place(x)]) == [DoAdd(x)] + Ops(none);
    assert Ops(steps) == StepOps(steps[0]) + Ops([Place(x)]) && [DoAdd(x)] + [] == [DoAdd(x)];
    assert [a] + [x] == [a, x];
    RunConcat(In(s), inner, [DoAdd(x)]);
    RunVisit(In(s), Ops(none));
    RunOne(Run(In(s), inner), DoAdd(x));
  }

  /** Entering twice without adding and leaving twice loses a level, if there is one to lose. */
  lemma EnterTwice<T>(s: Stack<T>)
    requires !s.pending
    ensures Run(s, [DoIn, DoIn, DoOut, DoOut]) == Out(s)
    ensures Run(s, [DoIn, DoIn, DoOut, DoOut]) == s <==> |s.levels| < 2
  {
  }
}
