/**
 The hierarchical item list as gp2xmb/src/itemlist.c builds it: doubly linked items, each level hanging
 from the selected item of the level below by parent pointers.  The heap is proved to be the stack of
 `ItemStack` after every operation.
 */
module ItemList {
  import opened Seqs
  import opened ItemStack

  const TEXT_SIZE := 64

  /** A text field keeps what fits beside its terminator. */
  function Clip(s: string): (r: string)
    ensures r <= s && |r| == if |s| <= 63 then |s| else 63
  {
    if |s| < TEXT_SIZE then s else s[..TEXT_SIZE - 1]
  }

  /** That is the longest prefix shorter than the field. */
  lemma ClipIsLongest(s: string, p: string)
    requires p <= s && |p| < 64
    ensures Clip(s) <= s && |Clip(s)| < 64 && p <= Clip(s)
  {
  }

  class Item {
    const title: string
    const subtitle: string
    var next: Item?
    var prev: Item?
    var parent: Item?
    ghost var level: nat   // where the item is in the list
    ghost var index: nat
    ghost var live: bool   // not freed

    constructor (title: string, subtitle: string, prev: Item?, parent: Item?, ghost level: nat, ghost index: nat)
      ensures this.title == Clip(title) && this.subtitle == Clip(subtitle)
      ensures this.next == null && this.prev == prev && this.parent == parent
      ensures this.level == level && this.index == index && live
    {
      this.title, this.subtitle := Clip(title), Clip(subtitle);
      this.next, this.prev, this.parent := null, prev, parent;
      this.level, this.index, this.live := level, index, true;
    }
  }

  /** `items` is level `k`: doubly linked in order, all hanging from `parent`. */
  ghost predicate Linked(items: seq<Item>, k: nat, parent: Item?)
    reads items
  {
    && |items| > 0
    && (forall i :: 0 <= i < |items| ==> items[i].level == k && items[i].index == i && items[i].live)
    && (forall i {:trigger items[i].parent} :: 0 <= i < |items| ==> items[i].parent == parent)
    && (forall i {:trigger items[i].next} :: 0 <= i < |items| ==>
          items[i].next == if i + 1 < |items| then items[i + 1] else null)
    && (forall i {:trigger items[i].prev} :: 0 <= i < |items| ==>
          items[i].prev == if i > 0 then items[i - 1] else null)
  }

  ghost predicate Within(s: seq<Item>, items: set<Item>) {
    forall x :: x in s ==> x in items
  }

  /** The item that level `k` hangs from: the selected item of the level below. */
  ghost function ParentOf(s: Stack<Item>, k: nat): Item?
    requires InRange(s) && k <= |s.levels|
  {
    if k == 0 then null else s.levels[k - 1].items[s.levels[k - 1].cursor]
  }

  ghost predicate LevelOk(s: Stack<Item>, items: set<Item>, k: nat)
    requires InRange(s) && k < |s.levels|
    reads items
  {
    Within(s.levels[k].items, items) && Linked(s.levels[k].items, k, ParentOf(s, k))
  }

  /** The heap holds the levels of the stack. */
  ghost predicate Shape(s: Stack<Item>, items: set<Item>)
    reads items
  {
    InRange(s) && forall k :: 0 <= k < |s.levels| ==> LevelOk(s, items, k)
  }

  lemma CursorMoved(s: Stack<Item>, items: set<Item>, to: nat)
    requires Shape(s, items) && s.levels != [] && to < |Top(s).items|
    ensures Shape(WithTop(s, Top(s).(cursor := to)), items)
  {
    var s' := WithTop(s, Top(s).(cursor := to));
    forall k | 0 <= k < |s'.levels|
      ensures LevelOk(s', items, k)
    {
      assert LevelOk(s, items, k);
    }
  }

  lemma FlagMoved(s: Stack<Item>, items: set<Item>, pending: bool)
    requires Shape(s, items)
    ensures Shape(s.(pending := pending), items)
  {
    var s' := s.(pending := pending);
    forall k | 0 <= k < |s'.levels|
      ensures LevelOk(s', items, k)
    {
      assert LevelOk(s, items, k);
    }
  }

  lemma TopLinked(s: Stack<Item>, items: set<Item>)
    requires Shape(s, items) && s.levels != []
    ensures Within(Top(s).items, items)
    ensures Linked(Top(s).items, |s.levels| - 1, ParentOf(s, |s.levels| - 1))
  {
    assert LevelOk(s, items, |s.levels| - 1);
  }

  /** An operation on a title as it is kept. */
  ghost function ClippedOp(op: Op<string>): Op<string> {
    if op.DoAdd? then DoAdd(Clip(op.x)) else op
  }

  ghost function Clipped(ops: seq<Op<string>>): (r: seq<Op<string>>)
    ensures |r| == |ops|
  {
    seq(|ops|, i requires 0 <= i < |ops| => ClippedOp(ops[i]))
  }

  ghost predicate Allocated(s: seq<Item>, live: bool)
    reads s
  {
    forall x :: x in s ==> x.live == live
  }

  /** The titles of a stack of items. */
  ghost function Titles(s: Stack<Item>): (t: Stack<string>)
    ensures |t.levels| == |s.levels| && t.pending == s.pending
  {
    Stack(seq(|s.levels|, k requires 0 <= k < |s.levels| => LevelTitles(s.levels[k])), s.pending)
  }

  ghost function LevelTitles(l: Level<Item>): Level<string> {
    Level(seq(|l.items|, i requires 0 <= i < |l.items| => l.items[i].title), l.cursor)
  }

  lemma TitlesAdd(s: Stack<Item>, x: Item)
    ensures Titles(ItemStack.Add(s, x)) == ItemStack.Add(Titles(s), x.title)
  {
    assert LevelTitles(Level([x], 0)) == Level([x.title], 0);
    if s.levels != [] {
      var l := Top(s);
      assert LevelTitles(l.(items := l.items + [x])) == LevelTitles(l).(items := LevelTitles(l).items + [x.title]);
    }
    assert Titles(ItemStack.Add(s, x)).levels == ItemStack.Add(Titles(s), x.title).levels;
  }

  lemma TitlesMove(s: Stack<Item>)
    requires InRange(s)
    ensures Titles(ItemStack.Up(s)) == ItemStack.Up(Titles(s))
    ensures Titles(ItemStack.Down(s)) == ItemStack.Down(Titles(s))
    ensures Titles(ItemStack.Out(s)) == ItemStack.Out(Titles(s))
    ensures Titles(ItemStack.In(s)) == ItemStack.In(Titles(s))
  {
  }

  lemma RunMore<T>(s: Stack<T>, ops: seq<Op<T>>, op: Op<T>)
    ensures Run(s, ops + [op]) == Apply(Run(s, ops), op)
  {
    RunConcat(s, ops, [op]);
    RunOne(Run(s, ops), op);
  }

  /** The items that leaving takes away. */
  ghost function Left(s: Stack<Item>): seq<Item> {
    if !s.pending && |s.levels| >= 2 then Top(s).items else []
  }

  /** The stack `s` was entered and `added` are the items of its new level so far. */
  ghost predicate Entered(s: Stack<Item>, t: Stack<Item>, added: seq<Item>) {
    if added == [] then t == ItemStack.In(s)
    else exists c: nat :: c < |added| && t == Stack(s.levels + [Level(added, c)], false)
  }

  lemma EnteredNow(s: Stack<Item>)
    ensures Entered(s, ItemStack.In(s), [])
  {
  }

  lemma EnteredAdd(s: Stack<Item>, t: Stack<Item>, added: seq<Item>, x: Item)
    requires s.levels != [] && Entered(s, t, added)
    ensures Entered(s, ItemStack.Add(t, x), added + [x])
  {
    var c: nat := 0;
    if added != [] {
      c :| c < |added| && t == Stack(s.levels + [Level(added, c)], false);
    } else {
      assert added + [x] == [x];
    }
    assert ItemStack.Add(t, x) == Stack(s.levels + [Level(added + [x], c)], false);
  }

  lemma EnteredMove(s: Stack<Item>, t: Stack<Item>, added: seq<Item>)
    requires Entered(s, t, added)
    ensures Entered(s, ItemStack.Up(t), added) && Entered(s, ItemStack.Down(t), added)
  {
    if added != [] {
      var c: nat :| c < |added| && t == Stack(s.levels + [Level(added, c)], false);
      var up, down: nat := if c > 0 then c - 1 else c, if c + 1 < |added| then c + 1 else c;
      assert ItemStack.Up(t) == Stack(s.levels + [Level(added, up)], false);
      assert ItemStack.Down(t) == Stack(s.levels + [Level(added, down)], false);
    }
  }

  lemma EnteredLeft(s: Stack<Item>, t: Stack<Item>, added: seq<Item>)
    requires s.levels != [] && !s.pending && Entered(s, t, added)
    ensures ItemStack.Out(t) == s && Left(t) == added
  {
  }

  /** How many items some steps add, visits included. */
  ghost function Placing(steps: seq<Step<string>>): nat {
    if steps == [] then 0 else PlacingStep(steps[0]) + Placing(steps[1..])
  }

  ghost function PlacingStep(step: Step<string>): nat {
    match step
    case Place(_) => 1
    case Enter(inside) => Placing(inside)
    case _ => 0
  }

  /** What the step at `i` may rely on and leaves for the steps after it. */
  lemma NextStep(steps: seq<Step<string>>, i: nat, pending: bool)
    requires i < |steps| && Sound(steps[i..], pending)
    ensures Placing(steps[i..]) == PlacingStep(steps[i]) + Placing(steps[i + 1..])
    ensures steps[i].Enter? ==> !pending && Sound(steps[i].inside, true)
    ensures Sound(steps[i + 1..], if steps[i].MoveUp? || steps[i].MoveDown? then pending else false)
  {
    assert steps[i..][0] == steps[i] && steps[i..][1..] == steps[i + 1..];
  }

  lemma StepCount(step: Step<string>)
    ensures PlacingStep(step) == if step.Place? then 1 else if step.Enter? then Placing(step.inside) else 0
  {
  }

  lemma NonePlaced()
    ensures Placing([]) == 0
  {
  }

  lemma NoneRepeat()
    ensures NoRepeats<Item>([])
  {
  }

  lemma OneRepeats(s: seq<Item>)
    requires |s| <= 1
    ensures NoRepeats(s)
  {
  }

  lemma EnteredPending(s: Stack<Item>, t: Stack<Item>, added: seq<Item>)
    requires Entered(s, t, added) && s.levels != []
    ensures t.levels != [] && t.pending == (added == [])
  {
  }

  lemma LeftIsOnce(s: Stack<Item>, items: set<Item>)
    requires Shape(s, items)
    ensures NoRepeats(Left(s)) && forall x :: x in Left(s) ==> x in items
  {
    if s.levels != [] {
      TopLinked(s, items);
    }
  }

  /** The current level is the root level exactly when it is the only one. */
  lemma RootIsTop(s: Stack<Item>, items: set<Item>)
    requires Shape(s, items) && s.levels != []
    ensures s.levels[0].items[0] == Top(s).items[0] <==> |s.levels| == 1
  {
    assert LevelOk(s, items, 0);
    assert LevelOk(s, items, |s.levels| - 1);
  }

  class List {
    var root: Item?
    var currRoot: Item?
    var selected: int
    var createNew: bool
    ghost var stack: Stack<Item>
    ghost var items: set<Item>      // every item of every level
    ghost var freed: seq<Item>      // in the order of freeing

    /** The globals agree with the stack. */
    ghost predicate Entry()
      reads this
    {
      && InRange(stack) && stack.pending == createNew
      && (if stack.levels == [] then root == null && currRoot == null && selected == 0
          else root == stack.levels[0].items[0] && currRoot == Top(stack).items[0] && selected == Top(stack).cursor)
    }

    ghost predicate Valid()
      reads this, items
    {
      Entry() && Shape(stack, items)
    }

    /** No item has been freed twice, and none that has been freed is still in the list. */
    ghost predicate FreedOnce()
      reads this
    {
      NoRepeats(freed) && forall x :: x in freed ==> x !in items
    }

    constructor ()
      ensures Valid() && stack == Empty() && freed == [] && FreedOnce()
    {
      root, currRoot, selected, createNew := null, null, 0, false;
      stack, items, freed := Empty(), {}, [];
    }

    /** The item under the cursor. */
    method GetSelected() returns (r: Item?)
      requires Valid()
      ensures r == if stack.levels == [] then null else Top(stack).items[Top(stack).cursor]
    {
      r := currRoot;
      var count := 0;
      if r != null {
        TopLinked(stack, items);
        hide Shape;
        while r != null && count < selected
          invariant 0 <= count <= selected && r == Top(stack).items[count]
        {
          r := r.next;
          count := count + 1;
        }
      }
    }

    method GetSelNum() returns (n: int)
      requires Valid()
      ensures n == if stack.levels == [] then 0 else Top(stack).cursor
    {
      var r := currRoot;
      n := 0;
      if r != null {
        TopLinked(stack, items);
        hide Shape;
        while r != null && n < selected
          invariant 0 <= n <= selected && r == Top(stack).items[n]
        {
          r := r.next;
          n := n + 1;
        }
      }
    }

    /** The item at a position of the current level. */
    method GetElement(index: int) returns (r: Item?)
      requires Valid()
      ensures r == if stack.levels != [] && 0 <= index < |Top(stack).items| then Top(stack).items[index] else null
    {
      r := GetSelected();
      if r == null {
        return;
      }
      TopLinked(stack, items);
      hide Shape, InRange;
      ghost var level, at := Top(stack).items, Top(stack).cursor;
      while r != null && r.prev != null
        invariant 0 <= at < |level| && r == level[at]
        decreases at
      {
        r := r.prev;
        at := at - 1;
      }
      var count := 0;
      while r != null
        invariant 0 <= count <= |level| && r == (if count < |level| then level[count] else null)
        invariant !(0 <= index < count)
        decreases |level| - count
      {
        if count == index {
          return;
        }
        count := count + 1;
        r := r.next;
      }
    }

    method Up() returns (moved: bool)
      requires Valid()
      modifies this
      ensures Valid() && moved == CanUp(old(stack)) && stack == ItemStack.Up(old(stack))
      ensures items == old(items) && freed == old(freed)
    {
      var sel := GetSelected();
      if sel == null {
        return false;
      }
      TopLinked(stack, items);
      moved := sel.prev != null && !createNew;
      if moved {
        CursorMoved(stack, items, selected - 1);
        hide Shape;
        selected := selected - 1;
        stack := WithTop(stack, Top(stack).(cursor := selected));
      }
    }

    method Down() returns (moved: bool)
      requires Valid()
      modifies this
      ensures Valid() && moved == CanDown(old(stack)) && stack == ItemStack.Down(old(stack))
      ensures items == old(items) && freed == old(freed)
    {
      var sel := GetSelected();
      if sel == null {
        return false;
      }
      TopLinked(stack, items);
      moved := sel.next != null && !createNew;
      if moved {
        CursorMoved(stack, items, selected + 1);
        hide Shape;
        selected := selected + 1;
        stack := WithTop(stack, Top(stack).(cursor := selected));
      }
    }

    /** The next item added opens a new level. */
    method In()
      requires Valid()
      modifies this
      ensures Valid() && stack == ItemStack.In(old(stack)) && items == old(items) && freed == old(freed)
    {
      FlagMoved(stack, items, true);
      hide Shape;
      createNew := true;
      stack := ItemStack.In(stack);
    }

    /** Add an item: the first of all, the first of a new level, or the last of the current level.  The
        last case does not check its allocation. */
    method Add(title: string, subtitle: string, memory: bool) returns (ghost added: Item?)
      requires Valid() && (memory || stack.levels == [] || createNew)
      modifies this, items
      ensures Valid() && freed == old(freed)
      ensures !memory ==> stack == old(stack) && items == old(items)
      ensures memory ==> added != null && fresh(added) && added.title == Clip(title) && added.subtitle == Clip(subtitle)
                         && stack == ItemStack.Add(old(stack), added) && items == old(items) + {added}
    {
      added := null;
      if root == null {
        if !memory {
          return;
        }
        added := AddFirst(title, subtitle);
      } else if createNew {
        if !memory {
          return;
        }
        added := AddLevel(title, subtitle);
      } else {
        added := Append(title, subtitle);
      }
    }

    method AddFirst(title: string, subtitle: string) returns (x: Item)
      requires Valid() && stack.levels == []
      modifies this
      ensures Valid() && freed == old(freed) && fresh(x) && x.title == Clip(title) && x.subtitle == Clip(subtitle)
      ensures stack == ItemStack.Add(old(stack), x) && items == old(items) + {x}
    {
      x := new Item(title, subtitle, null, null, 0, 0);
      root, currRoot := x, x;
      stack := ItemStack.Add(stack, x);
      items := items + {x};
      FirstLevel(stack, items);
    }

    method AddLevel(title: string, subtitle: string) returns (x: Item)
      requires Valid() && stack.levels != [] && createNew
      modifies this
      ensures Valid() && freed == old(freed) && fresh(x) && x.title == Clip(title) && x.subtitle == Clip(subtitle)
      ensures stack == ItemStack.Add(old(stack), x) && items == old(items) + {x}
    {
      var sel := GetSelected();
      x := new Item(title, subtitle, null, sel, |stack.levels|, 0);
      LevelPushed(stack, items, x);
      hide Shape;
      stack := ItemStack.Add(stack, x);
      items := items + {x};
      currRoot, createNew, selected := x, false, 0;
    }

    /** Free the items of a level, each once. */
    method EmptyLevel(first: Item, ghost level: seq<Item>, ghost k: nat, ghost parent: Item?)
      requires Linked(level, k, parent) && first == level[0]
      modifies this`freed, level`live
      ensures freed == old(freed) + level
      ensures forall i :: 0 <= i < |level| ==> !level[i].live
    {
      var c: Item? := first;
      ghost var i := 0;
      while c != null
        invariant 0 <= i <= |level| && c == (if i < |level| then level[i] else null)
        invariant freed == old(freed) + level[..i]
        invariant forall j :: 0 <= j < |level| ==> level[j].live == (j >= i)
        decreases |level| - i
      {
        var tmp := c.next;
        assert c.live && c.index == i;
        c.live := false;
        freed := freed + [c];
        assert level[..i + 1] == level[..i] + [c];
        c := tmp;
        i := i + 1;
      }
      assert level[..i] == level;
    }

    /** The first item of the level that `sel` hangs from, and how far down its parent is there. */
    method ParentLevel(sel: Item) returns (first: Item?, count: nat)
      requires Valid() && |stack.levels| >= 2 && sel in Top(stack).items
      ensures first == stack.levels[|stack.levels| - 2].items[0]
      ensures count == stack.levels[|stack.levels| - 2].cursor
    {
      TopLinked(stack, items);
      ghost var below := stack.levels[|stack.levels| - 2];
      assert LevelOk(stack, items, |stack.levels| - 2);
      hide Shape, InRange;
      first, count := sel.parent, 0;
      while first != null && first.prev != null
        invariant 0 <= count <= below.cursor && first == below.items[below.cursor - count]
        decreases below.cursor - count
      {
        first := first.prev;
        count := count + 1;
      }
    }

    /** Free the top level. */
    method DropLevel(first: Item, ghost s: Stack<Item>, ghost all: set<Item>)
      requires Shape(s, all) && s.levels != [] && first == Top(s).items[0]
      modifies this`freed, all`live
      ensures freed == old(freed) + Top(s).items && forall x :: x in Top(s).items ==> !x.live
      ensures Shape(s.(levels := s.levels[..|s.levels| - 1]), all - set x | x in Top(s).items)
    {
      ghost var top := |s.levels| - 1;
      TopLinked(s, all);
      EmptyLevel(first, Top(s).items, top, ParentOf(s, top));
      ghost var s', rest := s.(levels := s.levels[..top]), all - set x | x in Top(s).items;
      forall k | 0 <= k < top
        ensures LevelOk(s', rest, k)
      {
        assert old(LevelOk(s, all, k));
        assert forall x :: x in s.levels[k].items ==> x !in Top(s).items;
      }
    }

    /** Go back to the level below, its cursor on the item that was entered, and free the level left. */
    method LeaveLevel(sel: Item)
      requires Valid() && !createNew && |stack.levels| >= 2 && sel in Top(stack).items
      modifies this, items`live
      ensures Valid() && stack == ItemStack.Out(old(stack))
      ensures freed == old(freed) + Left(old(stack)) && items == old(items) - set x | x in Left(old(stack))
      ensures forall x :: x in Left(old(stack)) ==> !x.live
    {
      hide Shape;
      var first, count := ParentLevel(sel);
      DropLevel(currRoot, stack, items);
      items := items - set x | x in Top(stack).items;
      stack := ItemStack.Out(stack);
      selected, currRoot := count, first;
    }

    /** Leave the current level; 0 if there was one to leave. */
    method Out() returns (r: int)
      requires Valid()
      modifies this, items`live
      ensures Valid() && stack == ItemStack.Out(old(stack)) && r == if CanLeave(old(stack)) then 0 else 1
      ensures freed == old(freed) + Left(old(stack)) && items == old(items) - set x | x in Left(old(stack))
      ensures forall x :: x in Left(old(stack)) ==> !x.live
    {
      if createNew {
        FlagMoved(stack, items, false);
        hide Shape;
        createNew := false;
        stack := ItemStack.Out(stack);
        return 0;
      }
      if currRoot == null {
        return 1;
      }
      RootIsTop(stack, items);
      hide Shape;
      if currRoot == root {
        return 1;
      }
      var sel := GetSelected();
      if sel == null {
        return 1;
      }
      LeaveLevel(sel);
      return 0;
    }

    /** Free the root level and forget everything.  The items of other levels stay allocated. */
    method Destroy()
      requires Valid()
      modifies this, items`live
      ensures Valid() && stack == Empty()
      ensures freed == old(freed) + if old(stack).levels == [] then [] else old(stack).levels[0].items
      ensures forall k :: 0 <= k < |old(stack).levels| ==> Allocated(old(stack).levels[k].items, k > 0)
      ensures |old(stack).levels| <= 1 <==>
              forall k :: 0 <= k < |old(stack).levels| ==> Allocated(old(stack).levels[k].items, false)
    {
      ghost var s := stack;
      if root != null {
        assert LevelOk(s, items, 0);
        EmptyLevel(root, s.levels[0].items, 0, null);
        assert Allocated(s.levels[0].items, false);
        forall k | 0 < k < |s.levels|
          ensures Allocated(s.levels[k].items, true)
        {
          assert old(LevelOk(s, items, k));
        }
      }
      root, currRoot, selected, createNew := null, null, 0, false;
      stack, items := Empty(), {};
      if |s.levels| > 1 {
        assert s.levels[1].items[0] in s.levels[1].items;
      }
    }

    /** One operation, on a title as the list keeps it. */
    method PerformOne(op: Op<string>)
      requires Valid() && FreedOnce()
      modifies this, items
      ensures Valid() && FreedOnce() && old(freed) <= freed && fresh(items - old(items))
      ensures Titles(stack) == Apply(Titles(old(stack)), ClippedOp(op))
    {
      ghost var s := stack;
      ValidMeans();
      LeftIsOnce(s, items);
      hide Valid, Titles, Clip, Left, ItemStack.Add, ItemStack.Up, ItemStack.Down, ItemStack.Out, NoRepeats, InRange;
      match op {
        case DoAdd(x) =>
          ghost var added := Add(x, "", true);
          TitlesAdd(s, added);
        case DoUp =>
          var _ := Up();
          TitlesMove(s);
        case DoDown =>
          var _ := Down();
          TitlesMove(s);
        case DoIn =>
          In();
          TitlesMove(s);
        case DoOut =>
          NoRepeatsConcat(freed, Left(s));
          var _ := Out();
          TitlesMove(s);
      }
    }

    lemma ValidMeans()
      requires Valid()
      ensures Shape(stack, items) && InRange(stack)
    {
    }

    /** Any sequence of operations does to the titles what it does to a stack of them, frees no item twice, and
        leaves no freed item in the list. */
    method Perform(ops: seq<Op<string>>)
      requires Valid() && FreedOnce()
      modifies this, items
      ensures Valid() && Titles(stack) == Run(Titles(old(stack)), Clipped(ops))
      ensures FreedOnce() && old(freed) <= freed
    {
      var i := 0;
      ghost var cut := Clipped(ops);
      assert cut[..0] == [];
      assert forall k :: 0 <= k < |ops| ==> cut[k] == ClippedOp(ops[k]);
      hide Valid, FreedOnce, Titles, Apply, Clipped, ClippedOp;
      while i < |ops|
        invariant 0 <= i <= |ops|
        invariant Valid() && fresh(items - old(items)) && FreedOnce() && old(freed) <= freed
        invariant Titles(stack) == Run(Titles(old(stack)), cut[..i])
      {
        PerformOne(ops[i]);
        RunMore(Titles(old(stack)), cut[..i], cut[i]);
        assert cut[..i + 1] == cut[..i] + [cut[i]];
        i := i + 1;
      }
      assert cut[..i] == cut;
    }

    /** One step inside a level that was entered from `s`: an item added there, a move, or a visit. */
    method StepInside(step: Step<string>, ghost s: Stack<Item>, ghost all: set<Item>, ghost added: seq<Item>)
      returns (ghost more: seq<Item>, ghost gone: seq<Item>)
      requires Valid() && s.levels != [] && (step.Enter? ==> added != [] && Sound(step.inside, true))
      requires Entered(s, stack, added) && items == all + (set x | x in added)
      modifies this, items
      ensures Valid() && freed == old(freed) + gone && NoRepeats(gone) && |more| <= 1
      ensures Entered(s, stack, added + more) && items == all + (set x | x in added + more)
      ensures |more| + |gone| == PlacingStep(step) && (step.Place? ==> |more| == 1)
      ensures forall x :: x in more ==> fresh(x) && x !in gone
      ensures forall x :: x in gone ==> fresh(x) && !x.live
      ensures step.MoveUp? || step.MoveDown? ==> more == []
      decreases step, 0
    {
      hide *;
      ghost var t := stack;
      StepCount(step);
      EnteredPending(s, t, added);
      PendingFlag();
      more, gone := [], [];
      NoneRepeat();
      assert added + more == added;
      match step {
        case Place(title) =>
          ghost var x := Add(title, "", true);
          EnteredAdd(s, t, added, x);
          more := [x];
        case MoveUp =>
          var _ := Up();
          EnteredMove(s, t, added);
        case MoveDown =>
          var _ := Down();
          EnteredMove(s, t, added);
        case Enter(inside) =>
          gone := Visit(inside);
      }
    }

    lemma PendingFlag()
      requires Valid()
      ensures stack.pending == createNew
    {
    }

    /** The steps inside a level that has just been entered from `s`. */
    method Inside(steps: seq<Step<string>>, ghost s: Stack<Item>, ghost all: set<Item>)
      returns (ghost added: seq<Item>, ghost lost: seq<Item>)
      requires Valid() && s.levels != [] && stack == ItemStack.In(s) && items == all && Sound(steps, true)
      modifies this, items
      ensures Valid() && freed == old(freed) + lost && |lost| + |added| == Placing(steps)
      ensures Entered(s, stack, added) && items == all + (set x | x in added)
      ensures NoRepeats(lost) && NoRepeats(added)
      ensures forall x :: x in added ==> fresh(x)
      ensures forall x :: x in lost ==> fresh(x) && !x.live && x !in added
      decreases steps, 1
    {
      hide *;
      EnteredNow(s);
      NoneRepeat();
      NonePlaced();
      added, lost := [], [];
      assert steps[0..] == steps;
      var i := 0;
      while i < |steps|
        invariant 0 <= i <= |steps| && Valid() && freed == old(freed) + lost
        invariant |lost| + |added| + Placing(steps[i..]) == Placing(steps) && Sound(steps[i..], added == [])
        invariant Entered(s, stack, added) && items == all + (set x | x in added)
        invariant NoRepeats(lost) && NoRepeats(added)
        invariant forall x :: x in added ==> fresh(x)
        invariant forall x :: x in lost ==> fresh(x) && !x.live && x !in added
      {
        NextStep(steps, i, added == []);
        ghost var more, went := StepInside(steps[i], s, all, added);
        NoRepeatsConcat(lost, went);
        OneRepeats(more);
        NoRepeatsConcat(added, more);
        added, lost := added + more, lost + went;
        i := i + 1;
      }
      assert steps[i..] == [];
    }

    /** Enter a level, add items, move about and visit further levels in it, and leave it: every item, link and
        cursor is as it was, and exactly the items added, there and in the visits, have been freed, each once. */
    method Visit(steps: seq<Step<string>>) returns (ghost gone: seq<Item>)
      requires Valid() && stack.levels != [] && !createNew && Sound(steps, true)
      modifies this, items
      ensures Valid() && stack == old(stack) && items == old(items)
      ensures freed == old(freed) + gone && NoRepeats(gone) && |gone| == Placing(steps)
      ensures forall x :: x in gone ==> fresh(x) && !x.live
      decreases steps, 2
    {
      ghost var s, all := stack, items;
      PendingFlag();
      hide *;
      In();
      ghost var added, lost := Inside(steps, s, all);
      EnteredLeft(s, stack, added);
      var _ := Out();
      NoRepeatsConcat(lost, added);
      gone := lost + added;
    }

    method Append(title: string, subtitle: string) returns (x: Item)
      requires Valid() && stack.levels != [] && !createNew
      modifies this`stack, this`items, items
      ensures Valid() && fresh(x) && x.title == Clip(title) && x.subtitle == Clip(subtitle)
      ensures stack == ItemStack.Add(old(stack), x) && items == old(items) + {x}
    {
      TopLinked(stack, items);
      ghost var level := Top(stack).items;
      ghost var at := 0;
      var walker := currRoot;
      while walker.next != null
        invariant 0 <= at < |level| && walker == level[at]
        decreases |level| - at
      {
        hide Shape;
        walker := walker.next;
        at := at + 1;
      }
      x := new Item(title, subtitle, walker, currRoot.parent, |stack.levels| - 1, |level|);
      hide Shape;
      Link(walker, x, stack, items);
      stack := ItemStack.Add(stack, x);
      items := items + {x};
    }
  }

  /** Link `x` behind the last item of the top level. */
  method Link(last: Item, x: Item, ghost s: Stack<Item>, ghost items: set<Item>)
    requires Shape(s, items) && s.levels != [] && !s.pending
    requires last == Top(s).items[|Top(s).items| - 1] && last in items && x !in items
    requires x.level == |s.levels| - 1 && x.index == |Top(s).items| && x.live
    requires x.next == null && x.prev == last && x.parent == ParentOf(s, |s.levels| - 1)
    modifies last`next
    ensures Shape(ItemStack.Add(s, x), items + {x})
  {
    TopLinked(s, items);
    last.next := x;
    ghost var s', top := ItemStack.Add(s, x), |s.levels| - 1;
    Extended(Top(s).items, top, ParentOf(s, top), x);
    forall k | 0 <= k < top
      ensures LevelOk(s', items + {x}, k)
    {
      assert old(LevelOk(s, items, k));
      assert last !in s.levels[k].items;
    }
    assert LevelOk(s', items + {x}, top);
  }

  /** A level whose last item already points to `x`. */
  lemma Extended(level: seq<Item>, k: nat, parent: Item?, x: Item)
    requires |level| > 0 && x !in level
    requires forall i :: 0 <= i < |level| ==> level[i].level == k && level[i].index == i && level[i].live
    requires forall i {:trigger level[i].parent} :: 0 <= i < |level| ==> level[i].parent == parent
    requires forall i {:trigger level[i].next} :: 0 <= i < |level| ==>
               level[i].next == if i + 1 < |level| then level[i + 1] else x
    requires forall i {:trigger level[i].prev} :: 0 <= i < |level| ==>
               level[i].prev == if i > 0 then level[i - 1] else null
    requires x.level == k && x.index == |level| && x.live
    requires x.next == null && x.prev == level[|level| - 1] && x.parent == parent
    ensures Linked(level + [x], k, parent)
  {
  }

  lemma FirstLevel(s: Stack<Item>, items: set<Item>)
    requires |s.levels| == 1 && s.levels[0].cursor == 0 && |s.levels[0].items| == 1
    requires Within(s.levels[0].items, items) && Linked(s.levels[0].items, 0, null)
    ensures Shape(s, items)
  {
  }

  lemma LevelPushed(s: Stack<Item>, items: set<Item>, x: Item)
    requires Shape(s, items) && s.levels != [] && s.pending
    requires x !in items && Linked([x], |s.levels|, ParentOf(s, |s.levels|))
    ensures Shape(ItemStack.Add(s, x), items + {x})
  {
    var s' := ItemStack.Add(s, x);
    forall k | 0 <= k < |s'.levels|
      ensures LevelOk(s', items + {x}, k)
    {
      if k < |s.levels| {
        assert LevelOk(s, items, k);
      }
    }
  }
}
