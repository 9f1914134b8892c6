/** The depth-first traverser: an explicit stack of positions, and its recursive meaning. */
module Traversal {
  import opened CliTree

  /** A position in the children of one group; end may lie before the last child. */
  datatype Context = Context(parent: seq<Node>, cur: nat, end: nat)

  datatype Memento = Memento(level: nat, context: Context)

  type Stack = seq<Context>

  // ----- the moves, as functions of the stack -----

  function Top(st: Stack): Context
    requires st != []
  {
    st[|st| - 1]
  }

  function Below(st: Stack): Stack
    requires st != []
  {
    st[..|st| - 1]
  }

  /** Every position is at a child before its end. */
  ghost predicate InPlace(st: Stack) {
    forall i :: 0 <= i < |st| ==> st[i].cur < st[i].end <= |st[i].parent|
  }

  function Current(st: Stack): Node
    requires st != [] && Top(st).cur < |Top(st).parent|
  {
    Top(st).parent[Top(st).cur]
  }

  /** To the next sibling of the nearest ancestor-or-self that has one. */
  function NextSibling(st: Stack): Stack
    decreases |st|
  {
    if st == [] then []
    else if Top(st).cur + 1 == Top(st).end then NextSibling(Below(st))
    else Below(st) + [Top(st).(cur := Top(st).cur + 1)]
  }

  /** Operator ++: into a group, else to the next sibling. */
  function Next(st: Stack): Stack
    requires st != [] ==> Top(st).cur < |Top(st).parent|
  {
    if st == [] then []
    else if Current(st).Group? then st + [Context(Current(st).children, 0, |Current(st).children|)]
    else NextSibling(st)
  }

  function NextAfterSiblings(st: Stack): Stack {
    if st == [] then [] else NextSibling(Below(st))
  }

  function UndoPoint(st: Stack): Memento {
    if st == [] then Memento(0, Context([], 0, 0)) else Memento(|st|, Top(st))
  }

  function Undo(st: Stack, m: Memento): Stack {
    if m.level < 1 then st
    else if m.level <= |st| then st[..m.level - 1] + [m.context]
    else if st == [] && m.level == 1 then [m.context]
    else st
  }

  // ----- what is still to be visited -----

  /** The nodes behind the current positions of the given contexts. */
  function After(st: Stack): seq<Node>
    requires InPlace(st)
    decreases |st|
  {
    if st == [] then []
    else PreOrder(Top(st).parent[Top(st).cur + 1..Top(st).end]) + After(Below(st))
  }

  /** The nodes from the current one on, in pre-order. */
  function Remaining(st: Stack): seq<Node>
    requires InPlace(st)
  {
    if st == [] then []
    else PreOrder(Top(st).parent[Top(st).cur..Top(st).end]) + After(Below(st))
  }

  /** In place, and no group that can still be entered is empty. */
  ghost predicate Good(st: Stack) {
    InPlace(st) && forall i :: 0 <= i < |st| ==> NoEmptyGroups(st[i].parent[st[i].cur..])
  }

  lemma GoodBelow(st: Stack)
    requires Good(st) && st != []
    ensures Good(Below(st))
  {
    assert forall i :: 0 <= i < |Below(st)| ==> Below(st)[i] == st[i];
  }

  /** Leaving the current subtree leaves exactly what lies behind it. */
  lemma {:induction false} NextSiblingMeaning(st: Stack)
    requires Good(st)
    ensures Good(NextSibling(st)) && |NextSibling(st)| <= |st|
    ensures Remaining(NextSibling(st)) == After(st)
    decreases |st|
  {
    if st != [] {
      if Top(st).cur + 1 == Top(st).end {
        GoodBelow(st);
        NextSiblingMeaning(Below(st));
        NothingBehind(st);
      } else {
        SiblingBehind(st);
      }
    }
  }

  lemma {:induction false} NothingBehind(st: Stack)
    requires InPlace(st) && st != [] && Top(st).cur + 1 == Top(st).end
    ensures InPlace(Below(st)) && After(st) == After(Below(st))
  {
    assert Top(st).parent[Top(st).cur + 1..Top(st).end] == [];
  }

  lemma {:induction false} SiblingBehind(st: Stack)
    requires Good(st) && st != [] && Top(st).cur + 1 != Top(st).end
    ensures Good(NextSibling(st)) && |NextSibling(st)| == |st|
    ensures Remaining(NextSibling(st)) == After(st)
  {
    StepIsGood(st);
    assert Below(NextSibling(st)) == Below(st);
  }

  lemma StepIsGood(st: Stack)
    requires Good(st) && st != [] && Top(st).cur + 1 < Top(st).end
    ensures Good(Below(st) + [Top(st).(cur := Top(st).cur + 1)])
  {
    var top, st' := Top(st), Below(st) + [Top(st).(cur := Top(st).cur + 1)];
    NoEmptyGroupsSuffix(top.parent[top.cur..], 1);
    assert top.parent[top.cur..][1..] == top.parent[top.cur + 1..];
    forall i | 0 <= i < |st'| ensures NoEmptyGroups(st'[i].parent[st'[i].cur..]) {
      if i < |st'| - 1 { assert st'[i] == st[i]; }
    }
  }

  lemma {:induction false} RemainingSplit(st: Stack)
    requires InPlace(st) && st != []
    ensures Remaining(st) == Visit(Current(st)) + After(st)
  {
    var top := Top(st);
    assert top.parent[top.cur..top.end][1..] == top.parent[top.cur + 1..top.end];
  }

  /** next_sibling drops exactly the current node and what lies under it. */
  lemma {:induction false} NextSiblingDropsSubtree(st: Stack)
    requires Good(st) && st != []
    ensures Good(NextSibling(st)) && |Visit(Current(st))| <= |Remaining(st)|
    ensures Remaining(NextSibling(st)) == Remaining(st)[|Visit(Current(st))|..]
  {
    NextSiblingMeaning(st);
    RemainingSplit(st);
  }

  /** next_after_siblings drops exactly the current node, its later siblings and all under them. */
  lemma NextAfterSiblingsDropsList(st: Stack)
    requires Good(st) && st != []
    ensures Good(NextAfterSiblings(st)) && |NextAfterSiblings(st)| < |st|
    ensures Remaining(NextAfterSiblings(st)) == Remaining(st)[|PreOrder(Top(st).parent[Top(st).cur..Top(st).end])|..]
  {
    GoodBelow(st);
    NextSiblingMeaning(Below(st));
  }

  /** ++ drops exactly the current node, so the number of remaining nodes measures every traversal. */
  lemma NextDropsOne(st: Stack)
    requires Good(st) && st != []
    ensures Good(Next(st)) && Remaining(Next(st)) == Remaining(st)[1..]
    ensures Remaining(st) != [] && Remaining(st)[0] == Current(st)
  {
    RemainingSplit(st);
    DropHead(Current(st), if Current(st).Group? then PreOrder(Current(st).children) else [], After(st));
    if Current(st).Group? {
      DescendIsGood(st);
      DescendRemaining(st);
    } else {
      NextSiblingMeaning(st);
      assert [Current(st)] + [] == [Current(st)] && [] + After(st) == After(st);
    }
  }

  lemma DropHead<T>(x: T, a: seq<T>, b: seq<T>)
    ensures (([x] + a) + b)[1..] == a + b
  {
  }

  lemma MoveHead<T>(a: seq<T>, b: seq<T>)
    requires b != []
    ensures (a + [b[0]]) + b[1..] == a + b
  {
  }

  lemma {:induction false} DescendRemaining(st: Stack)
    requires Good(st) && st != [] && Current(st).Group? && Good(Next(st))
    ensures Remaining(Next(st)) == PreOrder(Current(st).children) + After(st)
  {
    var n, st' := Current(st), Next(st);
    assert Below(st') == st;
    assert n.children[0..|n.children|] == n.children;
  }

  lemma DescendIsGood(st: Stack)
    requires Good(st) && st != [] && Current(st).Group?
    ensures Good(Next(st))
  {
    var n, top, st' := Current(st), Top(st), Next(st);
    assert top.parent[top.cur..][0] == n;
    assert n.children[0..] == n.children;
    forall i | 0 <= i < |st'| ensures NoEmptyGroups(st'[i].parent[st'[i].cur..]) {
      if i < |st| { assert st'[i] == st[i]; }
    }
  }

  // ----- the class -----

  class Traverser {
    var stack: Stack

    constructor (group: Node)
      requires group.Group?
      ensures stack == if group.children == [] then [] else [Context(group.children, 0, |group.children|)]
    {
      if group.children == [] {
        stack := [];
      } else {
        stack := [Context(group.children, 0, |group.children|)];
      }
    }

    /** operator ++ */
    method Increment()
      requires InPlace(stack)
      modifies this
      ensures stack == Next(old(stack))
    {
      if stack == [] {
        return;
      }
      if Current(stack).Group? {
        stack := stack + [Context(Current(stack).children, 0, |Current(stack).children|)];
      } else {
        MoveToNextSibling();
      }
    }

    method MoveToNextSibling()
      requires InPlace(stack)
      modifies this
      ensures stack == NextSibling(old(stack))
    {
      if stack == [] {
        return;
      }
      ghost var target := NextSibling(stack);
      stack := stack[|stack| - 1 := Top(stack).(cur := Top(stack).cur + 1)];
      while Top(stack).cur == Top(stack).end
        invariant stack != []
        invariant InPlace(Below(stack)) && Top(stack).cur <= Top(stack).end
        invariant target == if Top(stack).cur == Top(stack).end then NextSibling(Below(stack)) else stack
        decreases |stack|
      {
        stack := Below(stack);
        if stack == [] {
          return;
        }
        ghost var below := stack;
        stack := stack[|stack| - 1 := Top(stack).(cur := Top(stack).cur + 1)];
        assert Below(stack) == Below(below);
      }
    }

    method MoveAfterSiblings()
      requires InPlace(stack)
      modifies this
      ensures stack == NextAfterSiblings(old(stack))
    {
      if stack == [] {
        return;
      }
      ghost var before := stack;
      stack := stack[|stack| - 1 := Top(stack).(cur := Top(stack).end - 1)];
      assert Below(stack) == Below(before);
      MoveToNextSibling();
    }

    method GetUndoPoint() returns (m: Memento)
      ensures m == UndoPoint(stack)
    {
      m := Memento(|stack|, Context([], 0, 0));
      if stack != [] {
        m := m.(context := Top(stack));
      }
    }

    method Restore(m: Memento)
      modifies this
      ensures stack == Undo(old(stack), m)
    {
      if m.level < 1 {
        return;
      }
      if m.level <= |stack| {
        stack := stack[..m.level];
        stack := stack[|stack| - 1 := m.context];
      } else if stack == [] && m.level == 1 {
        stack := stack + [m.context];
      }
    }
  }

  /** Iterating ++ visits every node once, in pre-order, and stops. */
  method VisitAll(root: Node) returns (visited: seq<Node>)
    requires root.Group? && NoEmptyGroups(root.children)
    ensures visited == PreOrder(root.children)
  {
    visited := [];
    var pos := new Traverser(root);
    StartRemaining(root, pos.stack);
    while pos.stack != []
      invariant Good(pos.stack)
      invariant visited + Remaining(pos.stack) == PreOrder(root.children)
      decreases |Remaining(pos.stack)|
    {
      NextDropsOne(pos.stack);
      MoveHead(visited, Remaining(pos.stack));
      visited := visited + [Current(pos.stack)];
      pos.Increment();
    }
  }

  lemma StartRemaining(root: Node, st: Stack)
    requires root.Group? && NoEmptyGroups(root.children)
    requires st == if root.children == [] then [] else [Context(root.children, 0, |root.children|)]
    ensures Good(st) && Remaining(st) == PreOrder(root.children)
  {
    assert root.children[0..|root.children|] == root.children && root.children[0..] == root.children;
    assert st != [] ==> After(Below(st)) == [];
  }

  // ----- undo -----

  datatype Move = Plus | Sibling

  function Apply(st: Stack, move: Move): Stack
    requires st != [] ==> Top(st).cur < |Top(st).parent|
  {
    if move.Plus? then Next(st) else NextSibling(st)
  }

  lemma ApplyKeepsGood(st: Stack, move: Move)
    requires Good(st)
    ensures Good(Apply(st, move))
  {
    if st != [] && move.Plus? { NextDropsOne(st); } else { NextSiblingMeaning(st); }
  }

  /** The stack after a sequence of moves. */
  function ApplyAll(st: Stack, moves: seq<Move>): (r: Stack)
    requires Good(st)
    ensures Good(r)
    decreases |moves|
  {
    if moves == [] then st
    else
      ApplyKeepsGood(st, moves[0]);
      ApplyAll(Apply(st, moves[0]), moves[1..])
  }

  /** The level never drops below the given one. */
  ghost predicate StaysAt(st: Stack, moves: seq<Move>, level: nat)
    requires Good(st)
    decreases |moves|
  {
    && |st| >= level
    && (moves == [] ||
        (ApplyKeepsGood(st, moves[0]);
         StaysAt(Apply(st, moves[0]), moves[1..], level)))
  }

  /** One move that stays at the level leaves all deeper ancestors' positions alone. */
  lemma {:induction false} SiblingKeepsAncestors(st: Stack, level: nat)
    requires 0 < level <= |st| && |NextSibling(st)| >= level
    ensures NextSibling(st)[..level - 1] == st[..level - 1]
    decreases |st|
  {
    if Top(st).cur + 1 == Top(st).end {
      if |st| > level {
        SiblingKeepsAncestors(Below(st), level);
        assert Below(st)[..level - 1] == st[..level - 1];
      } else {
        NextSiblingShrinks(Below(st));
      }
    }
  }

  lemma {:induction false} NextSiblingShrinks(st: Stack)
    ensures |NextSibling(st)| <= |st|
    decreases |st|
  {
    if st != [] && Top(st).cur + 1 == Top(st).end { NextSiblingShrinks(Below(st)); }
  }

  lemma {:induction false} StayingKeepsAncestors(st: Stack, moves: seq<Move>, level: nat)
    requires Good(st) && level > 0 && StaysAt(st, moves, level)
    ensures |ApplyAll(st, moves)| >= level && ApplyAll(st, moves)[..level - 1] == st[..level - 1]
    decreases |moves|
  {
    if moves != [] {
      ApplyKeepsGood(st, moves[0]);
      var st' := Apply(st, moves[0]);
      StayingKeepsAncestors(st', moves[1..], level);
      assert |st'| >= level;
      if moves[0].Plus? && Current(st).Group? {
        assert st'[..level - 1] == st[..level - 1];
      } else {
        SiblingKeepsAncestors(st, level);
      }
    }
  }

  /** No move brings back what was passed. */
  lemma {:induction false} RemainingOnlyShrinks(st: Stack, moves: seq<Move>)
    requires Good(st)
    ensures |Remaining(ApplyAll(st, moves))| <= |Remaining(st)|
    decreases |moves|
  {
    if moves != [] {
      ApplyKeepsGood(st, moves[0]);
      if st != [] {
        NextDropsOne(st);
        NextSiblingDropsSubtree(st);
      }
      RemainingOnlyShrinks(Apply(st, moves[0]), moves[1..]);
    }
  }

  /** What remains once the level has dropped is no more than what lies behind the ancestors. */
  lemma {:induction false} DroppingPassesAncestors(st: Stack, moves: seq<Move>, level: nat, base: Stack)
    requires Good(st) && 0 < level <= |st| && !StaysAt(st, moves, level)
    requires Good(base) && |base| >= level && st[..level - 1] == base[..level - 1]
    ensures InPlace(base[..level - 1]) && |Remaining(ApplyAll(st, moves))| <= |After(base[..level - 1])|
    decreases |moves|
  {
    ApplyKeepsGood(st, moves[0]);
    var st' := Apply(st, moves[0]);
    if |st'| >= level {
      if moves[0].Plus? && Current(st).Group? {
        assert st'[..level - 1] == st[..level - 1];
      } else {
        SiblingKeepsAncestors(st, level);
      }
      DroppingPassesAncestors(st', moves[1..], level, base);
    } else {
      RemainingOnlyShrinks(st', moves[1..]);
      LeavingPassesAncestors(st, moves[0], level, st[..level - 1]);
    }
  }

  lemma {:induction false} LeavingPassesAncestors(st: Stack, move: Move, level: nat, above: Stack)
    requires Good(st) && 0 < level <= |st| && |Apply(st, move)| < level && above == st[..level - 1]
    ensures Good(above) && Good(Apply(st, move)) && Remaining(Apply(st, move)) == After(above)
  {
    GoodPrefix(st, level - 1);
    LeavingIsSiblingOfAncestors(st, level);
    NextSiblingMeaning(above);
  }

  lemma GoodPrefix(st: Stack, n: nat)
    requires Good(st) && n <= |st|
    ensures Good(st[..n])
  {
    assert forall i :: 0 <= i < n ==> st[..n][i] == st[i];
  }

  /** A move that leaves the level goes on behind the ancestors above it. */
  lemma {:induction false} LeavingIsSiblingOfAncestors(st: Stack, level: nat)
    requires 0 < level <= |st| && |NextSibling(st)| < level
    ensures NextSibling(st) == NextSibling(st[..level - 1])
    decreases |st|
  {
    if |st| > level {
      LeavingIsSiblingOfAncestors(Below(st), level);
      assert Below(st)[..level - 1] == st[..level - 1];
    }
  }

  /**
   * Undoing restores the traverser after a run of ++ and next_sibling exactly
   * when the run never went above the saved level, or the saved level is the
   * outermost one.
   */
  lemma {:induction false} UndoRestoresIff(st: Stack, moves: seq<Move>)
    requires Good(st) && st != []
    ensures Undo(ApplyAll(st, moves), UndoPoint(st)) == st <==> |st| == 1 || StaysAt(st, moves, |st|)
  {
    var level, st' := |st|, ApplyAll(st, moves);
    assert st == st[..level - 1] + [Top(st)];
    if StaysAt(st, moves, level) {
      StayingKeepsAncestors(st, moves, level);
    } else if level > 1 {
      DroppingPassesAncestors(st, moves, level, st);
      if |st'| >= level && st'[..level - 1] == st[..level - 1] {
        RemainsMoreThanAncestors(st', level);
        assert false;
      }
    }
  }

  lemma {:induction false} RemainsMoreThanAncestors(st: Stack, level: nat)
    requires Good(st) && 0 < level <= |st|
    ensures InPlace(st[..level - 1]) && |Remaining(st)| > |After(st[..level - 1])|
    decreases |st|
  {
    RemainsMoreThanBelow(st);
    AfterMonotone(Below(st), level - 1);
    AncestorsOfBelow(st, level - 1, st[..level - 1]);
  }

  lemma AncestorsOfBelow(st: Stack, n: nat, above: Stack)
    requires st != [] && n < |st| && above == st[..n]
    ensures above == Below(st)[..n]
  {
  }

  lemma {:induction false} RemainsMoreThanBelow(st: Stack)
    requires InPlace(st) && st != []
    ensures InPlace(Below(st)) && |Remaining(st)| > |After(Below(st))|
  {
    RemainingSplit(st);
    assert Visit(Current(st)) != [];
  }

  lemma {:induction false} AfterMonotone(st: Stack, n: nat)
    requires InPlace(st) && n <= |st|
    ensures InPlace(st[..n]) && |After(st)| >= |After(st[..n])|
    decreases |st|
  {
    if n == |st| {
      assert st[..n] == st;
    } else {
      AfterMonotone(Below(st), n);
      assert Below(st)[..n] == st[..n];
    }
  }

  /** Saving the position, moving on and undoing: the traverser is where it was exactly when the moves allow it. */
  method MoveAndReturn(pos: Traverser, moves: seq<Move>)
    requires Good(pos.stack) && pos.stack != []
    modifies pos
    ensures pos.stack == Undo(ApplyAll(old(pos.stack), moves), UndoPoint(old(pos.stack)))
    ensures pos.stack == old(pos.stack) <==> |old(pos.stack)| == 1 || StaysAt(old(pos.stack), moves, |old(pos.stack)|)
  {
    ghost var start := pos.stack;
    var m := pos.GetUndoPoint();
    for i := 0 to |moves|
      invariant Good(pos.stack) && ApplyAll(pos.stack, moves[i..]) == ApplyAll(start, moves)
    {
      ApplyKeepsGood(pos.stack, moves[i]);
      assert moves[i..][1..] == moves[i + 1..];
      match moves[i]
      case Plus => pos.Increment();
      case Sibling => pos.MoveToNextSibling();
    }
    pos.Restore(m);
    UndoRestoresIff(start, moves);
  }
}
