/** Which required parameters the parser notes as possibly missing. */
module PotentialMisses {
  import opened CliTree
  import opened Traversal

  /** A group whose content is not looked at. */
  predicate Skipped(g: Node)
    requires g.Group?
  {
    AllOptional(g.children) || (g.exclusive && AnyOptional(g.children))
  }

  /**
   * The misses of a sibling list, by structural recursion: skipped groups give
   * nothing, required parameters themselves, and an optional positional
   * parameter ends its sibling list.
   */
  function Misses(ns: seq<Node>): seq<Node>
    decreases ns
  {
    if ns == [] then []
    else match ns[0]
      case Group(children, _) => (if Skipped(ns[0]) then [] else Misses(children)) + Misses(ns[1..])
      case Param(_, required, blocking, _) =>
        if required then [ns[0]] + Misses(ns[1..])
        else if blocking then []
        else Misses(ns[1..])
  }

  /** The misses behind the current positions of the contexts at or above the level. */
  function MissesAfter(st: Stack, level: nat): seq<Node>
    requires InPlace(st)
    decreases |st|
  {
    if |st| < level || st == [] then []
    else Misses(Top(st).parent[Top(st).cur + 1..Top(st).end]) + MissesAfter(Below(st), level)
  }

  /** The misses from the current node on. */
  function MissesFrom(st: Stack, level: nat): seq<Node>
    requires InPlace(st)
  {
    if |st| < level || st == [] then []
    else Misses(Top(st).parent[Top(st).cur..Top(st).end]) + MissesAfter(Below(st), level)
  }

  lemma {:induction false} SiblingMisses(st: Stack, level: nat)
    requires Good(st)
    ensures Good(NextSibling(st)) && |NextSibling(st)| <= |st|
    ensures MissesFrom(NextSibling(st), level) == MissesAfter(st, level)
    decreases |st|
  {
    NextSiblingMeaning(st);
    if st != [] {
      GoodBelow(st);
      if Top(st).cur + 1 == Top(st).end {
        SiblingMisses(Below(st), level);
        assert Top(st).parent[Top(st).cur + 1..Top(st).end] == [];
      } else {
        assert Below(NextSibling(st)) == Below(st);
      }
    }
  }

  /** What the current node and its content, or the cut it makes, contribute. */
  lemma {:induction false} MissesSplit(st: Stack, level: nat)
    requires InPlace(st) && st != [] && |st| >= level
    ensures MissesFrom(st, level) ==
            match Current(st)
            case Group(children, _) => (if Skipped(Current(st)) then [] else Misses(children)) + MissesAfter(st, level)
            case Param(_, required, blocking, _) =>
              if required then [Current(st)] + MissesAfter(st, level)
              else if blocking then MissesAfter(Below(st), level)
              else MissesAfter(st, level)
  {
    var top := Top(st);
    var here := top.parent[top.cur..top.end];
    assert here[0] == Current(st) && here[1..] == top.parent[top.cur + 1..top.end];
  }

  lemma {:induction false} DescendMisses(st: Stack, level: nat)
    requires Good(st) && st != [] && |st| >= level && Current(st).Group?
    ensures Good(Next(st)) && MissesFrom(Next(st), level) == Misses(Current(st).children) + MissesAfter(st, level)
  {
    DescendIsGood(st);
    var n, st' := Current(st), Next(st);
    assert Below(st') == st;
    assert n.children[0..|n.children|] == n.children;
  }

  /** Where one pass of the loop moves to. */
  function MissMove(st: Stack): Stack
    requires InPlace(st) && st != []
  {
    match Current(st)
    case Group(_, _) => if Skipped(Current(st)) then NextSibling(st) else Next(st)
    case Param(_, required, blocking, _) => if !required && blocking then NextAfterSiblings(st) else Next(st)
  }

  /** What one pass of the loop reports. */
  function MissReport(st: Stack): seq<Node>
    requires InPlace(st) && st != []
  {
    if Current(st).Param? && Current(st).isRequired then [Current(st)] else []
  }

  lemma EnterMissStep(st: Stack, level: nat, st': Stack)
    requires Good(st) && st != [] && |st| >= level && Current(st).Group? && !Skipped(Current(st)) && st' == Next(st)
    ensures Good(st') && |Remaining(st')| < |Remaining(st)| && MissesFrom(st, level) == MissesFrom(st', level)
  {
    EnterSameMisses(st, level);
    NextDropsOne(st);
  }

  lemma EnterSameMisses(st: Stack, level: nat)
    requires Good(st) && st != [] && |st| >= level && Current(st).Group? && !Skipped(Current(st))
    ensures Good(Next(st)) && MissesFrom(st, level) == MissesFrom(Next(st), level)
  {
    MissesSplit(st, level);
    DescendMisses(st, level);
  }

  lemma {:induction false} SkipMissStep(st: Stack, level: nat, st': Stack)
    requires Good(st) && st != [] && |st| >= level && Current(st).Group? && Skipped(Current(st))
    requires st' == NextSibling(st)
    ensures Good(st') && |Remaining(st')| < |Remaining(st)| && MissesFrom(st, level) == MissesFrom(st', level)
  {
    MissesSplit(st, level);
    SkipSibling(st, level);
  }

  lemma CutMissStep(st: Stack, level: nat, st': Stack)
    requires Good(st) && st != [] && |st| >= level && st' == NextAfterSiblings(st)
    requires Current(st).Param? && !Current(st).isRequired && Current(st).isBlocking
    ensures Good(st') && |Remaining(st')| < |Remaining(st)| && MissesFrom(st, level) == MissesFrom(st', level)
  {
    MissesSplit(st, level);
    CutList(st, level);
  }

  lemma ParamMissStep(st: Stack, level: nat, st': Stack)
    requires Good(st) && st != [] && |st| >= level && st' == Next(st)
    requires Current(st).Param? && (Current(st).isRequired || !Current(st).isBlocking)
    ensures Good(st') && |Remaining(st')| < |Remaining(st)|
    ensures MissesFrom(st, level) == MissReport(st) + MissesFrom(st', level)
  {
    MissesSplit(st, level);
    assert st' == NextSibling(st);
    SkipSibling(st, level);
  }

  /** One pass reports the next part of the misses and gets nearer to the end. */
  lemma MissStep(st: Stack, level: nat, st': Stack)
    requires Good(st) && st != [] && |st| >= level && st' == MissMove(st)
    ensures Good(st') && |Remaining(st')| < |Remaining(st)|
    ensures MissesFrom(st, level) == MissReport(st) + MissesFrom(st', level)
  {
    var n := Current(st);
    if n.Param? && (n.isRequired || !n.isBlocking) {
      ParamMissStep(st, level, st');
    } else {
      if n.Param? {
        CutMissStep(st, level, st');
      } else if Skipped(n) {
        SkipMissStep(st, level, st');
      } else {
        EnterMissStep(st, level, st');
      }
      NothingReported(st, MissesFrom(st', level));
    }
  }

  lemma NothingReported(st: Stack, rest: seq<Node>)
    requires InPlace(st) && st != [] && (Current(st).Group? || !Current(st).isRequired)
    ensures MissReport(st) + rest == rest
  {
  }

  lemma {:induction false} CutList(st: Stack, level: nat)
    requires Good(st) && st != []
    ensures Good(NextAfterSiblings(st)) && MissesFrom(NextAfterSiblings(st), level) == MissesAfter(Below(st), level)
    ensures |Remaining(NextAfterSiblings(st))| < |Remaining(st)|
  {
    GoodBelow(st);
    SiblingMisses(Below(st), level);
    RemainingShrinks(st);
  }

  /**
   * for_each_potential_miss: the explicit-stack loop, held above the level it
   * starts on, reports exactly the misses of the rest of the sibling list.
   */
  method ForEachPotentialMiss(pos: Traverser) returns (missing: seq<Node>)
    requires Good(pos.stack)
    modifies pos
    ensures missing == if old(pos.stack) == [] then []
                       else Misses(Top(old(pos.stack)).parent[Top(old(pos.stack)).cur..Top(old(pos.stack)).end])
  {
    missing := [];
    var level := |pos.stack|;
    ghost var all := MissesFrom(pos.stack, level);
    OwnListOnly(pos.stack);
    while pos.stack != [] && |pos.stack| >= level
      invariant Good(pos.stack)
      invariant missing + MissesFrom(pos.stack, level) == all
      decreases |Remaining(pos.stack)|
    {
      ghost var st := pos.stack;
      MissStep(st, level, MissMove(st));
      Regroup(missing, MissReport(st), MissesFrom(MissMove(st), level));
      var found := Inspect(pos);
      missing := missing + found;
    }
  }

  /** The body of the loop: report the current node if it is a miss, and move on. */
  method Inspect(pos: Traverser) returns (found: seq<Node>)
    requires InPlace(pos.stack) && pos.stack != []
    modifies pos
    ensures found == MissReport(old(pos.stack)) && pos.stack == MissMove(old(pos.stack))
  {
    found := [];
    var n := Current(pos.stack);
    if n.Group? {
      if AllOptional(n.children) || (n.exclusive && AnyOptional(n.children)) {
        pos.MoveToNextSibling();
      } else {
        pos.Increment();
      }
    } else if n.isRequired {
      found := [n];
      pos.Increment();
    } else if n.isBlocking {
      pos.MoveAfterSiblings();
    } else {
      pos.Increment();
    }
  }

  lemma Regroup<T>(a: seq<T>, b: seq<T>, c: seq<T>)
    ensures a + (b + c) == (a + b) + c
  {
  }

  lemma OwnListOnly(st: Stack)
    requires InPlace(st)
    ensures MissesFrom(st, |st|) == if st == [] then [] else Misses(Top(st).parent[Top(st).cur..Top(st).end])
  {
    if st != [] {
      assert MissesAfter(Below(st), |st|) == [];
    }
  }

  lemma {:induction false} SkipSibling(st: Stack, level: nat)
    requires Good(st) && st != []
    ensures Good(NextSibling(st)) && MissesFrom(NextSibling(st), level) == MissesAfter(st, level)
    ensures |Remaining(NextSibling(st))| < |Remaining(st)|
  {
    SiblingMisses(st, level);
    NextSiblingMeaning(st);
    RemainingSplit(st);
  }

  lemma RemainingShrinks(st: Stack)
    requires Good(st) && st != [] && Good(NextAfterSiblings(st))
    ensures |Remaining(NextAfterSiblings(st))| < |Remaining(st)|
  {
    GoodBelow(st);
    NextSiblingMeaning(Below(st));
    RemainingSplit(st);
  }

  // ----- what the reported list means -----

  /** A non-empty group is required exactly when it is looked into. */
  lemma {:induction false} RequiredIffEntered(g: Node)
    requires g.Group?
    ensures !Required(g) ==> Skipped(g)
    ensures g.children != [] ==> (Required(g) <==> !Skipped(g))
  {
    assert g.children != [] && AllRequired(g.children) ==> AnyRequired(g.children);
  }

  /** Looking into an all-optional group would report nothing anyway, so skipping it loses nothing. */
  lemma {:induction false} AllOptionalHasNoMisses(ns: seq<Node>)
    requires AllOptional(ns)
    ensures Misses(ns) == []
    decreases ns
  {
    if ns != [] {
      AllOptionalHasNoMisses(ns[1..]);
      assert !Required(ns[0]);
      if ns[0].Group? { RequiredIffEntered(ns[0]); }
    }
  }

  /** No positional parameter is optional, at any depth. */
  ghost predicate NoOptionalPositional(ns: seq<Node>)
    decreases ns
  {
    ns == [] ||
    ((if ns[0].Group? then NoOptionalPositional(ns[0].children) else ns[0].isRequired || !ns[0].isBlocking)
     && NoOptionalPositional(ns[1..]))
  }

  /**
   * Where no optional positional parameter cuts a list short, a list has a miss
   * exactly when some node in it is required.
   */
  lemma {:induction false} MissesIffRequired(ns: seq<Node>)
    requires NoEmptyGroups(ns) && NoOptionalPositional(ns)
    ensures Misses(ns) != [] <==> AnyRequired(ns)
    decreases ns
  {
    if ns != [] {
      MissesIffRequired(ns[1..]);
      if ns[0].Group? {
        MissesIffRequired(ns[0].children);
        RequiredIffEntered(ns[0]);
      }
    }
  }

  // ----- lists that are cut short -----

  /** An optional positional parameter: nothing behind it in its list is looked at. */
  predicate Cuts(n: Node) { n.Param? && !n.isRequired && n.isBlocking }

  /** A required parameter, or a group that is looked into and has one in sight. */
  ghost predicate HasSeen(n: Node)
    decreases n, 0
  {
    if n.Param? then n.isRequired else !Skipped(n) && SeenRequired(n.children)
  }

  /** Some required parameter is in sight: in its list and in those of the groups around it, nothing cuts before it. */
  ghost predicate SeenRequired(ns: seq<Node>)
    decreases ns, 1
  {
    exists i :: 0 <= i < |ns| && HasSeen(ns[i]) && forall j :: 0 <= j < i ==> !Cuts(ns[j])
  }

  lemma {:induction false} SeenHereOrBehind(ns: seq<Node>)
    requires ns != []
    ensures SeenRequired(ns) <==> HasSeen(ns[0]) || (!Cuts(ns[0]) && SeenRequired(ns[1..]))
  {
    if SeenRequired(ns) && !HasSeen(ns[0]) {
      var i :| 0 <= i < |ns| && HasSeen(ns[i]) && forall j :: 0 <= j < i ==> !Cuts(ns[j]);
      assert ns[1..][i - 1] == ns[i];
      assert forall j :: 0 <= j < i - 1 ==> ns[1..][j] == ns[j + 1];
    }
    if !Cuts(ns[0]) && SeenRequired(ns[1..]) {
      var i :| 0 <= i < |ns[1..]| && HasSeen(ns[1..][i]) && forall j :: 0 <= j < i ==> !Cuts(ns[1..][j]);
      assert HasSeen(ns[i + 1]);
      assert forall j :: 1 <= j < i + 1 ==> ns[j] == ns[1..][j - 1];
    }
  }

  /** For every list, a miss is reported exactly when a required parameter is in sight. */
  lemma {:induction false} MissesIffSeen(ns: seq<Node>)
    ensures Misses(ns) != [] <==> SeenRequired(ns)
    decreases ns
  {
    if ns != [] {
      SeenHereOrBehind(ns);
      MissesIffSeen(ns[1..]);
      if ns[0].Group? { MissesIffSeen(ns[0].children); }
    }
  }

  /** Every reported node is a required parameter of the list, in pre-order. */
  lemma {:induction false} MissesAreRequiredParams(ns: seq<Node>)
    ensures forall m :: m in Misses(ns) ==> m.Param? && m.isRequired && m in PreOrder(ns)
    decreases ns
  {
    if ns != [] {
      MissesAreRequiredParams(ns[1..]);
      if ns[0].Group? {
        MissesAreRequiredParams(ns[0].children);
      }
    }
  }

  // ----- all required parameters in sight are reported -----

  /** What is reported of two lists in a row: that of both, or of the first alone if it cuts the list. */
  lemma {:induction false} MissesOfBoth(xs: seq<Node>, ys: seq<Node>)
    ensures Misses(xs + ys) ==
            if exists i :: 0 <= i < |xs| && Cuts(xs[i]) then Misses(xs) else Misses(xs) + Misses(ys)
  {
    if xs == [] {
      assert xs + ys == ys;
    } else {
      MissesOfBoth(xs[1..], ys);
      assert (xs + ys)[1..] == xs[1..] + ys;
      assert forall i :: 1 <= i < |xs| ==> xs[i] == xs[1..][i - 1];
      if !Cuts(xs[0]) && exists i :: 0 <= i < |xs| && Cuts(xs[i]) {
        var i :| 0 <= i < |xs| && Cuts(xs[i]);
        assert Cuts(xs[1..][i - 1]);
      }
      if i :| 0 <= i < |xs[1..]| && Cuts(xs[1..][i]) { assert Cuts(xs[i + 1]); }
    }
  }

  /** The required parameters among the nodes. */
  function RequiredParams(nodes: seq<Node>): seq<Node> {
    if nodes == [] then []
    else (if nodes[0].Param? && nodes[0].isRequired then [nodes[0]] else []) + RequiredParams(nodes[1..])
  }

  lemma {:induction false} RequiredParamsOfBoth(a: seq<Node>, b: seq<Node>)
    ensures RequiredParams(a + b) == RequiredParams(a) + RequiredParams(b)
  {
    if a == [] {
      assert a + b == b;
    } else {
      RequiredParamsOfBoth(a[1..], b);
      assert (a + b)[1..] == a[1..] + b;
    }
  }

  /** No list is cut short at any depth, and no group with a required parameter is skipped. */
  ghost predicate NothingHidden(ns: seq<Node>)
    decreases ns
  {
    ns == [] ||
    (!Cuts(ns[0]) && NothingHidden(ns[1..]) &&
     (ns[0].Group? ==>
        if Skipped(ns[0]) then RequiredParams(PreOrder(ns[0].children)) == [] else NothingHidden(ns[0].children)))
  }

  /** Where nothing is hidden, the required parameters of the whole tree are reported, each once and in pre-order. */
  lemma {:induction false} AllRequiredReported(ns: seq<Node>)
    requires NothingHidden(ns)
    ensures Misses(ns) == RequiredParams(PreOrder(ns))
    decreases ns
  {
    if ns != [] {
      AllRequiredReported(ns[1..]);
      RequiredParamsOfBoth(Visit(ns[0]), PreOrder(ns[1..]));
      if ns[0].Group? {
        assert Visit(ns[0])[1..] == PreOrder(ns[0].children);
        if !Skipped(ns[0]) { AllRequiredReported(ns[0].children); }
      } else {
        assert [ns[0]][1..] == [];
      }
    }
  }
}
